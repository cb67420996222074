/**
 * The write operations, each one transaction run on its own (backend/app/services/flags.py:255-628
 * and backend/app/scheduler/__init__.py:61-125). Their interleavings are in Protocol.
 */
module Service {
  import opened Prelude
  import opened Configuration
  import opened Rows
  import opened Payloads
  import opened Schedule
  import opened Store

  const BATCH_LIMIT := 20

  const NO_CHILDREN := Children(map[], multiset{}, multiset{}, multiset{})

  predicate Due(changes: map<int, ChangeRow>, id: int, now: int) {
    id in changes && changes[id].appliedAt == None && changes[id].activateAt <= now
  }

  function ActivateAt(changes: map<int, ChangeRow>, id: int): int {
    if id in changes then changes[id].activateAt else 0
  }

  /** The first due rows by `activate_at`, without those another transaction has locked. */
  ghost predicate IsClaim(changes: map<int, ChangeRow>, locked: set<int>, claimed: seq<int>, now: int) {
    && |claimed| <= BATCH_LIMIT
    && (forall i, j :: 0 <= i < j < |claimed| ==> claimed[i] != claimed[j])
    && (forall i, j :: 0 <= i < j < |claimed| ==> ActivateAt(changes, claimed[i]) <= ActivateAt(changes, claimed[j]))
    && (forall i :: 0 <= i < |claimed| ==> Due(changes, claimed[i], now) && claimed[i] !in locked)
    && forall id :: Due(changes, id, now) && id !in locked && id !in claimed ==>
         |claimed| == BATCH_LIMIT && forall i :: 0 <= i < |claimed| ==>
           ActivateAt(changes, claimed[i]) <= ActivateAt(changes, id)
  }

  /** A claimed change that its batch can carry out, or whose configuration is gone. */
  ghost predicate Applicable(configs: map<int, ConfigRow>, archived: set<string>, row: ChangeRow)
  {
    row.configId in configs ==>
      && configs[row.configId].identity.flagId !in archived
      && configs[row.configId].currentVersion in configs[row.configId].history
      && WellFormed(row.change) && Valid(Changed(Current(configs[row.configId]), row.change))
  }

  method ReadAll<T(==)>(rows: multiset<T>) returns (s: seq<T>)
    ensures multiset(s) == rows
  {
    s := [];
    var rest := rows;
    while rest != multiset{}
      invariant multiset(s) + rest == rows
      decreases |rest|
    {
      var x :| x in rest;
      s := s + [x];
      rest := rest - multiset{x};
    }
  }

  method LoadRule(row: RuleRow) returns (r: LoadedRule)
    ensures LoadedRuleRow(r) == row
  {
    var conditions := ReadAll(row.conditions);
    var rollouts := ReadAll(row.rollouts);
    var stages := ReadAll(row.stages);
    r := LoadedRule(row.name, row.priority, row.enabled, row.serveVariation, conditions, rollouts, stages);
  }

  /** A configuration with its children, each relationship in whatever order its rows come. */
  method Load(row: ConfigRow) returns (l: Loaded)
    ensures IsReading(row, l)
  {
    var rollouts := ReadAll(row.children.rollouts);
    var stages := ReadAll(row.children.stages);
    var ruleRows := ReadAll(row.children.rules);
    var rules: seq<LoadedRule> := [];
    for i := 0 to |ruleRows|
      invariant MapSeq(LoadedRuleRow, rules) == ruleRows[..i]
    {
      var rule := LoadRule(ruleRows[i]);
      assert MapSeq(LoadedRuleRow, rules + [rule]) == MapSeq(LoadedRuleRow, rules) + [LoadedRuleRow(rule)];
      rules := rules + [rule];
    }
    assert ruleRows[..|ruleRows|] == ruleRows;
    l := Loaded(row.identity, row.enabled, row.defaultVariation, row.currentVersion, row.children.variations, rollouts,
      stages, rules);
  }

  /** One `session.add` after the other; a relation remembers no order. */
  method InsertAll<T(==)>(items: seq<T>) returns (rows: multiset<T>)
    ensures rows == multiset(items)
  {
    rows := multiset{};
    for i := 0 to |items|
      invariant rows == multiset(items[..i])
    {
      assert items[..i + 1] == items[..i] + [items[i]];
      rows := rows + multiset{items[i]};
    }
    assert items[..|items|] == items;
  }

  method RuleRowFor(rule: Rule) returns (row: RuleRow)
    ensures row == RuleRowOf(rule)
  {
    var conditions := InsertAll(rule.conditions);
    var rollouts := InsertAll(rule.rollout);
    var stages := InsertAll(rule.stages);
    row := RuleRow(rule.name, rule.priority, true, rule.variation, conditions, rollouts, stages);
  }

  method InsertRules(rules: seq<Rule>) returns (rows: multiset<RuleRow>)
    ensures rows == multiset(MapSeq(RuleRowOf, rules))
  {
    hide RuleRowOf, MapSeq;
    rows := multiset{};
    for i := 0 to |rules|
      invariant rows == multiset(MapSeq(RuleRowOf, rules[..i]))
    {
      var row := RuleRowFor(rules[i]);
      assert rules[..i + 1] == rules[..i] + [rules[i]];
      MapAppend(rules[..i], rules[i]);
      rows := rows + multiset{row};
    }
    assert rules[..|rules|] == rules;
  }

  class Database {
    var configs: map<int, ConfigRow>
    var revisions: map<string, int>
    var archived: set<string>
    var changes: map<int, ChangeRow>

    constructor ()
      ensures configs == map[] && revisions == map[] && archived == {} && changes == map[]
    {
      configs, revisions, archived, changes := map[], map[], {}, map[];
    }

    ghost predicate Consistent()
      reads this
    {
      forall id :: id in configs ==> RowInvariant(configs[id])
    }

    predicate Missing(configId: int)
      reads this
    {
      configId !in configs || configs[configId].identity.flagId in archived
    }

    /** `_delete_children`. */
    method DeleteChildren(configId: int)
      requires configId in configs
      modifies this`configs
      ensures configs == old(configs)[configId := old(configs)[configId].(children := NO_CHILDREN)]
    {
      var row := configs[configId];
      row := row.(children := row.children.(rollouts := multiset{}));
      row := row.(children := row.children.(stages := multiset{}));
      row := row.(children := row.children.(rules := multiset{}));
      row := row.(children := row.children.(variations := map[]));
      configs := configs[configId := row];
    }

    /** `_persist_children`. */
    method PersistChildren(configId: int, c: FlagConfiguration)
      requires configId in configs && configs[configId].children == NO_CHILDREN
      modifies this`configs
      ensures configs == old(configs)[configId := old(configs)[configId].(children := ChildrenOf(c))]
    {
      var rollouts := InsertAll(c.rollout);
      var stages := InsertAll(c.stages);
      var rules := InsertRules(c.rules);
      configs := configs[configId := configs[configId].(children := Children(c.variations, rollouts, stages, rules))];
    }

    /** `update_flag`: the whole new state, or an error and no change at all. */
    method UpdateFlag(configId: int, p: FlagUpdate, cause: Cause) returns (r: Result<FlagConfiguration, WriteError>)
      modifies this`configs, this`revisions
      ensures old(Missing(configId)) ==> r == Err(FlagNotFound)
      ensures r.Err? ==> configs == old(configs) && revisions == old(revisions)
      ensures !old(Missing(configId)) ==>
        match Update(old(configs)[configId], p, cause)
        case Err(e) => r == Err(e)
        case Ok(row) =>
          && configs == old(configs)[configId := row]
          && revisions == Bumped(old(revisions), row.identity.environmentId)
          && row.currentVersion in row.history && r == Ok(Current(row))
    {
      hide Build, ChildrenOf;
      if configId !in configs || configs[configId].identity.flagId in archived {
        return Err(FlagNotFound);
      }
      var row := configs[configId];
      var newVersion := p.expectedVersion + 1;
      var compiled :- Build(row.identity, p, newVersion);
      if row.currentVersion != p.expectedVersion {
        return Err(ConfigurationConflict(row.currentVersion));
      }
      configs := configs[
        configId := row.(enabled := p.enabled, defaultVariation := p.defaultVariation, currentVersion := newVersion)];
      DeleteChildren(configId);
      PersistChildren(configId, compiled);
      row := configs[configId];
      configs := configs[configId := row.(history := row.history[newVersion := Version(compiled, cause)])];
      revisions := Bumped(revisions, row.identity.environmentId);
      return Ok(compiled);
    }

    /** `create_flag` under an id no row has had before; the environment was found in some project. */
    method CreateFlag(configId: int, id: Identity, environmentProject: string, p: FlagUpdate)
      returns (r: Result<FlagConfiguration, WriteError>)
      requires configId !in configs
      modifies this`configs, this`revisions
      ensures r.Err? ==> configs == old(configs) && revisions == old(revisions)
      ensures environmentProject != id.projectId ==> r == Err(EnvironmentNotFound)
      ensures r == Err(FlagKeyExists) <==>
        && environmentProject == id.projectId
        && exists k :: k in old(configs) && old(configs)[k].identity.projectId == id.projectId
                       && old(configs)[k].identity.flagKey == id.flagKey
      ensures environmentProject == id.projectId && !KeyTaken(old(configs), id) && Create(id, p).Err? ==>
        r == Err(Create(id, p).error)
      ensures environmentProject == id.projectId && !KeyTaken(old(configs), id) && Create(id, p).Ok? ==>
        && configs == old(configs)[configId := Create(id, p).value]
        && revisions == Bumped(old(revisions), id.environmentId)
        && r == Ok(Create(id, p).value.history[1].snapshot)
    {
      hide Build, ChildrenOf;
      if Build(id, p, 1).Err? {
        BuildErrorsAreLocal(id, p, 1);
      }
      if environmentProject != id.projectId {
        return Err(EnvironmentNotFound);
      }
      if KeyTaken(configs, id) {
        return Err(FlagKeyExists);
      }
      var compiled :- Build(id, p, 1);
      configs := configs[configId := ConfigRow(id, p.enabled, p.defaultVariation, 1, NO_CHILDREN, map[])];
      PersistChildren(configId, compiled);
      var row := configs[configId];
      configs := configs[configId := row.(history := row.history[1 := Version(compiled, Created)])];
      revisions := Bumped(revisions, id.environmentId);
      return Ok(compiled);
    }

    /** The add-rule handler: what it adds to is the version it read, here the current one. */
    method AddRule(
      configId: int, rule: RuleInput, expectedVersion: int) returns (r: Result<FlagConfiguration, WriteError>)
      requires Consistent() && SchemaRule(rule) && expectedVersion >= 1
      modifies this`configs, this`revisions
      ensures Consistent()
      ensures r.Err? ==> configs == old(configs) && revisions == old(revisions)
      ensures r.Ok? <==> !old(Missing(configId)) && AddsRule(old(configs)[configId], rule, expectedVersion)
      ensures r.Ok? ==>
        && configId in old(configs) && old(configs)[configId].currentVersion == expectedVersion && configId in configs
        && Extends(old(configs)[configId], configs[configId])
        && configs[configId].history[expectedVersion + 1] == Version(r.value, RuleAdded(rule, expectedVersion))
    {
      hide SchemaUpdate, SchemaRule, CopiesWithRule, Extends, RowInvariant, ReadFrom, Update, AddsRule;
      if configId !in configs || configs[configId].identity.flagId in archived {
        return Err(FlagNotFound);
      }
      var row := configs[configId];
      var p, base := AppendRuleUpdate(row, rule, expectedVersion);
      if p.Raised? {
        return Err(UnhandledValidation);
      }
      AddRuleOutcome(row, p.value, rule, base);
      r := UpdateFlag(configId, p.value, RuleAdded(rule, row.currentVersion));
    }

    /** `rollback_flag`: succeeds exactly when the versions match, and restores the snapshot exactly. */
    method RollbackFlag(
      configId: int, target: int, expectedVersion: int) returns (r: Result<FlagConfiguration, WriteError>)
      requires Consistent() && expectedVersion >= 1
      modifies this`configs, this`revisions
      ensures Consistent()
      ensures r.Err? ==> configs == old(configs) && revisions == old(revisions)
      ensures r == Err(VersionNotFound) <==> configId !in old(configs) || target !in old(configs)[configId].history
      ensures r.Ok? <==> !old(Missing(configId)) && target in old(configs)[configId].history
                         && old(configs)[configId].currentVersion == expectedVersion
      ensures r.Ok? ==> configId in configs && RollsBack(old(configs)[configId], configs[configId], target, r.value)
      ensures r.Ok? ==> r.value.configVersion == expectedVersion + 1
    {
      if configId !in configs || target !in configs[configId].history {
        return Err(VersionNotFound);
      }
      hide Accepted, SchemaUpdate, Copies, RowInvariant, Update, RollsBack;
      var row := configs[configId];
      var snapshot := row.history[target].snapshot;
      VersionIsAccepted(row, target);
      var copied := UpdateFromConfiguration(snapshot, expectedVersion);
      RollbackOutcome(row, copied.value, target);
      r := UpdateFlag(configId, copied.value, RolledBack(target));
    }

    /** One environment after the other, as `archive_flag` counts its revisions. */
    method BumpEach(environments: set<string>)
      modifies this`revisions
      ensures forall e ::
        Revision(revisions, e) == Revision(old(revisions), e) + if e in environments then 1 else 0
    {
      var rest := environments;
      while rest != {}
        invariant rest <= environments
        invariant forall e ::
          Revision(revisions, e) == Revision(old(revisions), e) + if e in environments && e !in rest then 1 else 0
        decreases |rest|
      {
        var e :| e in rest;
        revisions := Bumped(revisions, e);
        rest := rest - {e};
      }
    }

    /** Some configuration of the flag is in the environment. */
    predicate HasFlag(flagId: string, e: string)
      reads this
    {
      exists k :: k in configs && configs[k].identity.flagId == flagId && configs[k].identity.environmentId == e
    }

    /** `archive_flag`: the flag disappears from reads, its versions stay. */
    method ArchiveFlag(flagId: string) returns (r: Result<(), WriteError>)
      modifies this`archived, this`revisions
      ensures r == if flagId in old(archived) || EnvironmentsOf(configs, flagId) == {} then Err(FlagNotFound)
        else Ok(())
      ensures r.Err? ==> archived == old(archived) && revisions == old(revisions)
      ensures r.Ok? ==> archived == old(archived) + {flagId}
      ensures r.Ok? ==> forall e ::
        Revision(revisions, e) == Revision(old(revisions), e)
          + if HasFlag(flagId, e) then 1 else 0
    {
      var environments := EnvironmentsOf(configs, flagId);
      if flagId in archived || environments == {} {
        return Err(FlagNotFound);
      }
      archived := archived + {flagId};
      BumpEach(environments);
      return Ok(());
    }
  }

  /** Flag keys are unique in a project, archived flags included. */
  predicate KeyTaken(configs: map<int, ConfigRow>, id: Identity) {
    exists k :: k in configs && configs[k].identity.projectId == id.projectId
      && configs[k].identity.flagKey == id.flagKey
  }

  /** The environments a flag has a configuration in. */
  function EnvironmentsOf(configs: map<int, ConfigRow>, flagId: string): set<string> {
    set k | k in configs && configs[k].identity.flagId == flagId :: configs[k].identity.environmentId
  }

  /** `append_rule_update`, with the read in front of it. */
  method AppendRuleUpdate(row: ConfigRow, rule: RuleInput, expectedVersion: int)
    returns (p: Outcome<FlagUpdate>, ghost base: FlagConfiguration)
    requires RowInvariant(row) && SchemaRule(rule) && expectedVersion >= 1
    ensures p.Returned? && SchemaUpdate(p.value) && p.value.expectedVersion == expectedVersion
    ensures ReadFrom(row, row.currentVersion, base) && CopiesWithRule(base, expectedVersion, rule, p.value)
  {
    hide LoadedChildren, Accepted, SchemaUpdate, SchemaRule, CopiesWithRule, RowInvariant, Compile, SameContent;
    var l := Load(row);
    ReadingIsReadFrom(row, l);
    var compiled := Compile(l);
    base := compiled;
    var copied := UpdateFromConfiguration(compiled, expectedVersion);
    AppendedRuleCopies(compiled, expectedVersion, rule, copied.value);
    p := Returned(copied.value.(rules := copied.value.rules + [rule]));
  }

  /** The row is at the expected version and the rule fits it. */
  ghost predicate AddsRule(row: ConfigRow, rule: RuleInput, expectedVersion: int) {
    row.currentVersion == expectedVersion && row.currentVersion in row.history && Fits(Current(row), rule)
  }

  lemma {:induction false} AddRuleOutcome(row: ConfigRow, p: FlagUpdate, rule: RuleInput, base: FlagConfiguration)
    requires RowInvariant(row) && SchemaUpdate(p) && SchemaRule(rule) && ReadFrom(row, row.currentVersion, base)
    requires CopiesWithRule(base, p.expectedVersion, rule, p)
    ensures Update(row, p, RuleAdded(rule, row.currentVersion)).Ok? <==> AddsRule(row, rule, p.expectedVersion)
    ensures Update(row, p, RuleAdded(rule, row.currentVersion)).Ok? ==>
      var after := Update(row, p, RuleAdded(rule, row.currentVersion)).value;
      && RowInvariant(after) && Extends(row, after)
      && row.currentVersion == p.expectedVersion && after.currentVersion == p.expectedVersion + 1
      && after.history[after.currentVersion] == Version(Current(after), RuleAdded(rule, row.currentVersion))
  {
    hide Build, BuildRule, SchemaUpdate, CopiesWithRule, Sound, Extends, RowInvariant, ChildrenOf, SchemaRule, Fits,
      SameContent;
    AddRuleExactly(row, p, rule, row.currentVersion, base);
    if Update(row, p, RuleAdded(rule, row.currentVersion)).Ok? {
      RowIsSound(row);
      AddRuleKeeps(row, p, rule, row.currentVersion, base);
      UpdateExtends(row, p, RuleAdded(rule, row.currentVersion));
    }
  }

  lemma {:induction false} VersionIsAccepted(row: ConfigRow, v: int)
    requires RowInvariant(row) && v in row.history
    ensures Accepted(row.history[v].snapshot)
  {
    hide Accepted, Sound, Explained;
    RowIsSound(row);
    SnapshotIsAccepted(row, v);
  }

  /** `after` has one version more, and that is the target with its own version number. */
  ghost predicate RollsBack(before: ConfigRow, after: ConfigRow, target: int, c: FlagConfiguration) {
    && Extends(before, after) && target in before.history && after.currentVersion in after.history
    && c == before.history[target].snapshot.(configVersion := after.currentVersion)
    && after.history[after.currentVersion] == Version(c, RolledBack(target))
  }

  lemma {:induction false} RollbackOutcome(row: ConfigRow, p: FlagUpdate, target: int)
    requires RowInvariant(row) && target in row.history && p.expectedVersion >= 1
    requires Copies(row.history[target].snapshot, p.expectedVersion, p)
    ensures Update(row, p, RolledBack(target)).Ok? <==> row.currentVersion == p.expectedVersion
    ensures Update(row, p, RolledBack(target)).Err? ==>
      Update(row, p, RolledBack(target)) == Err(ConfigurationConflict(row.currentVersion))
    ensures Update(row, p, RolledBack(target)).Ok? ==>
      var after := Update(row, p, RolledBack(target)).value;
      && RowInvariant(after) && after.currentVersion in after.history
        && Current(after).configVersion == p.expectedVersion + 1
      && RollsBack(row, after, target, Current(after))
  {
    hide Build, SchemaUpdate, Copies, Sound, Extends, RowInvariant, ChildrenOf, Update;
    RollbackKeeps(row, p, target);
  }

  lemma {:induction false} AppendedRuleCopies(
    c: FlagConfiguration, expectedVersion: int, rule: RuleInput, q: FlagUpdate)
    requires Copies(c, expectedVersion, q) && SchemaUpdate(q) && SchemaRule(rule)
    ensures CopiesWithRule(c, expectedVersion, rule, q.(rules := q.rules + [rule]))
    ensures SchemaUpdate(q.(rules := q.rules + [rule]))
  {
    var p := q.(rules := q.rules + [rule]);
    assert p.rules[..|p.rules| - 1] == q.rules;
    assert p.(rules := q.rules) == q;
  }
}
