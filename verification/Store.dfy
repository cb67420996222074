/**
 * One flag configuration as the database keeps it: the row, its child rows and its immutable
 * versions, and what a write does to them (backend/app/services/flags.py:255-424).
 */
module Store {
  import opened Prelude
  import opened Operators
  import opened Configuration
  import opened Engine
  import opened Rows
  import opened Orders
  import opened Payloads
  import opened Schedule

  /**
   * Which kind of write made a version, and from what. The source records part of this
   * (`source_version` and the audit action); the rest is kept here to say what was not lost.
   */
  datatype Cause =
    | Created
    | Replaced
    | RuleAdded(rule: RuleInput, readVersion: int)
    | RolledBack(target: int)
    | Scheduled(changeId: int, change: Change)

  datatype Version = Version(snapshot: FlagConfiguration, cause: Cause)

  datatype ConfigRow = ConfigRow(
    identity: Identity, enabled: bool, defaultVariation: string, currentVersion: int,
    children: Children, history: map<int, Version>)

  /** A row of `scheduled_changes`. */
  datatype ChangeRow = ChangeRow(configId: int, change: Change, activateAt: int, appliedAt: Option<int>)

  function Revision(revisions: map<string, int>, environmentId: string): int {
    if environmentId in revisions then revisions[environmentId] else 0
  }

  /** `revision = revision + 1`, in one statement. */
  function Bumped(revisions: map<string, int>, environmentId: string): map<string, int> {
    revisions[environmentId := Revision(revisions, environmentId) + 1]
  }

  function BumpedAll(revisions: map<string, int>, environmentIds: seq<string>): map<string, int> {
    if environmentIds == [] then revisions
    else Bumped(BumpedAll(revisions, environmentIds[..|environmentIds| - 1]), environmentIds[|environmentIds| - 1])
  }

  /** `create_flag`, from the point where the flag row exists; a creation payload has no expected version. */
  function Create(id: Identity, p: FlagUpdate): Result<ConfigRow, WriteError> {
    var c :- Build(id, p, 1);
    Ok(ConfigRow(id, p.enabled, p.defaultVariation, 1, ChildrenOf(c), map[1 := Version(c, Created)]))
  }

  /**
   * `update_flag` on a configuration row: build, compare-and-swap the version, replace the
   * children and append the snapshot.
   */
  function Update(row: ConfigRow, p: FlagUpdate, cause: Cause): Result<ConfigRow, WriteError> {
    var c :- Build(row.identity, p, p.expectedVersion + 1);
    if row.currentVersion != p.expectedVersion then Err(ConfigurationConflict(row.currentVersion))
    else Ok(ConfigRow(row.identity, p.enabled, p.defaultVariation, p.expectedVersion + 1, ChildrenOf(c),
                      row.history[p.expectedVersion + 1 := Version(c, cause)]))
  }

  /**
   * How an update ends: a payload that cannot be built is refused as such, whatever the version; then
   * a version that is not the expected one is a conflict that names it; else the update goes through.
   */
  lemma {:induction false} UpdateEndings(row: ConfigRow, p: FlagUpdate, cause: Cause)
    requires SchemaUpdate(p)
    ensures !Acceptable(row.identity, p) ==>
      && Update(row, p, cause).Err? && !Update(row, p, cause).error.ConfigurationConflict?
      && Build(row.identity, p, p.expectedVersion + 1) == Err(Update(row, p, cause).error)
    ensures Acceptable(row.identity, p) && row.currentVersion != p.expectedVersion ==>
      Update(row, p, cause) == Err(ConfigurationConflict(row.currentVersion))
    ensures Acceptable(row.identity, p) && row.currentVersion == p.expectedVersion ==>
      && Update(row, p, cause).Ok?
      && Update(row, p, cause).value.currentVersion == row.currentVersion + 1
      && Update(row, p, cause).value.enabled == p.enabled
      && Update(row, p, cause).value.defaultVariation == p.defaultVariation
  {
    hide SchemaUpdate, Acceptable, Update, Build;
    PositiveExpectation(p);
    BuildExactly(row.identity, p, p.expectedVersion + 1);
    UpdateByBuild(row, p, cause);
    if Build(row.identity, p, p.expectedVersion + 1).Err? {
      BuildErrorsAreLocal(row.identity, p, p.expectedVersion + 1);
    }
  }

  lemma {:induction false} UpdateByBuild(row: ConfigRow, p: FlagUpdate, cause: Cause)
    ensures var built := Build(row.identity, p, p.expectedVersion + 1);
      if built.Err? then Update(row, p, cause) == Err(built.error)
      else if row.currentVersion != p.expectedVersion then
        Update(row, p, cause) == Err(ConfigurationConflict(row.currentVersion))
      else
        && Update(row, p, cause).Ok?
        && Update(row, p, cause).value.currentVersion == row.currentVersion + 1
        && Update(row, p, cause).value.enabled == p.enabled
        && Update(row, p, cause).value.defaultVariation == p.defaultVariation
  {
    hide Build, ChildrenOf;
  }

  /** One query of a configuration with its children, taken as one snapshot of the database. */
  ghost predicate IsReading(row: ConfigRow, l: Loaded) {
    && l.identity == row.identity && l.enabled == row.enabled
    && l.defaultVariation == row.defaultVariation && l.currentVersion == row.currentVersion
    && LoadedChildren(l) == row.children
  }

  /** What one reading of the row compiles to, in whatever order its children came. */
  ghost predicate CompiledFrom(row: ConfigRow, c: FlagConfiguration) {
    exists l :: IsReading(row, l) && Compile(l) == c
  }

  function Current(row: ConfigRow): FlagConfiguration
    requires row.currentVersion in row.history
  {
    row.history[row.currentVersion].snapshot
  }

  /** Versions 1 to the current one, one accepted snapshot each, and live rows that are the last of them. */
  ghost predicate Sound(row: ConfigRow) {
    && row.currentVersion >= 1
    && (forall v :: v in row.history <==> 1 <= v <= row.currentVersion)
    && (forall v :: v in row.history ==>
          && Accepted(row.history[v].snapshot)
          && row.history[v].snapshot.identity == row.identity
          && row.history[v].snapshot.configVersion == v)
    && row.children == ChildrenOf(Current(row))
    && row.enabled == Current(row).enabled && row.defaultVariation == Current(row).defaultVariation
  }

  /** Version v is what its cause makes of the versions before it. */
  ghost predicate Explained(row: ConfigRow, v: int)
    requires v in row.history
  {
    var c := row.history[v].snapshot;
    match row.history[v].cause
    case Created => v == 1
    case Replaced => v > 1
    case RuleAdded(rule, read) =>
      && read in row.history && read < v && BuildRule(rule).Ok?
      && SameContent(c, WithRule(row.history[read].snapshot, BuildRule(rule).value))
    case RolledBack(target) =>
      target in row.history && target < v && c == row.history[target].snapshot.(configVersion := v)
    case Scheduled(_, change) =>
      && v - 1 in row.history && WellFormed(change)
      && SameContent(c, Changed(row.history[v - 1].snapshot, change))
  }

  ghost predicate RowInvariant(row: ConfigRow) {
    Sound(row) && forall v :: v in row.history ==> Explained(row, v)
  }

  /** `after` is `before` with one more version. */
  ghost predicate Extends(before: ConfigRow, after: ConfigRow) {
    && after.identity == before.identity
    && after.currentVersion == before.currentVersion + 1
    && after.history.Keys == before.history.Keys + {after.currentVersion}
    && forall v :: v in before.history ==> after.history[v] == before.history[v]
  }

  lemma {:induction false} CreateIsSound(id: Identity, p: FlagUpdate)
    requires SchemaUpdate(p) && Create(id, p).Ok?
    ensures RowInvariant(Create(id, p).value)
  {
    hide Build, Accepted, SchemaUpdate, ChildrenOf;
    BuiltIsAccepted(id, p, 1);
  }

  function Appended(row: ConfigRow, c: FlagConfiguration, cause: Cause): ConfigRow {
    ConfigRow(row.identity, c.enabled, c.defaultVariation, c.configVersion, ChildrenOf(c),
              row.history[c.configVersion := Version(c, cause)])
  }

  lemma {:induction false} AppendedIsSound(row: ConfigRow, c: FlagConfiguration, cause: Cause)
    requires Sound(row) && Accepted(c) && c.identity == row.identity && c.configVersion == row.currentVersion + 1
    ensures Sound(Appended(row, c, cause)) && Extends(row, Appended(row, c, cause))
  {
    hide Accepted, ChildrenOf;
  }

  lemma {:induction false} UpdateExtends(row: ConfigRow, p: FlagUpdate, cause: Cause)
    requires Sound(row) && SchemaUpdate(p) && Update(row, p, cause).Ok?
    ensures Build(row.identity, p, p.expectedVersion + 1).Ok? && row.currentVersion == p.expectedVersion
    ensures Update(row, p, cause).value == Appended(row, Build(row.identity, p, p.expectedVersion + 1).value, cause)
    ensures Sound(Update(row, p, cause).value) && Extends(row, Update(row, p, cause).value)
  {
    hide Build, Accepted, SchemaUpdate, ChildrenOf, Sound, Extends;
    assert row.currentVersion >= 1 by {
      PositiveVersion(row);
    }
    BuiltIsAccepted(row.identity, p, p.expectedVersion + 1);
    AppendedIsSound(row, Build(row.identity, p, p.expectedVersion + 1).value, cause);
  }

  lemma {:induction false} PositiveVersion(row: ConfigRow)
    requires Sound(row)
    ensures row.currentVersion >= 1 && row.currentVersion in row.history
    ensures Accepted(Current(row)) && Current(row).identity == row.identity
      && Current(row).configVersion == row.currentVersion
  {
    hide Accepted, ChildrenOf;
  }

  lemma {:induction false} ExplanationsLast(row: ConfigRow, after: ConfigRow)
    requires RowInvariant(row) && Sound(after) && Extends(row, after)
    requires Explained(after, after.currentVersion)
    ensures RowInvariant(after)
  {
    forall v | v in after.history ensures Explained(after, v) {
      if v in row.history {
        assert Explained(row, v);
      } else {
        assert v == after.currentVersion;
      }
    }
  }

  /** Any reading of the live rows compiles to the current snapshot, up to row order. */
  lemma {:induction false} ReadingCompiles(row: ConfigRow, l: Loaded)
    requires Sound(row) && IsReading(row, l)
    ensures Accepted(Compile(l)) && Alike(Compile(l), Current(row))
  {
    var c, d := Compile(l), Current(row);
    CompileReadsBack(l, d);
    SameLength(c.rollout, d.rollout);
    SameLength(c.stages, d.stages);
    forall r | r in c.rules
      ensures ValidName(r.name) && r.priority >= 0 && forall x :: x in r.conditions ==> KnownCondition(x)
    {
      var other := Counterpart(c.rules, d.rules, r);
      forall x | x in r.conditions ensures KnownCondition(x) {
        InBoth(r.conditions, other.conditions, x);
      }
    }
  }

  /** Live rows and current snapshot answer every evaluation alike, in whatever order the rows are read. */
  lemma {:induction false} LiveRowsEvaluateAsSnapshot(rt: Runtime, row: ConfigRow, l: Loaded, ctx: Context, now: int)
    requires RowInvariant(row) && IsReading(row, l)
    requires OrderPlaysNoPart(rt.lib, Current(row), ctx.attributes)
    ensures Evaluate(rt, Compile(l), ctx, now) == Evaluate(rt, Current(row), ctx, now)
  {
    StorageKeepsMeaning(rt, Current(row), l, ctx, now);
  }

  ghost predicate LiveReadingsAgree(lib: Library, row: ConfigRow, attributes: map<string, Json>)
    requires row.currentVersion in row.history
  {
    forall l, rt: Runtime, subjectKey, now :: IsReading(row, l) && rt.lib == lib ==>
      Evaluate(rt, Compile(l), Context(subjectKey, attributes), now)
      == Evaluate(rt, Current(row), Context(subjectKey, attributes), now)
  }

  lemma {:induction false} ReadingsOfCurrent(row: ConfigRow, l: Loaded)
    requires Sound(row)
    ensures IsReading(row, l) <==> IsReadingOf(Current(row), l)
  {
    hide Accepted, ChildrenOf, LoadedChildren;
  }

  /** Whether the live rows answer like the snapshot in every order is decided by the snapshot alone, and exactly so. */
  lemma {:induction false} LiveRowsAnswerExactly(lib: Library, row: ConfigRow, attributes: map<string, Json>)
    requires RowInvariant(row)
    ensures row.currentVersion in row.history
    ensures LiveReadingsAgree(lib, row, attributes) <==> OrderPlaysNoPart(lib, Current(row), attributes)
  {
    PositiveVersion(row);
    assert Valid(Current(row)) && DistinctPriorities(Current(row));
    forall l ensures IsReading(row, l) <==> IsReadingOf(Current(row), l) {
      ReadingsOfCurrent(row, l);
    }
    hide RowInvariant, Accepted, Valid, DistinctPriorities, IsReading, IsReadingOf, Compile, Evaluate, OrderPlaysNoPart;
    StorageKeepsMeaningExactly(lib, Current(row), attributes);
  }

  // ----- the four kinds of update -----

  lemma {:induction false} ReplaceKeeps(row: ConfigRow, p: FlagUpdate)
    requires RowInvariant(row) && SchemaUpdate(p) && Update(row, p, Replaced).Ok?
    ensures RowInvariant(Update(row, p, Replaced).value) && Extends(row, Update(row, p, Replaced).value)
  {
    UpdateExtends(row, p, Replaced);
    ExplanationsLast(row, Update(row, p, Replaced).value);
  }

  /** The base of a payload was read as version `read` of this row. */
  ghost predicate ReadFrom(row: ConfigRow, read: int, base: FlagConfiguration) {
    && read in row.history && Accepted(base) && base.identity == row.identity
    && SameContent(base, row.history[read].snapshot)
  }

  lemma {:induction false} ReadingIsReadFrom(row: ConfigRow, l: Loaded)
    requires RowInvariant(row) && IsReading(row, l)
    ensures ReadFrom(row, row.currentVersion, Compile(l))
  {
    ReadingCompiles(row, l);
  }

  lemma {:induction false} RowIsSound(row: ConfigRow)
    requires RowInvariant(row)
    ensures Sound(row) && row.currentVersion >= 1
    ensures forall v :: v in row.history <==> 1 <= v <= row.currentVersion
  {
    hide Accepted, ChildrenOf, Explained;
  }

  lemma {:induction false} AddedRuleExplained(
    row: ConfigRow, rule: RuleInput, read: int, base: FlagConfiguration, c: FlagConfiguration)
    requires ReadFrom(row, read, base) && read <= row.currentVersion && BuildRule(rule).Ok?
    requires c == WithRule(base, BuildRule(rule).value).(configVersion := row.currentVersion + 1)
    ensures Explained(Appended(row, c, RuleAdded(rule, read)), c.configVersion)
  {
    hide Accepted, BuildRule, ChildrenOf, Alike;
    var snapshot := row.history[read].snapshot;
    WithRuleAlike(base, snapshot, BuildRule(rule).value);
    VersionIsNoContent(WithRule(base, BuildRule(rule).value), WithRule(snapshot, BuildRule(rule).value),
      c.configVersion);
  }

  /** An added rule extends the version that was read, whatever version the write replaces. */
  lemma {:induction false} AddRuleKeeps(
    row: ConfigRow, p: FlagUpdate, rule: RuleInput, read: int, base: FlagConfiguration)
    requires RowInvariant(row) && SchemaUpdate(p)
    requires ReadFrom(row, read, base) && CopiesWithRule(base, p.expectedVersion, rule, p)
    requires Update(row, p, RuleAdded(rule, read)).Ok?
    ensures RowInvariant(Update(row, p, RuleAdded(rule, read)).value)
    ensures Extends(row, Update(row, p, RuleAdded(rule, read)).value)
  {
    hide Build, BuildRule, Accepted, SchemaUpdate, CopiesWithRule, Sound, ChildrenOf, Extends, Explained, RowInvariant,
      WithRule;
    RowIsSound(row);
    UpdateExtends(row, p, RuleAdded(rule, read));
    AppendBuilds(base, p.expectedVersion, rule, p, p.expectedVersion + 1);
    AddedRuleExplained(row, rule, read, base, Build(row.identity, p, p.expectedVersion + 1).value);
    ExplanationsLast(row, Update(row, p, RuleAdded(rule, read)).value);
  }

  lemma {:induction false} FitsAlike(c: FlagConfiguration, d: FlagConfiguration, rule: RuleInput)
    requires SameContent(c, d) && Fits(c, rule)
    ensures Fits(d, rule)
  {
    forall r | r in d.rules ensures r.priority != rule.priority {
      var other := Counterpart(d.rules, c.rules, r);
    }
  }

  lemma {:induction false} ReadFits(row: ConfigRow, read: int, base: FlagConfiguration, rule: RuleInput)
    requires ReadFrom(row, read, base)
    ensures Fits(base, rule) <==> Fits(row.history[read].snapshot, rule)
  {
    hide Accepted, Alike, Fits;
    var snapshot := row.history[read].snapshot;
    if Fits(base, rule) {
      FitsAlike(base, snapshot, rule);
    }
    if Fits(snapshot, rule) {
      assert SameContent(snapshot, base) by {
        SameContentBack(base, snapshot);
      }
      FitsAlike(snapshot, base, rule);
    }
  }

  lemma {:induction false} SameContentBack(c: FlagConfiguration, d: FlagConfiguration)
    requires SameContent(c, d)
    ensures SameContent(d, c)
  {
  }

  /** A rule addition commits if and only if nobody overtook it and the rule fits the version it read. */
  lemma {:induction false} AddRuleExactly(
    row: ConfigRow, p: FlagUpdate, rule: RuleInput, read: int, base: FlagConfiguration)
    requires RowInvariant(row) && SchemaUpdate(p) && SchemaRule(rule)
    requires ReadFrom(row, read, base) && CopiesWithRule(base, p.expectedVersion, rule, p)
    ensures Update(row, p, RuleAdded(rule, read)).Ok? <==>
      row.currentVersion == p.expectedVersion && Fits(row.history[read].snapshot, rule)
  {
    hide RowInvariant, Accepted, SchemaUpdate, SchemaRule, CopiesWithRule, Build, ChildrenOf, SameContent, Fits;
    ReadFits(row, read, base, rule);
    PositiveExpectation(p);
    AppendBuildsExactly(base, p.expectedVersion, rule, p, p.expectedVersion + 1);
  }

  lemma {:induction false} PositiveExpectation(p: FlagUpdate)
    requires SchemaUpdate(p)
    ensures p.expectedVersion >= 1
  {
  }

  lemma {:induction false} RollbackExplained(row: ConfigRow, target: int)
    requires target in row.history && target <= row.currentVersion
    ensures var c := row.history[target].snapshot.(configVersion := row.currentVersion + 1);
            Explained(Appended(row, c, RolledBack(target)), c.configVersion)
  {
    hide ChildrenOf;
  }

  /** A rollback never fails on validation: it conflicts or succeeds, and success restores the snapshot. */
  lemma {:induction false} RollbackKeeps(row: ConfigRow, p: FlagUpdate, target: int)
    requires RowInvariant(row) && target in row.history && p.expectedVersion >= 1
    requires Copies(row.history[target].snapshot, p.expectedVersion, p)
    ensures SchemaUpdate(p)
    ensures row.currentVersion != p.expectedVersion ==>
      Update(row, p, RolledBack(target)) == Err(ConfigurationConflict(row.currentVersion))
    ensures row.currentVersion == p.expectedVersion ==>
      && Update(row, p, RolledBack(target))
         == Ok(Appended(row, row.history[target].snapshot.(configVersion := p.expectedVersion + 1), RolledBack(target)))
      && RowInvariant(Update(row, p, RolledBack(target)).value)
      && Extends(row, Update(row, p, RolledBack(target)).value)
  {
    hide Build, Accepted, SchemaUpdate, Copies, ChildrenOf, Extends, Explained, RowInvariant, Sound;
    var snapshot := row.history[target].snapshot;
    RowIsSound(row);
    SnapshotIsAccepted(row, target);
    CopyPassesSchemas(snapshot, p.expectedVersion, p);
    CopyBuilds(snapshot, p.expectedVersion, p, p.expectedVersion + 1);
    if row.currentVersion == p.expectedVersion {
      UpdateExtends(row, p, RolledBack(target));
      RollbackExplained(row, target);
      ExplanationsLast(row, Update(row, p, RolledBack(target)).value);
    }
  }

  lemma {:induction false} SnapshotIsAccepted(row: ConfigRow, v: int)
    requires Sound(row) && v in row.history
    ensures Accepted(row.history[v].snapshot) && row.history[v].snapshot.identity == row.identity
    ensures row.history[v].snapshot.configVersion == v
  {
    hide Accepted, ChildrenOf;
  }

  lemma {:induction false} ChangedValidAlike(c: FlagConfiguration, d: FlagConfiguration, change: Change)
    requires Accepted(c) && Accepted(d) && SameContent(c, d) && WellFormed(change)
    ensures Valid(Changed(c, change)) <==> Valid(Changed(d, change))
  {
    hide SameContent, ChildrenOf, MapSeq, SchemaMarks, DistinctPriorities;
    assert c.variations == d.variations && c.identity == d.identity by {
      SameContentFields(c, d);
    }
  }

  lemma {:induction false} SameContentFields(c: FlagConfiguration, d: FlagConfiguration)
    requires SameContent(c, d)
    ensures c.identity == d.identity && c.enabled == d.enabled && c.defaultVariation == d.defaultVariation
    ensures c.variations == d.variations
  {
  }

  lemma {:induction false} ScheduledExplained(
    row: ConfigRow, changeId: int, change: Change, base: FlagConfiguration, c: FlagConfiguration)
    requires ReadFrom(row, row.currentVersion, base) && WellFormed(change)
    requires c == Changed(base, change).(configVersion := row.currentVersion + 1)
    ensures Explained(Appended(row, c, Scheduled(changeId, change)), c.configVersion)
  {
    hide Accepted, ChildrenOf, Alike, Changed;
    ChangedAlike(base, Current(row), change);
    VersionIsNoContent(Changed(base, change), Changed(Current(row), change), c.configVersion);
  }

  /**
   * A scheduled change that read the current version: its write succeeds exactly when the change
   * leaves the current snapshot valid, and then it is that change applied to that snapshot.
   */
  lemma {:induction false} ScheduledKeeps(
    row: ConfigRow, p: FlagUpdate, q: FlagUpdate, changeId: int, change: Change, base: FlagConfiguration)
    requires RowInvariant(row) && ReadFrom(row, row.currentVersion, base)
    requires Copies(base, row.currentVersion, q) && Applied(change, q) == Returned(p)
    ensures SchemaUpdate(p) && p.expectedVersion == row.currentVersion
    ensures Update(row, p, Scheduled(changeId, change)).Ok? <==> Valid(Changed(Current(row), change))
    ensures Update(row, p, Scheduled(changeId, change)).Ok? ==>
      && RowInvariant(Update(row, p, Scheduled(changeId, change)).value)
      && Extends(row, Update(row, p, Scheduled(changeId, change)).value)
  {
    hide Build, Accepted, SchemaUpdate, Sound, ChildrenOf, Valid, Extends, Explained, RowInvariant, Changed,
      SameContent, Lists;
    RowIsSound(row);
    PositiveVersion(row);
    CopyPassesSchemas(base, row.currentVersion, q);
    AppliedPassesSchemas(change, q);
    AppliedBuilds(base, change, row.currentVersion, q, row.currentVersion + 1);
    ChangedValidAlike(base, Current(row), change);
    if Update(row, p, Scheduled(changeId, change)).Ok? {
      UpdateExtends(row, p, Scheduled(changeId, change));
      ScheduledExplained(row, changeId, change, base, Build(row.identity, p, p.expectedVersion + 1).value);
      ExplanationsLast(row, Update(row, p, Scheduled(changeId, change)).value);
    }
  }
}
