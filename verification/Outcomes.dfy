/** What rollbacks, scheduled ramps and overtaken rule additions do to the answers subjects get. */
module Outcomes {
  import opened Prelude
  import opened Operators
  import opened Configuration
  import opened Rollout
  import opened Engine
  import opened Rows
  import opened Orders
  import opened Payloads
  import opened Schedule
  import opened Store
  import opened Service
  import opened Protocol
  import opened Safety
  import opened Runs

  // ----- rollback -----

  function Stamped(r: Outcome<Evaluation>, version: int): Outcome<Evaluation> {
    match r
    case Raised => Raised
    case Returned(e) => Returned(e.(configVersion := version))
  }

  /** The version number is reported and otherwise plays no part in an evaluation. */
  lemma {:induction false} VersionIsOnlyReported(
    rt: Runtime, c: FlagConfiguration, version: int, ctx: Context, now: int)
    ensures Evaluate(rt, c.(configVersion := version), ctx, now) == Stamped(Evaluate(rt, c, ctx, now), version)
  {
  }

  /**
   * After a rollback every subject is answered as under the version rolled back to, at the same
   * instant; only the reported version differs. This holds of the new snapshot and, where the
   * order of rows plays no part, of any reading of the live rows.
   */
  lemma {:induction false} RollbackRestoresAnswers(
    states: seq<System>, steps: seq<Step>, i: nat, id: int, v: int, rt: Runtime, ctx: Context, now: int)
    requires IsRun(states, steps) && i < |states| && HasVersion(states[i].db, id, v)
    requires states[i].db.configs[id].history[v].cause.RolledBack?
    ensures var row := states[i].db.configs[id];
      var target := row.history[v].cause.target;
      && target in row.history && target < v
      && row.history[v].snapshot == row.history[target].snapshot.(configVersion := v)
      && Evaluate(rt, row.history[v].snapshot, ctx, now)
        == Stamped(Evaluate(rt, row.history[target].snapshot, ctx, now), v)
  {
    hide IsRun, Sound, Evaluate;
    EveryRowIsSound(states, steps, i, id);
    var row := states[i].db.configs[id];
    assert Explained(row, v);
    VersionIsOnlyReported(rt, row.history[row.history[v].cause.target].snapshot, v, ctx, now);
  }

  lemma {:induction false} RolledBackRowsAnswer(
    states: seq<System>, steps: seq<Step>, i: nat, id: int, rt: Runtime, l: Loaded, ctx: Context, now: int)
    requires IsRun(states, steps) && i < |states| && id in states[i].db.configs
      && IsReading(states[i].db.configs[id], l)
    requires var row := states[i].db.configs[id];
      && HasVersion(states[i].db, id, row.currentVersion) && row.history[row.currentVersion].cause.RolledBack?
      && OrderPlaysNoPart(rt.lib, Current(row), ctx.attributes)
    ensures var row := states[i].db.configs[id];
      var target := row.history[row.currentVersion].cause.target;
      target in row.history
      && Evaluate(rt, Compile(l), ctx, now)
        == Stamped(Evaluate(rt, row.history[target].snapshot, ctx, now), row.currentVersion)
  {
    hide IsRun, IsReading, Evaluate, Compile, OrderPlaysNoPart, Stamped;
    RollbackRestoresAnswers(states, steps, i, id, states[i].db.configs[id].currentVersion, rt, ctx, now);
    LiveRowsAnswerInEveryRun(states, steps, i, id, rt, l, ctx, now);
  }

  /**
   * The rollback commits a copy of the target if the row is still at the version it expects, and else
   * changes nothing.
   */
  ghost predicate RollbackOutcome(before: Tables, after: Tables, configId: int, expectedVersion: int, target: int) {
    && configId in before.configs && target in before.configs[configId].history
    && var row := before.configs[configId];
       if row.currentVersion == expectedVersion then
         && HasVersion(after, configId, expectedVersion + 1)
         && after.configs[configId].history[expectedVersion + 1].snapshot
            == row.history[target].snapshot.(configVersion := expectedVersion + 1)
       else after == before
  }

  lemma {:induction false} RollbackOfRow(row: ConfigRow, p: FlagUpdate, target: int)
    requires RowInvariant(row) && SchemaUpdate(p) && Provenance(row, p, RolledBack(target), None)
    ensures target in row.history
    ensures row.currentVersion != p.expectedVersion ==> Update(row, p, RolledBack(target)).Err?
    ensures row.currentVersion == p.expectedVersion ==>
      && Update(row, p, RolledBack(target)).Ok?
      && p.expectedVersion + 1 in Update(row, p, RolledBack(target)).value.history
      && Update(row, p, RolledBack(target)).value.history[p.expectedVersion + 1].snapshot
         == row.history[target].snapshot.(configVersion := p.expectedVersion + 1)
  {
    hide RowInvariant, Update, Copies, ChildrenOf, Extends;
    PositiveExpectation(p);
    RollbackKeeps(row, p, target);
  }

  lemma {:induction false} ProvenanceIgnoresBase(
    row: ConfigRow, p: FlagUpdate, target: int, base: Option<FlagConfiguration>)
    requires Provenance(row, p, RolledBack(target), base)
    ensures Provenance(row, p, RolledBack(target), None)
  {
    hide Copies;
  }

  /** A rollback in flight is never turned down for what it restores: it commits if and only if nobody overtook it. */
  lemma {:induction false} RollbackOnlyConflicts(s: System, t: System, tx: int)
    requires Inv(s) && NextFinishEdit(s, t, tx) && s.flights[tx].cause.RolledBack?
    ensures RollbackOutcome(
      s.db, t.db, s.flights[tx].configId, s.flights[tx].payload.expectedVersion, s.flights[tx].cause.target)
  {
    hide RowInvariant, RowCauses, ChangeServed, SchemaUpdate, Update, Exclusive, Provenance, Bumped, TablesOk;
    var f := s.flights[tx];
    assert FlightOk(s.db, f);
    var row := s.db.configs[f.configId];
    InvRow(s.db, f.configId);
    ProvenanceIgnoresBase(row, f.payload, f.cause.target, f.base);
    RollbackOfRow(row, f.payload, f.cause.target);
  }

  // ----- a ramp of scheduled percentages -----

  ghost predicate RampVersion(row: ConfigRow, v: int, percentage: int, variation: string, fallback: string) {
    && v in row.history && row.history[v].cause.Scheduled?
    && row.history[v].cause.change == RolloutPercentage(Some(percentage), Some(variation), Some(fallback))
  }

  /** Versions from + 1 to from + |percentages| are scheduled percentages of one variation pair. */
  ghost predicate RampVersions(row: ConfigRow, from: int, percentages: seq<int>, variation: string, fallback: string) {
    && from in row.history
    && forall i: nat :: i < |percentages| ==> RampVersion(row, from + i + 1, percentages[i], variation, fallback)
  }

  function Snapshots(row: ConfigRow, from: int, n: nat): seq<FlagConfiguration>
    requires forall v :: from <= v <= from + n ==> v in row.history
  {
    seq(n + 1, i requires 0 <= i <= n => row.history[from + i].snapshot)
  }

  ghost predicate Ramped(
    c: FlagConfiguration, d: FlagConfiguration, percentage: int, variation: string, fallback: string)
  {
    && 0 <= percentage <= BUCKET_COUNT
    && SameContent(d, Changed(c, RolloutPercentage(Some(percentage), Some(variation), Some(fallback))))
  }

  lemma {:induction false} RampLinks(row: ConfigRow, v: int, percentage: int, variation: string, fallback: string)
    requires RowInvariant(row) && RampVersion(row, v, percentage, variation, fallback)
    ensures v - 1 in row.history && v in row.history
    ensures Ramped(row.history[v - 1].snapshot, row.history[v].snapshot, percentage, variation, fallback)
  {
    hide Sound, SameContent, Changed;
    assert Explained(row, v);
  }

  lemma {:induction false} RampHasVersions(
    row: ConfigRow, from: int, percentages: seq<int>, variation: string, fallback: string)
    requires RowInvariant(row) && RampVersions(row, from, percentages, variation, fallback)
    ensures forall v :: from <= v <= from + |percentages| ==> v in row.history
  {
    hide RowInvariant;
    RowIsSound(row);
    if percentages != [] {
      assert RampVersion(row, from + (|percentages| - 1) + 1, percentages[|percentages| - 1], variation, fallback);
    }
  }

  lemma {:induction false} VersionsRamp(
    row: ConfigRow, from: int, percentages: seq<int>, variation: string, fallback: string)
    requires RowInvariant(row) && RampVersions(row, from, percentages, variation, fallback) && variation != fallback
    requires forall i, j :: 0 <= i <= j < |percentages| ==> percentages[i] <= percentages[j]
    requires forall v :: from <= v <= from + |percentages| ==> v in row.history
    ensures ScheduledRamp(Snapshots(row, from, |percentages|), percentages, variation, fallback)
  {
    hide RowInvariant, SameContent, Changed, Valid;
    var cs := Snapshots(row, from, |percentages|);
    forall i: nat | i < |percentages| ensures RampLink(cs, percentages, variation, fallback, i) {
      assert RampVersion(row, from + i + 1, percentages[i], variation, fallback);
      RampLinks(row, from + i + 1, percentages[i], variation, fallback);
    }
    forall i | 0 <= i < |cs| ensures Valid(cs[i]) {
      SnapshotIsValid(row, from + i);
    }
  }

  lemma {:induction false} SnapshotIsValid(row: ConfigRow, v: int)
    requires RowInvariant(row) && v in row.history
    ensures Valid(row.history[v].snapshot)
  {
    hide Sound, Valid, SchemaMarks, Explained;
    SnapshotIsAccepted(row, v);
  }

  ghost predicate Gets(rt: Runtime, row: ConfigRow, v: int, ctx: Context, now: int, variation: string) {
    && v in row.history
    && var r := Evaluate(rt, row.history[v].snapshot, ctx, now);
       r.Returned? && r.value.variation == variation
  }

  ghost predicate OutsideRules(rt: Runtime, row: ConfigRow, v: int, ctx: Context) {
    v in row.history && row.history[v].snapshot.enabled
      && NoRuleApplies(rt.lib, row.history[v].snapshot, ctx.attributes)
  }

  /**
   * In every run: through consecutive versions made by scheduled percentages that do not fall, a
   * subject no rule applies to who once gets the variation of the enabled flag keeps it.
   */
  lemma {:induction false} RampKeepsSubjectsInEveryRun(
    states: seq<System>, steps: seq<Step>, n: nat, id: int, from: int, percentages: seq<int>,
    variation: string, fallback: string, rt: Runtime, ctx: Context, i: nat, j: nat, earlier: int, later: int)
    requires IsRun(states, steps) && n < |states| && id in states[n].db.configs && variation != fallback
    requires RampVersions(states[n].db.configs[id], from, percentages, variation, fallback)
    requires forall i, j :: 0 <= i <= j < |percentages| ==> percentages[i] <= percentages[j]
    requires OutsideRules(rt, states[n].db.configs[id], from, ctx)
    requires 1 <= i <= j <= |percentages| && Gets(rt, states[n].db.configs[id], from + i, ctx, earlier, variation)
    ensures Gets(rt, states[n].db.configs[id], from + j, ctx, later, variation)
  {
    hide IsRun, RowInvariant, RampVersion, Evaluate, NoRuleApplies, ScheduledRamp;
    EveryRowIsSound(states, steps, n, id);
    var row := states[n].db.configs[id];
    RampHasVersions(row, from, percentages, variation, fallback);
    VersionsRamp(row, from, percentages, variation, fallback);
    ScheduledRampKeepsSubjects(
      rt, Snapshots(row, from, |percentages|), percentages, variation, fallback, ctx, i, j, earlier, later);
  }

  // ----- an added rule can undo an edit it did not see -----

  const SWITCH := Identity("p", "e", "prod", "f", "flag", BooleanFlag, "salt")
  const ON_OFF: seq<VariationInput> := [VariationInput("on", Bool(true)), VariationInput("off", Bool(false))]
  const EVERYONE := RuleInput("everyone", 0, [], Some("on"), [], [])
  const FIRST := FlagUpdate(1, true, "off", ON_OFF, [], [], [])
  const KILLED := FIRST.(enabled := false)
  const LATE := FlagUpdate(2, true, "off", ON_OFF, [EVERYONE], [], [])
  const VALUES: map<string, Json> := map["on" := Bool(true), "off" := Bool(false)]
  const SEEN := Loaded(SWITCH, true, "off", 1, VALUES, [], [], [])

  function Simple(enabled: bool, version: int, rules: seq<Rule>): FlagConfiguration {
    FlagConfiguration(SWITCH, enabled, "off", VALUES, version, rules, [], [])
  }

  const SERVED := Rule("everyone", 0, [], Some("on"), [], [])
  const MADE := ConfigRow(
    SWITCH, true, "off", 1, ChildrenOf(Simple(true, 1, [])), map[1 := Version(Simple(true, 1, []), Created)])
  const STOPPED := ConfigRow(
    SWITCH, false, "off", 2, ChildrenOf(Simple(false, 2, [])),
    MADE.history[2 := Version(Simple(false, 2, []), Replaced)])
  const REVIVED := ConfigRow(
    SWITCH, true, "off", 3, ChildrenOf(Simple(true, 3, [SERVED])),
    STOPPED.history[3 := Version(Simple(true, 3, [SERVED]), RuleAdded(EVERYONE, 1))])

  lemma {:induction false} OnOffValues()
    ensures DictOf(ON_OFF) == VALUES && DistinctVariationKeys(ON_OFF)
  {
    var on, off := ON_OFF[0], ON_OFF[1];
    assert ON_OFF[..1] == [on] && [on][..0] == [];
    assert DictOf([on]) == map["on" := Bool(true)];
  }

  lemma {:induction false} NoShares()
    ensures Cumulate([]) == Ok([]) && ValidInputs([])
  {
  }

  lemma {:induction false} SimpleBuilds(enabled: bool, version: int, expected: int)
    requires version >= 1
    ensures Build(SWITCH, FlagUpdate(expected, enabled, "off", ON_OFF, [], [], []), version)
      == Ok(Simple(enabled, version, []))
    ensures Build(SWITCH, FlagUpdate(expected, enabled, "off", ON_OFF, [EVERYONE], [], []), version)
         == Ok(Simple(enabled, version, [SERVED]))
  {
    OnOffValues();
    NoShares();
    assert [EVERYONE][1..] == [] && BuildRules([]) == Ok([]);
    assert BuildRule(EVERYONE) == Ok(SERVED);
    assert BuildRules([EVERYONE]) == Ok([SERVED] + []) && [SERVED] + [] == [SERVED];
  }

  lemma {:induction false} TheThreeWrites()
    ensures Create(SWITCH, FIRST) == Ok(MADE)
    ensures Update(MADE, KILLED, Replaced) == Ok(STOPPED)
    ensures Update(STOPPED, LATE, RuleAdded(EVERYONE, 1)) == Ok(REVIVED)
  {
    hide Build;
    SimpleBuilds(true, 1, 1);
    SimpleBuilds(false, 2, 1);
    SimpleBuilds(true, 3, 2);
  }

  function Holding(row: ConfigRow): Tables {
    Tables(map[1 := row], map["e" := row.currentVersion], {}, map[])
  }

  const CREATING := Creating(SWITCH, FIRST, 0)
  const ADDING := Editing(1, LATE, RuleAdded(EVERYONE, 1), Some(Compile(SEEN)))
  const KILLING := Editing(1, KILLED, Replaced, None)
  const OVERTAKEN: seq<Step> := [
    BeginCreate(0, SWITCH, FIRST), FinishCreate(0, 1), BeginAddRule(1, 1, EVERYONE, SEEN, LATE),
    BeginReplace(2, 1, KILLED), FinishEdit(2), FinishEdit(1)]
  const MOMENTS: seq<System> := [
    EMPTY, System(EMPTY.db, map[0 := CREATING]), System(Holding(MADE), map[]), System(Holding(MADE), map[1 := ADDING]),
    System(Holding(MADE), map[1 := ADDING, 2 := KILLING]), System(Holding(STOPPED), map[1 := ADDING]),
    System(Holding(REVIVED), map[])]

  lemma {:induction false} PayloadsFit()
    ensures SchemaUpdate(FIRST) && SchemaUpdate(KILLED) && SchemaUpdate(LATE) && SchemaRule(EVERYONE)
  {
    NoShares();
  }

  lemma {:induction false} SeenIsCopied()
    ensures IsReading(MADE, SEEN) && Compile(SEEN) == Simple(true, 1, [])
    ensures CopiesWithRule(Compile(SEEN), 2, EVERYONE, LATE)
  {
    OnOffValues();
    assert LATE.rules[..0] == [];
    assert MapSeq(RuleInputOf, []) == [] && MapSeq(LoadedRuleRow, []) == [] && MapSeq(RuleRowOf, []) == [];
  }

  /** The first creation finishes, whoever else is in flight. */
  lemma {:induction false} CreationFinishes(flights: map<int, Flight>)
    requires 0 in flights && flights[0] == CREATING
    ensures NextFinishCreate(System(EMPTY.db, flights), System(Holding(MADE), Others(flights, 0)), 0, 1)
  {
    assert !KeyTaken(EMPTY.db.configs, SWITCH) && EnvironmentsOf(EMPTY.db.configs, SWITCH.flagId) == {};
    hide Create, ChildrenOf, KeyTaken, EnvironmentsOf, Others;
    TheThreeWrites();
  }

  lemma {:induction false} CreationIsNext(flights: map<int, Flight>)
    requires 0 in flights && flights[0] == CREATING
    ensures Next(System(EMPTY.db, flights), FinishCreate(0, 1), System(Holding(MADE), Others(flights, 0)))
  {
    CreationFinishes(flights);
    hide NextFinishCreate, MADE, Holding, Others, CREATING;
  }

  lemma {:induction false} CreationBegins()
    ensures Next(MOMENTS[0], OVERTAKEN[0], MOMENTS[1])
  {
    PayloadsFit();
    hide SchemaUpdate;
  }

  lemma {:induction false} FlagIsMade()
    ensures Next(MOMENTS[1], OVERTAKEN[1], MOMENTS[2])
  {
    var flights := map[0 := CREATING];
    CreationIsNext(flights);
    assert Others(flights, 0) == map[];
    hide Next, MADE, Others, Holding, CREATING;
    assert MOMENTS[1] == System(EMPTY.db, flights) && MOMENTS[2] == System(Holding(MADE), map[]);
  }

  lemma {:induction false} EditsBegin()
    ensures Next(MOMENTS[2], OVERTAKEN[2], MOMENTS[3]) && Next(MOMENTS[3], OVERTAKEN[3], MOMENTS[4])
  {
    hide SchemaUpdate, SchemaRule, IsReading, CopiesWithRule, Compile, ChildrenOf;
    PayloadsFit();
    SeenIsCopied();
  }

  lemma {:induction false} KillFinishes()
    ensures Next(MOMENTS[4], OVERTAKEN[4], MOMENTS[5])
  {
    TheThreeWrites();
    hide Update, ChildrenOf;
    assert Others(map[1 := ADDING, 2 := KILLING], 2) == map[1 := ADDING];
  }

  lemma {:induction false} AdditionFinishes()
    ensures Next(MOMENTS[5], OVERTAKEN[5], MOMENTS[6])
  {
    TheThreeWrites();
    hide Update, ChildrenOf, Compile;
    assert Others(map[1 := ADDING], 1) == map[];
  }

  lemma {:induction false} OvertakenIsARun()
    ensures IsRun(MOMENTS, OVERTAKEN)
  {
    hide Inv, Next;
    EmptyIsAStart();
    CreationBegins();
    FlagIsMade();
    EditsBegin();
    KillFinishes();
    AdditionFinishes();
  }

  /**
   * A rule added with an expected version later than the one its service call read: the flag was
   * switched off in between, and the addition switches it back on.
   */
  lemma {:induction false} AddedRuleRevivesAFlag()
    ensures IsRun(MOMENTS, OVERTAKEN) && MOMENTS[0] == EMPTY
    ensures MOMENTS[6].db.configs[1] == REVIVED
    ensures !REVIVED.history[2].snapshot.enabled && REVIVED.history[3].snapshot.enabled && REVIVED.enabled
    ensures REVIVED.history[3].cause == RuleAdded(EVERYONE, 1)
    ensures !SameContent(REVIVED.history[3].snapshot, WithRule(REVIVED.history[2].snapshot, SERVED))
  {
    hide Build, ChildrenOf, IsRun;
    OvertakenIsARun();
  }

  const OTHER := SWITCH.(flagId := "g", flagKey := "second")
}
