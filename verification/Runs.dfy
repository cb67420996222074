/**
 * What holds in every run of the write protocol, whatever the interleaving: nothing committed is
 * lost or changed, each version has one writer, and each scheduled change is carried out once.
 */
module Runs {
  import opened Prelude
  import opened Operators
  import opened Configuration
  import opened Engine
  import opened Rows
  import opened Orders
  import opened Payloads
  import opened Schedule
  import opened Store
  import opened Service
  import opened Scheduler
  import opened Protocol
  import opened Safety

  predicate HasVersion(db: Tables, id: int, v: int) {
    id in db.configs && v in db.configs[id].history
  }

  ghost predicate Makes(s: System, t: System, id: int, v: int) {
    HasVersion(t.db, id, v) && !HasVersion(s.db, id, v)
  }

  // ----- one step -----

  /** A configuration appears with version 1 and gains at most one version in a step. */
  ghost predicate AddsAtMostOne(before: Tables, after: Tables, id: int) {
    && (id in before.configs ==>
          && id in after.configs
          && (after.configs[id] == before.configs[id] || Extends(before.configs[id], after.configs[id])))
    && (id !in before.configs && id in after.configs ==>
          after.configs[id].history.Keys == {1} && after.configs[id].currentVersion == 1)
  }

  lemma {:induction false} EditAddsOne(s: System, t: System, tx: int, id: int)
    requires Inv(s) && NextFinishEdit(s, t, tx)
    ensures AddsAtMostOne(s.db, t.db, id)
  {
    hide RowInvariant, RowCauses, ChangeServed, Provenance, SchemaUpdate, Update, Extends, Exclusive, TablesOk;
    var f := s.flights[tx];
    assert FlightOk(s.db, f);
    var row := s.db.configs[f.configId];
    if Update(row, f.payload, f.cause).Ok? {
      InvRow(s.db, f.configId);
      EditExtends(row, f.payload, f.cause, f.base);
    }
  }

  lemma {:induction false} CommitAddsOne(s: System, t: System, tx: int, now: int, id: int)
    requires Inv(s) && NextBatchCommit(s, t, tx, now)
    ensures AddsAtMostOne(s.db, t.db, id)
  {
    hide RowInvariant, RowCauses, ChangeServed, StagedOk, BumpedAll, Environments, TablesOk, ReadingOk, Extends,
      BatchOk, Exclusive, MarkApplied;
    var f := s.flights[tx];
    CommitIsOfWholeBatch(s, t, tx, now);
    StagedAreRows(s.db, f.claimed, f.staged);
    if id in f.staged {
      var i := StagedBy(s.db, f.claimed, f.staged, id);
    }
  }

  lemma {:induction false} CommitIsOfWholeBatch(s: System, t: System, tx: int, now: int)
    requires Inv(s) && NextBatchCommit(s, t, tx, now)
    ensures BatchOk(s.db, s.flights[tx].claimed, |s.flights[tx].claimed|, None, s.flights[tx].staged)
    ensures t.db == Committed(s.db, s.flights[tx].claimed, s.flights[tx].staged, now)
  {
    hide TablesOk, StagedOk, ReadFrom, BumpedAll, Environments, MarkApplied, Exclusive, ReadingOk;
    var f := s.flights[tx];
    assert FlightOk(s.db, f);
    if f.reading.Some? {
      assert ReadingOk(s.db, f.claimed, f.done, f.reading.value);
      ReadingIsBeforeTheEnd(s.db, f.claimed, f.done, f.reading.value);
    }
  }

  lemma {:induction false} CreatedKeys(id: Identity, p: FlagUpdate)
    requires Create(id, p).Ok?
    ensures Create(id, p).value.history.Keys == {1} && Create(id, p).value.currentVersion == 1
  {
    hide Build, ChildrenOf;
  }

  /** At most one version a step, whoever takes it. */
  lemma {:induction false} StepAddsAtMostOne(s: System, step: Step, t: System, id: int)
    requires Inv(s) && Next(s, step, t)
    ensures AddsAtMostOne(s.db, t.db, id)
  {
    hide Inv, Extends, Create, KeyTaken, IsReading, Compile, SchemaUpdate, Copies, CopiesWithRule, IsClaim,
      NextFinishEdit, NextBatchCommit, Update, Applied, SchemaRule;
    match step {
      case FinishEdit(tx) => EditAddsOne(s, t, tx, id);
      case BatchCommit(tx, now) => CommitAddsOne(s, t, tx, now, id);
      case FinishCreate(tx, configId) =>
        if Create(s.flights[tx].identity, s.flights[tx].payload).Ok? {
          CreatedKeys(s.flights[tx].identity, s.flights[tx].payload);
        }
      case _ =>
    }
  }

  /** Only these steps write; every other one, failing batches and aborts among them, leaves the database as it was. */
  predicate Writes(step: Step) {
    step.FinishEdit? || step.FinishCreate? || step.FinishArchive? || step.ScheduleChange? || step.BatchCommit?
  }

  lemma {:induction false} OtherStepsLeaveTheDatabase(s: System, step: Step, t: System)
    requires Next(s, step, t) && !Writes(step)
    ensures t.db == s.db
  {
    hide IsReading, Compile, SchemaUpdate, Copies, CopiesWithRule, IsClaim, Update, Applied, SchemaRule, Locked;
  }

  ghost predicate KeepsApplied(before: map<int, ChangeRow>, after: map<int, ChangeRow>, k: int) {
    k in before ==> k in after && (before[k].appliedAt.Some? ==> after[k] == before[k])
  }

  /**
   * `applied_at` is set by the commit that carries the change out, or finds its configuration gone, and
   * never again.
   */
  lemma {:induction false} AppliedByItsCommit(s: System, step: Step, t: System, k: int)
    requires Inv(s) && Next(s, step, t) && k in s.db.changes
    ensures KeepsApplied(s.db.changes, t.db.changes, k)
    ensures t.db.changes[k] != s.db.changes[k] ==>
      && step.BatchCommit? && k in s.flights[step.tx].claimed
      && t.db.changes[k] == s.db.changes[k].(appliedAt := Some(step.now))
      && var id := s.db.changes[k].configId;
         (id in s.db.configs ==>
           id in t.db.configs && IsNext(s.db.configs[id], t.db.configs[id], k, s.db.changes[k].change))
  {
    hide Inv, Create, KeyTaken, IsReading, Compile, SchemaUpdate, Copies, CopiesWithRule, IsClaim, Update, Applied,
      SchemaRule, NextBatchCommit, IsNext;
    if step.BatchCommit? {
      CommitApplies(s, t, step.tx, step.now, k);
    }
  }

  lemma {:induction false} CommitApplies(s: System, t: System, tx: int, now: int, k: int)
    requires Inv(s) && NextBatchCommit(s, t, tx, now) && k in s.db.changes
    ensures KeepsApplied(s.db.changes, t.db.changes, k)
    ensures t.db.changes[k] != s.db.changes[k] ==>
      && k in s.flights[tx].claimed && t.db.changes[k] == s.db.changes[k].(appliedAt := Some(now))
      && var id := s.db.changes[k].configId;
         (id in s.db.configs ==>
           id in t.db.configs && IsNext(s.db.configs[id], t.db.configs[id], k, s.db.changes[k].change))
  {
    hide Inv, IsNext, BumpedAll, Environments, Exclusive;
    var f := s.flights[tx];
    CommitIsOfWholeBatch(s, t, tx, now);
    hide NextBatchCommit;
    if k in f.claimed {
      var i: nat :| i < |f.claimed| && f.claimed[i] == k;
      assert Target(s.db.changes, f.claimed, i) == s.db.changes[k].configId;
    }
  }

  /** The other way round: a version that names a scheduled change is made by the commit that marks it applied. */
  lemma {:induction false} VersionMarksItsChange(
    s: System, step: Step, t: System, id: int, v: int, k: int, change: Change)
    requires Inv(s) && Next(s, step, t) && Makes(s, t, id, v)
    requires t.db.configs[id].history[v].cause == Scheduled(k, change)
    requires id in s.db.configs && k in s.db.changes
    ensures s.db.changes[k].appliedAt == None && t.db.changes[k].appliedAt.Some?
    ensures step.BatchCommit? && k in s.flights[step.tx].claimed
  {
    hide Next, Exclusive, FlightOk, RowInvariant;
    StepKeepsInv(s, step, t);
    hide RowGrows;
    AppliedByItsCommit(s, step, t, k);
    assert RowCauses(id, t.db.configs[id], t.db.changes);
    assert t.db.changes[k].configId == id && t.db.changes[k].appliedAt.Some?;
    if s.db.changes[k].appliedAt.Some? {
      ServedVersionStays(s.db, t.db, id, k, v);
    }
  }

  lemma {:induction false} ServedVersionStays(before: Tables, after: Tables, id: int, k: int, v: int)
    requires TablesOk(before) && TablesOk(after) && TablesGrow(before, after)
    requires k in before.changes && before.changes[k].appliedAt.Some? && before.changes[k].configId == id
    requires id in before.configs && id in after.configs && v in after.configs[id].history
    requires after.configs[id].history[v].cause.Scheduled? && after.configs[id].history[v].cause.changeId == k
    ensures v in before.configs[id].history
  {
    hide RowInvariant;
    assert ChangeServed(k, before.changes[k], before.configs);
    var w :| w in before.configs[id].history
      && before.configs[id].history[w].cause == Scheduled(k, before.changes[k].change);
    assert RowGrows(before.configs[id], after.configs[id]);
    assert SameScheduled(after.configs[id].history[w].cause, after.configs[id].history[v].cause);
    assert RowCauses(id, after.configs[id], after.changes);
  }

  /** The flag of a configuration is there and not archived. */
  predicate LiveFlag(db: Tables, configId: int) {
    configId in db.configs && db.configs[configId].identity.flagId !in db.archived
  }

  /** Requests are taken up for live flags only; archiving needs one that is not archived yet. */
  lemma {:induction false} RequestsNeedALiveFlag(s: System, step: Step, t: System)
    requires Next(s, step, t)
    ensures step.BeginReplace? || step.BeginAddRule? || step.BeginRollback? ==> LiveFlag(s.db, step.configId)
    ensures step.ScheduleChange? ==> LiveFlag(s.db, step.row.configId)
    ensures step.BatchRead? ==>
      && step.tx in s.flights && s.flights[step.tx].Batching? && s.flights[step.tx].done < |s.flights[step.tx].claimed|
      && s.flights[step.tx].claimed[s.flights[step.tx].done] in s.db.changes
      && LiveFlag(s.db, s.db.changes[s.flights[step.tx].claimed[s.flights[step.tx].done]].configId)
    ensures step.BeginArchive? ==>
      step.flagId !in s.db.archived && exists k :: k in s.db.configs && s.db.configs[k].identity.flagId == step.flagId
  {
    hide IsReading, Compile, SchemaUpdate, Copies, CopiesWithRule, IsClaim, Update, Applied, SchemaRule, Create,
      KeyTaken,
      BumpedAll, Environments, MarkApplied;
  }

  /** Any transaction may end without a trace at any time. */
  lemma {:induction false} AnythingMayAbort(s: System, tx: int)
    requires tx in s.flights
    ensures Next(s, Abort(tx), System(s.db, s.flights - {tx}))
  {
  }

  // ----- every run -----

  ghost predicate Keeps(before: Tables, after: Tables, id: int) {
    id in before.configs ==> id in after.configs && RowGrows(before.configs[id], after.configs[id])
  }

  /** Between any two moments of a run no version is lost, none changes, and the current one does not go back. */
  lemma {:induction false} HistoryGrows(states: seq<System>, steps: seq<Step>, i: nat, j: nat, id: int)
    requires IsRun(states, steps) && i <= j < |states|
    ensures Keeps(states[i].db, states[j].db, id)
    decreases j
  {
    hide Inv, Next;
    if i < j {
      RunStep(states, steps, j - 1);
      StepKeepsInv(states[j - 1], steps[j - 1], states[j]);
      HistoryGrows(states, steps, i, j - 1, id);
    }
  }

  lemma {:induction false} RunStep(states: seq<System>, steps: seq<Step>, i: nat)
    requires IsRun(states, steps) && i < |steps|
    ensures |states| == |steps| + 1 && Inv(states[i]) && Next(states[i], steps[i], states[i + 1])
  {
    hide Inv, Next;
    RunKeepsInv(states, steps, i);
  }

  /** No two steps of a run make the same version of the same configuration. */
  lemma {:induction false} OneWriterPerVersion(states: seq<System>, steps: seq<Step>, i: nat, j: nat, id: int, v: int)
    requires IsRun(states, steps) && i < |steps| && j < |steps|
    requires Makes(states[i], states[i + 1], id, v) && Makes(states[j], states[j + 1], id, v)
    ensures i == j
  {
    hide Inv, Next;
    if i < j {
      HistoryGrows(states, steps, i + 1, j, id);
    } else if j < i {
      HistoryGrows(states, steps, j + 1, i, id);
    }
  }

  /** In a run from the empty database every version has the one step that made it, out of the version before. */
  lemma {:induction false} WriterOfVersion(
    states: seq<System>, steps: seq<Step>, n: nat, id: int, v: int) returns (i: nat)
    requires IsRun(states, steps) && states[0] == EMPTY && n < |states| && HasVersion(states[n].db, id, v)
    ensures i < n && Makes(states[i], states[i + 1], id, v)
    ensures id in states[i].db.configs ==> states[i].db.configs[id].currentVersion == v - 1
    ensures id !in states[i].db.configs ==> v == 1
    ensures states[i + 1].db.configs[id].currentVersion == v
    decreases n
  {
    hide Inv, Next;
    i := 0;
    if n > 0 {
      hide IsRun;
      RunStep(states, steps, n - 1);
      if HasVersion(states[n - 1].db, id, v) {
        i := WriterOfVersion(states, steps, n - 1, id, v);
      } else {
        i := n - 1;
        StepAddsAtMostOne(states[i], steps[i], states[n], id);
      }
    }
  }

  /** In every reachable state the versions are 1 to the current one, and each is what its cause says. */
  lemma {:induction false} EveryRowIsSound(states: seq<System>, steps: seq<Step>, i: nat, id: int)
    requires IsRun(states, steps) && i < |states| && id in states[i].db.configs
    ensures RowInvariant(states[i].db.configs[id])
    ensures forall v :: v in states[i].db.configs[id].history <==> 1 <= v <= states[i].db.configs[id].currentVersion
  {
    hide Next, IsRun, RowInvariant, RowCauses, ChangeServed, FlightOk, Exclusive;
    RunKeepsInv(states, steps, i);
    RowIsSound(states[i].db.configs[id]);
  }

  /** In every reachable state the live rows, read back in any order, answer like the current snapshot. */
  lemma {:induction false} LiveRowsAnswerInEveryRun(
    states: seq<System>, steps: seq<Step>, i: nat, id: int, rt: Runtime, l: Loaded, ctx: Context, now: int)
    requires IsRun(states, steps) && i < |states| && id in states[i].db.configs
      && IsReading(states[i].db.configs[id], l)
    ensures var row := states[i].db.configs[id];
      && row.currentVersion in row.history
      && (OrderPlaysNoPart(rt.lib, Current(row), ctx.attributes) ==>
            Evaluate(rt, Compile(l), ctx, now) == Evaluate(rt, Current(row), ctx, now))
  {
    hide IsRun, IsReading, RowInvariant, Evaluate, Compile, OrderPlaysNoPart;
    EveryRowIsSound(states, steps, i, id);
    var row := states[i].db.configs[id];
    RowIsSound(row);
    if OrderPlaysNoPart(rt.lib, Current(row), ctx.attributes) {
      LiveRowsEvaluateAsSnapshot(rt, row, l, ctx, now);
    }
  }

  /** And they do so in every order, for given attributes, if and only if no order matters to the current snapshot. */
  lemma {:induction false} LiveRowsExactlyInEveryRun(
    states: seq<System>, steps: seq<Step>, i: nat, id: int, lib: Library, attributes: map<string, Json>)
    requires IsRun(states, steps) && i < |states| && id in states[i].db.configs
    ensures var row := states[i].db.configs[id];
      && row.currentVersion in row.history
      && (LiveReadingsAgree(lib, row, attributes) <==> OrderPlaysNoPart(lib, Current(row), attributes))
  {
    hide IsRun, RowInvariant, LiveReadingsAgree, OrderPlaysNoPart;
    EveryRowIsSound(states, steps, i, id);
    LiveRowsAnswerExactly(lib, states[i].db.configs[id], attributes);
  }

  /** Claims of batches in flight never overlap, and neither do the rows they have updated. */
  lemma {:induction false} ClaimsStayDisjoint(states: seq<System>, steps: seq<Step>, i: nat, a: int, b: int)
    requires IsRun(states, steps) && i < |states| && a in states[i].flights && b in states[i].flights && a != b
    requires states[i].flights[a].Batching? && states[i].flights[b].Batching?
    ensures forall k :: k in states[i].flights[a].claimed ==> k !in states[i].flights[b].claimed
    ensures states[i].flights[a].staged.Keys !! states[i].flights[b].staged.Keys
  {
    hide Next, TablesOk, FlightOk, IsRun;
    RunKeepsInv(states, steps, i);
  }

  /** A scheduled change makes at most one version, in its own configuration, and only once it is applied. */
  lemma {:induction false} ChangesServeOnce(
    states: seq<System>, steps: seq<Step>, i: nat, id: int, v: int, other: int, w: int)
    requires IsRun(states, steps) && i < |states|
    requires HasVersion(states[i].db, id, v) && HasVersion(states[i].db, other, w)
    requires SameScheduled(states[i].db.configs[id].history[v].cause, states[i].db.configs[other].history[w].cause)
    ensures id == other && v == w
    ensures var k := states[i].db.configs[id].history[v].cause.changeId;
      k in states[i].db.changes && states[i].db.changes[k].configId == id && states[i].db.changes[k].appliedAt.Some?
  {
    hide Next, FlightOk, IsRun, RowInvariant, Exclusive, ChangeServed;
    RunKeepsInv(states, steps, i);
    assert RowCauses(id, states[i].db.configs[id], states[i].db.changes);
    assert RowCauses(other, states[i].db.configs[other], states[i].db.changes);
  }

  /** A change is applied if and only if one of its configuration's versions is its doing. */
  lemma {:induction false} AppliedIffServed(states: seq<System>, steps: seq<Step>, i: nat, k: int)
    requires IsRun(states, steps) && i < |states| && k in states[i].db.changes
    requires states[i].db.changes[k].configId in states[i].db.configs
    ensures var history := states[i].db.configs[states[i].db.changes[k].configId].history;
      states[i].db.changes[k].appliedAt.Some? <==>
      exists v :: v in history && history[v].cause == Scheduled(k, states[i].db.changes[k].change)
  {
    hide Next, FlightOk, IsRun, RowInvariant, Exclusive;
    RunKeepsInv(states, steps, i);
    var db := states[i].db;
    assert ChangeServed(k, db.changes[k], db.configs);
    assert RowCauses(db.changes[k].configId, db.configs[db.changes[k].configId], db.changes);
  }

  // ----- no lost update -----

  /** A committed scheduled change is that change applied to exactly the version before it. */
  lemma {:induction false} ScheduledChangesLoseNothing(states: seq<System>, steps: seq<Step>, i: nat, id: int, v: int)
    requires IsRun(states, steps) && i < |states| && HasVersion(states[i].db, id, v)
    requires states[i].db.configs[id].history[v].cause.Scheduled?
    ensures var row := states[i].db.configs[id];
      && v - 1 in row.history && WellFormed(row.history[v].cause.change)
      && SameContent(row.history[v].snapshot, Changed(row.history[v - 1].snapshot, row.history[v].cause.change))
  {
    hide IsRun, Sound, SameContent, Changed;
    EveryRowIsSound(states, steps, i, id);
    assert Explained(states[i].db.configs[id], v);
  }

  lemma {:induction false} SameRowCancels(a: multiset<RuleRow>, b: multiset<RuleRow>, row: RuleRow)
    ensures a + multiset{row} == b + multiset{row} <==> a == b
  {
    assert a == (a + multiset{row}) - multiset{row};
    assert b == (b + multiset{row}) - multiset{row};
  }

  lemma {:induction false} SameRuleCancels(c: FlagConfiguration, d: FlagConfiguration, rule: Rule)
    ensures SameContent(WithRule(c, rule), WithRule(d, rule)) <==> SameContent(c, d)
  {
    MapAppend(c.rules, rule);
    MapAppend(d.rules, rule);
    SameRowCancels(multiset(MapSeq(RuleRowOf, c.rules)), multiset(MapSeq(RuleRowOf, d.rules)), RuleRowOf(rule));
    hide MapSeq, RuleRowOf;
  }

  lemma {:induction false} SameContentOfEqual(c: FlagConfiguration, d: FlagConfiguration, e: FlagConfiguration)
    requires SameContent(c, d)
    ensures SameContent(c, e) <==> SameContent(d, e)
  {
  }

  lemma {:induction false} AddedRuleExactly(row: ConfigRow, v: int)
    requires RowInvariant(row) && v in row.history && row.history[v].cause.RuleAdded?
    ensures AddedRule(row, v)
  {
    hide Accepted, ChildrenOf, SameContent, BuildRule, WithRule;
    assert Explained(row, v);
    var cause := row.history[v].cause;
    var rule := BuildRule(cause.rule).value;
    var seen, replaced := row.history[cause.readVersion].snapshot, row.history[v - 1].snapshot;
    SameContentOfEqual(row.history[v].snapshot, WithRule(seen, rule), WithRule(replaced, rule));
    SameRuleCancels(seen, replaced, rule);
  }

  /** Version v is the version read plus the rule, and the version replaced plus the rule exactly if those two agree. */
  ghost predicate AddedRule(row: ConfigRow, v: int)
    requires v in row.history && row.history[v].cause.RuleAdded?
  {
    var cause := row.history[v].cause;
    && BuildRule(cause.rule).Ok? && v - 1 in row.history && cause.readVersion in row.history
      && cause.readVersion <= v - 1
    && var rule := BuildRule(cause.rule).value;
       && SameContent(row.history[v].snapshot, WithRule(row.history[cause.readVersion].snapshot, rule))
       && (SameContent(row.history[v].snapshot, WithRule(row.history[v - 1].snapshot, rule)) <==>
           SameContent(row.history[cause.readVersion].snapshot, row.history[v - 1].snapshot))
  }

  /**
   * A committed add-rule is the version it read plus the rule. It is the version it replaced plus
   * the rule if and only if those two versions have the same content, and in particular whenever
   * the version it expected, which is the one it replaced, is not later than the one it read.
   */
  lemma {:induction false} AddedRulesExactly(states: seq<System>, steps: seq<Step>, i: nat, id: int, v: int)
    requires IsRun(states, steps) && i < |states| && HasVersion(states[i].db, id, v)
    requires states[i].db.configs[id].history[v].cause.RuleAdded?
    ensures AddedRule(states[i].db.configs[id], v)
    ensures var row := states[i].db.configs[id];
      var cause := row.history[v].cause;
      v - 1 <= cause.readVersion ==>
        SameContent(row.history[v].snapshot, WithRule(row.history[v - 1].snapshot, BuildRule(cause.rule).value))
  {
    hide IsRun, RowInvariant, BuildRule, WithRule, SameContent;
    EveryRowIsSound(states, steps, i, id);
    AddedRuleExactly(states[i].db.configs[id], v);
  }

  /** The version an edit expects is the one its commit replaces. */
  lemma {:induction false} EditsReplaceWhatTheyExpect(s: System, t: System, tx: int, v: int)
    requires Inv(s) && NextFinishEdit(s, t, tx) && Makes(s, t, s.flights[tx].configId, v)
    ensures v - 1 == s.flights[tx].payload.expectedVersion == s.db.configs[s.flights[tx].configId].currentVersion
    ensures t.db.configs[s.flights[tx].configId].history[v].cause == s.flights[tx].cause
  {
    hide RowInvariant, RowCauses, ChangeServed, Provenance, SchemaUpdate, Update, Extends, Exclusive, TablesOk;
    var f := s.flights[tx];
    assert FlightOk(s.db, f);
    var row := s.db.configs[f.configId];
    if Update(row, f.payload, f.cause).Ok? {
      InvRow(s.db, f.configId);
      EditAdds(row, f.payload, f.cause);
    }
  }

  lemma {:induction false} EditAdds(row: ConfigRow, p: FlagUpdate, cause: Cause)
    requires RowInvariant(row) && SchemaUpdate(p) && Update(row, p, cause).Ok?
    ensures row.currentVersion == p.expectedVersion
    ensures var after := Update(row, p, cause).value;
      && after.history.Keys == row.history.Keys + {p.expectedVersion + 1}
      && after.history[p.expectedVersion + 1].cause == cause
  {
    hide Build, ChildrenOf, SchemaUpdate, RowInvariant;
  }

  // ----- a batch run on its own -----

  ghost predicate Touched(changes: map<int, ChangeRow>, claimed: seq<int>, id: int)
    requires AllKnown(changes, claimed)
  {
    exists i: nat :: i < |claimed| && Target(changes, claimed, i) == id
  }

  ghost function Staged(
    configs: map<int, ConfigRow>, after: map<int, ConfigRow>, changes: map<int, ChangeRow>, claimed: seq<int>)
    : map<int, ConfigRow>
    requires AllKnown(changes, claimed) && after.Keys == configs.Keys
  {
    map id | id in after && Touched(changes, claimed, id) :: after[id]
  }

  /** What `apply_due_changes` leaves when nothing interleaves is what the commit of a batch in flight would leave. */
  lemma {:induction false} BatchAloneIsACommit(
    db: Tables, after: map<int, ConfigRow>, locked: set<int>, claimed: seq<int>, now: int)
    requires IsClaim(db.changes, locked, claimed, now) && AllKnown(db.changes, claimed)
    requires Carried(db.configs, after, db.changes, claimed)
    ensures BatchOk(db, claimed, |claimed|, None, Staged(db.configs, after, db.changes, claimed))
    ensures Committed(db, claimed, Staged(db.configs, after, db.changes, claimed), now)
         == Tables(after, BumpedAll(db.revisions, Environments(db.configs, db.changes, claimed)), db.archived,
                   MarkApplied(db.changes, claimed, now))
  {
    hide IsNext, BumpedAll, Environments, MarkApplied;
    var staged := Staged(db.configs, after, db.changes, claimed);
    forall i: nat | i < |claimed| && Target(db.changes, claimed, i) in db.configs
      ensures Target(db.changes, claimed, i) in staged
    {
      assert Touched(db.changes, claimed, Target(db.changes, claimed, i));
    }
    forall id | id in db.configs ensures (db.configs + staged)[id] == after[id] {
    }
    assert db.configs + staged == after;
  }
}
