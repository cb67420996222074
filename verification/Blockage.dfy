/** A scheduled change of an archived flag is never applied, nor is anything claimed together with it. */
module Blockage {
  import opened Prelude
  import opened Configuration
  import opened Rows
  import opened Payloads
  import opened Schedule
  import opened Store
  import opened Service
  import opened Scheduler
  import opened Protocol
  import opened Safety
  import opened Runs
  import opened Outcomes
  import opened Etags

  // ----- in every run, with any number of workers -----

  ghost predicate Hidden(db: Tables, k: int) {
    && k in db.changes && db.changes[k].appliedAt == None && db.changes[k].configId in db.configs
    && db.configs[db.changes[k].configId].identity.flagId in db.archived
  }

  /** The batch has neither passed its claim on the change nor read the configuration for it. */
  ghost predicate NotPast(f: Flight, k: int) {
    f.Batching? ==> forall p: nat :: p < |f.claimed| && f.claimed[p] == k ==>
      f.done <= p && (f.done == p ==> f.reading == None)
  }

  ghost predicate Barred(s: System, k: int) {
    Hidden(s.db, k) && forall tx :: tx in s.flights ==> NotPast(s.flights[tx], k)
  }

  lemma {:induction false} ArchivedStays(s: System, step: Step, t: System)
    requires Next(s, step, t)
    ensures s.db.archived <= t.db.archived
  {
    hide IsReading, Compile, SchemaUpdate, Copies, CopiesWithRule, IsClaim, Update, Applied, SchemaRule, Locked, Create,
      KeyTaken, EnvironmentsOf, BumpedAll, Environments, MarkApplied;
  }

  lemma {:induction false} BarredIsNotCommitted(s: System, step: Step, t: System, k: int)
    requires Barred(s, k) && Next(s, step, t) && step.BatchCommit?
    ensures k !in s.flights[step.tx].claimed
  {
    hide BumpedAll, Environments, MarkApplied;
    var f := s.flights[step.tx];
    assert NotPast(f, k);
    forall p: nat | p < |f.claimed| ensures f.claimed[p] != k {
    }
  }

  lemma {:induction false} HiddenStays(s: System, step: Step, t: System, k: int)
    requires Inv(s) && Barred(s, k) && Next(s, step, t)
    ensures Hidden(t.db, k)
  {
    hide Inv, Next, NotPast;
    ArchivedStays(s, step, t);
    AppliedByItsCommit(s, step, t, k);
    if step.BatchCommit? {
      BarredIsNotCommitted(s, step, t, k);
    }
    StepKeepsInv(s, step, t);
    assert RowGrows(s.db.configs[s.db.changes[k].configId], t.db.configs[s.db.changes[k].configId]);
  }

  lemma {:induction false} BatchStaysBehind(s: System, step: Step, t: System, k: int, tx: int)
    requires Inv(s) && Barred(s, k) && Next(s, step, t) && tx in t.flights
    ensures NotPast(t.flights[tx], k)
  {
    hide TablesOk, Exclusive, StagedOk, ReadFrom, Provenance, Compile, SchemaUpdate, Copies, CopiesWithRule, IsClaim,
      Update, Applied, SchemaRule, Locked, Create, KeyTaken, EnvironmentsOf, BumpedAll, Environments, MarkApplied,
      IsReading;
    if tx in s.flights {
      assert NotPast(s.flights[tx], k);
      match step {
        case BatchRead(tx0, loaded) =>
          if tx == tx0 {
            assert s.flights[tx].claimed[s.flights[tx].done] != k;
          }
        case BatchSkip(tx0) =>
          if tx == tx0 {
            assert FlightOk(s.db, s.flights[tx]) && s.flights[tx].reading == None;
            assert s.flights[tx].claimed[s.flights[tx].done] != k;
          }
        case _ =>
      }
    }
  }

  lemma {:induction false} StepKeepsBarred(s: System, step: Step, t: System, k: int)
    requires Inv(s) && Barred(s, k) && Next(s, step, t)
    ensures Barred(t, k)
  {
    HiddenStays(s, step, t, k);
    hide Inv, Next, Hidden, NotPast;
    forall tx | tx in t.flights ensures NotPast(t.flights[tx], k) {
      BatchStaysBehind(s, step, t, k, tx);
    }
  }

  /**
   * A change is unapplied, its flag is archived, and no batch has got past it. Then in every way the run
   * can go on it stays unapplied, and no batch that claims it, with whatever else, ever commits.
   */
  lemma {:induction false} ArchivedChangeIsNeverApplied(states: seq<System>, steps: seq<Step>, k: int, i: nat, j: nat)
    requires IsRun(states, steps) && i <= j < |states| && Barred(states[i], k)
    ensures Barred(states[j], k)
    ensures j < |steps| && steps[j].BatchCommit? ==>
      steps[j].tx in states[j].flights && states[j].flights[steps[j].tx].Batching?
      && k !in states[j].flights[steps[j].tx].claimed
    decreases j
  {
    hide Inv, Next, Barred;
    if i < j {
      ArchivedChangeIsNeverApplied(states, steps, k, i, j - 1);
      RunStep(states, steps, j - 1);
      StepKeepsBarred(states[j - 1], steps[j - 1], states[j], k);
    }
    if j < |steps| && steps[j].BatchCommit? {
      RunStep(states, steps, j);
      BarredIsNotCommitted(states[j], steps[j], states[j + 1], k);
      CommitIsABatch(states[j], states[j + 1], steps[j].tx, steps[j].now);
    }
  }

  lemma {:induction false} CommitIsABatch(s: System, t: System, tx: int, now: int)
    requires Next(s, BatchCommit(tx, now), t)
    ensures tx in s.flights && s.flights[tx].Batching?
  {
    hide BumpedAll, Environments, MarkApplied;
  }

  // ----- a run in which one bad change holds back a good one -----

  const GOOD := ChangeRow(1, Disable, 0, None)
  const BAD := ChangeRow(2, Disable, 0, None)

  /** The two creations the archivings begin with, then two changes, one archiving and a claim. */
  const BLOCKED: seq<Step> := ARCHIVED[..4] + [
    ScheduleChange(1, GOOD), ScheduleChange(2, BAD), BeginArchive(1, "g"), FinishArchive(1), Claim(2, [1, 2], 0)]

  function Waiting(row: ConfigRow, revision: int, archived: set<string>): Tables {
    Both(row, revision, archived).(changes := map[1 := GOOD, 2 := BAD])
  }

  function Held(n: nat, row: ConfigRow): System {
    match n
    case 5 => System(Both(row, 2, {}).(changes := map[1 := GOOD]), map[])
    case 6 => System(Waiting(row, 2, {}), map[])
    case 7 => System(Waiting(row, 2, {}), map[1 := ARCHIVING_SECOND])
    case 8 => System(Waiting(row, 3, {"g"}), map[])
    case 9 => System(Waiting(row, 3, {"g"}), map[2 := Batching([1, 2], 0, None, map[], 0)])
    case _ => Leaving(n, row)
  }

  function Holdings(row: ConfigRow): seq<System> {
    [Held(0, row), Held(1, row), Held(2, row), Held(3, row), Held(4, row),
     Held(5, row), Held(6, row), Held(7, row), Held(8, row), Held(9, row)]
  }

  lemma {:induction false} SameBeginning()
    ensures |BLOCKED| == 9 && |ARCHIVED| == 8
    ensures BLOCKED[0] == ARCHIVED[0] && BLOCKED[1] == ARCHIVED[1]
    ensures BLOCKED[2] == ARCHIVED[2] && BLOCKED[3] == ARCHIVED[3]
  {
    assert |ARCHIVED| == 8;
    hide ARCHIVED;
  }

  lemma {:induction false} TwoAreMade(row: ConfigRow)
    requires Second() == Ok(row)
    ensures Next(Held(0, row), BLOCKED[0], Held(1, row)) && Next(Held(1, row), BLOCKED[1], Held(2, row))
    ensures Next(Held(2, row), BLOCKED[2], Held(3, row)) && Next(Held(3, row), BLOCKED[3], Held(4, row))
  {
    hide Create, Next, Leaving, ARCHIVED, BLOCKED;
    SameBeginning();
    FirstOfTwoIsMade(row);
    SecondOfTwoBegins(row);
    SecondOfTwoIsMade(row);
  }

  lemma {:induction false} ChangesAreScheduled(row: ConfigRow)
    requires Second() == Ok(row)
    ensures Next(Held(4, row), BLOCKED[4], Held(5, row)) && Next(Held(5, row), BLOCKED[5], Held(6, row))
  {
    SecondIsMade();
    assert BLOCKED[4] == ScheduleChange(1, GOOD) && BLOCKED[5] == ScheduleChange(2, BAD);
    hide Create, BLOCKED;
  }

  lemma {:induction false} ArchivingIsBegun(row: ConfigRow)
    requires Second() == Ok(row)
    ensures Next(Held(6, row), BLOCKED[6], Held(7, row))
  {
    assert BLOCKED[6] == BeginArchive(1, "g");
    hide Create, BLOCKED;
    SeenByBoth(row);
    var db, seen := Waiting(row, 2, {}), map["e" := 2];
    assert "e" in seen && SeenRevisions(db, "g") == SeenRevisions(Both(row, 2, {}), "g");
    ArchivingBegins(db, map[], 1, "g", seen);
    hide Next, SeenRevisions, Waiting;
  }

  lemma {:induction false} ArchivingIsDone(row: ConfigRow)
    ensures Next(Held(7, row), BLOCKED[7], Held(8, row))
  {
    assert BLOCKED[7] == FinishArchive(1);
    assert Others(map[1 := ARCHIVING_SECOND], 1) == map[];
    hide MADE, BLOCKED, Others;
  }

  lemma {:induction false} BothFormAClaim()
    ensures IsClaim(map[1 := GOOD, 2 := BAD], {}, [1, 2], 0)
  {
  }

  lemma {:induction false} BothAreClaimed(row: ConfigRow)
    ensures Next(Held(8, row), BLOCKED[8], Held(9, row))
  {
    assert BLOCKED[8] == Claim(2, [1, 2], 0);
    hide BLOCKED, MADE;
    assert Claimed(map[]) == {};
    BothFormAClaim();
    hide IsClaim, Both, Claimed;
  }

  lemma {:induction false} HoldingsAreARun(row: ConfigRow)
    requires Second() == Ok(row)
    ensures IsRun(Holdings(row), BLOCKED)
  {
    EmptyIsAStart();
    assert Held(0, row) == EMPTY by {
      FirstDeparture(row);
    }
    assert |BLOCKED| == 9;
    hide Inv, Next, Held, Create, BLOCKED;
    TwoAreMade(row);
    ChangesAreScheduled(row);
    ArchivingIsBegun(row);
    ArchivingIsDone(row);
    BothAreClaimed(row);
  }

  lemma {:induction false} GoodChangeAlone(row: ConfigRow)
    requires Second() == Ok(row)
    ensures var db := Held(8, row).db;
      && Applicable(db.configs, db.archived, GOOD) && !Applicable(db.configs, db.archived, BAD)
      && AllKnown(db.changes, [1]) && Feasible(db.configs, db.archived, db.changes, [1])
  {
    SecondIsMade();
    SimpleBuilds(false, 1, 1);
    hide Create, Valid, BuildRules, DictOf;
    assert Changed(Current(MADE), Disable) == Simple(false, 1, []);
  }

  lemma {:induction false} EveryPassClaimsBoth(claimed: seq<int>, now: int)
    requires IsClaim(map[1 := GOOD, 2 := BAD], {}, claimed, now) && now >= 0
    ensures 1 in claimed && 2 in claimed && AllKnown(map[1 := GOOD, 2 := BAD], claimed)
  {
    var changes := map[1 := GOOD, 2 := BAD];
    forall k | k in changes ensures Among(changes, k, now) {
      assert UpTo(changes, k) <= {1, 2};
      SubsetSize(UpTo(changes, k), {1, 2});
    }
    AmongIsClaimed(changes, 1, now, {}, claimed, now);
    AmongIsClaimed(changes, 2, now, {}, claimed, now);
  }

  lemma {:induction false} SubsetSize(a: set<int>, b: set<int>)
    requires a <= b
    ensures |a| <= |b|
  {
    assert b == a + (b - a);
  }

  lemma {:induction false} BadChangeIsBarred(row: ConfigRow)
    requires Second() == Ok(row)
    ensures Barred(Held(8, row), 2)
  {
    SecondIsMade();
    hide Create, MADE;
  }

  lemma {:induction false} EveryPassFails(row: ConfigRow, claimed: seq<int>, now: int)
    requires Second() == Ok(row) && now >= 0 && IsClaim(Held(8, row).db.changes, {}, claimed, now)
    ensures var db := Held(8, row).db;
      1 in claimed && AllKnown(db.changes, claimed) && !Feasible(db.configs, db.archived, db.changes, claimed)
  {
    GoodChangeAlone(row);
    hide Create, Applicable, MADE;
    var db := Held(8, row).db;
    EveryPassClaimsBoth(claimed, now);
    assert Conflict(db.configs, db.archived, db.changes, 2, 2);
    hide IsClaim, Feasible;
    ConflictIsInfeasible(db.configs, db.archived, db.changes, 2, 2, claimed);
  }

  lemma {:induction false} HeldRowsAreSound(row: ConfigRow)
    requires Second() == Ok(row)
    ensures forall id :: id in Held(8, row).db.configs ==> RowInvariant(Held(8, row).db.configs[id])
  {
    hide Create, IsRun, RowInvariant, RowCauses, ChangeServed, FlightOk, Exclusive, Held;
    HoldingsAreARun(row);
    RunKeepsInv(Holdings(row), BLOCKED, 8);
  }

  /**
   * Two flags, a change due for each, and one flag archived meanwhile: a run from the empty database. On
   * the tables it leaves, the good change could be applied alone, but every pass claims both, and so
   * every pass fails; the bad change stays what it is however the run goes on.
   */
  lemma {:induction false} ArchivedFlagHoldsBackOthers(row: ConfigRow)
    requires Second() == Ok(row)
    ensures IsRun(Holdings(row), BLOCKED) && Held(0, row) == EMPTY && Barred(Held(8, row), 2)
    ensures var db := Held(8, row).db;
      && (forall id :: id in db.configs ==> RowInvariant(db.configs[id]))
      && AllKnown(db.changes, [1]) && Feasible(db.configs, db.archived, db.changes, [1])
      && forall claimed, now :: now >= 0 && IsClaim(db.changes, {}, claimed, now) ==>
           && 1 in claimed && AllKnown(db.changes, claimed)
           && !Feasible(db.configs, db.archived, db.changes, claimed)
  {
    HoldingsAreARun(row);
    HeldRowsAreSound(row);
    GoodChangeAlone(row);
    BadChangeIsBarred(row);
    FirstDeparture(row);
    assert Held(0, row) == EMPTY;
    hide IsRun, RowInvariant, Create, Applicable, Barred, Feasible, IsClaim, Held;
    var db := Held(8, row).db;
    forall claimed, now | now >= 0 && IsClaim(db.changes, {}, claimed, now)
      ensures 1 in claimed && AllKnown(db.changes, claimed)
      ensures !Feasible(db.configs, db.archived, db.changes, claimed)
    {
      EveryPassFails(row, claimed, now);
    }
  }
}
