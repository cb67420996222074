/** Columns that stay in order in every run: flag keys in a project, and instants of scheduled changes. */
module Timing {
  import opened Prelude
  import opened Rows
  import opened Payloads
  import opened Schedule
  import opened Store
  import opened Service
  import opened Scheduler
  import opened Protocol
  import opened Safety
  import opened Runs
  import opened Export

  // ----- flag keys -----

  ghost predicate OneKeyEach(configs: map<int, ConfigRow>) {
    forall a, b :: a in configs && b in configs && SameKey(configs[a], configs[b]) ==> a == b
  }

  predicate SameKey(a: ConfigRow, b: ConfigRow) {
    a.identity.projectId == b.identity.projectId && a.identity.flagKey == b.identity.flagKey
  }

  lemma {:induction false} StepKeepsKeys(s: System, step: Step, t: System)
    requires Inv(s) && Next(s, step, t) && OneKeyEach(s.db.configs)
    ensures OneKeyEach(t.db.configs)
  {
    StepKeepsInv(s, step, t);
    forall id | id in s.db.configs
      ensures id in t.db.configs && t.db.configs[id].identity == s.db.configs[id].identity
    {
      hide Inv, Next;
      assert RowGrows(s.db.configs[id], t.db.configs[id]);
    }
    forall id | id in t.db.configs && id !in s.db.configs
      ensures step.FinishCreate? && id == step.configId
      ensures forall k :: k in s.db.configs ==> !SameKey(s.db.configs[k], t.db.configs[id])
    {
      NewKeyIsFree(s, step, t, id);
    }
  }

  lemma {:induction false} NewKeyIsFree(s: System, step: Step, t: System, id: int)
    requires Inv(s) && Next(s, step, t) && id in t.db.configs && id !in s.db.configs
    ensures step.FinishCreate? && id == step.configId
    ensures forall k :: k in s.db.configs ==> !SameKey(s.db.configs[k], t.db.configs[id])
  {
    NewRowsAreCreated(s, step, t, id);
    hide Inv, Create, EnvironmentsOf;
    var f := s.flights[step.tx];
    CreateKeepsIdentity(f.identity, f.payload);
    assert !KeyTaken(s.db.configs, f.identity);
  }

  /** In every state of every run from the empty database a project has each flag key once. */
  lemma {:induction false} KeysStayUnique(states: seq<System>, steps: seq<Step>, i: nat, a: int, b: int)
    requires IsRun(states, steps) && states[0] == EMPTY && i < |states|
    requires a in states[i].db.configs && b in states[i].db.configs
    requires states[i].db.configs[a].identity.projectId == states[i].db.configs[b].identity.projectId
    requires states[i].db.configs[a].identity.flagKey == states[i].db.configs[b].identity.flagKey
    ensures a == b
  {
    hide Inv, Next;
    RunKeepsKeys(states, steps, i);
  }

  lemma {:induction false} RunKeepsKeys(states: seq<System>, steps: seq<Step>, i: nat)
    requires IsRun(states, steps) && states[0] == EMPTY && i < |states|
    ensures OneKeyEach(states[i].db.configs)
  {
    hide Inv, Next;
    if i > 0 {
      RunKeepsKeys(states, steps, i - 1);
      RunStep(states, steps, i - 1);
      hide OneKeyEach;
      StepKeepsKeys(states[i - 1], steps[i - 1], states[i]);
    }
  }

  // ----- instants -----

  /** What a batch holds was due when it was claimed. */
  ghost predicate ClaimedDue(changes: map<int, ChangeRow>, f: Flight) {
    f.Batching? ==> forall k :: k in f.claimed ==> k in changes && changes[k].activateAt <= f.claimedAt
  }

  ghost predicate ClaimsAreDue(s: System) {
    forall tx :: tx in s.flights ==> ClaimedDue(s.db.changes, s.flights[tx])
  }

  /** No change was applied before its instant. */
  ghost predicate OnTime(changes: map<int, ChangeRow>) {
    forall k :: k in changes && changes[k].appliedAt.Some? ==> changes[k].activateAt <= changes[k].appliedAt.value
  }

  /** A batch does not commit at an instant before that of its claim. */
  ghost predicate Prompt(s: System, step: Step) {
    step.BatchCommit? && step.tx in s.flights && s.flights[step.tx].Batching? ==>
      s.flights[step.tx].claimedAt <= step.now
  }

  lemma {:induction false} StepKeepsRows(s: System, step: Step, t: System, k: int)
    requires Inv(s) && Next(s, step, t) && k in s.db.changes
    ensures k in t.db.changes && t.db.changes[k].activateAt == s.db.changes[k].activateAt
  {
    hide Inv, Next, IsNext;
    AppliedByItsCommit(s, step, t, k);
  }

  /** A batch that was in flight keeps its claim; a new one has just claimed. */
  lemma {:induction false} FlightsKeepClaims(s: System, step: Step, t: System, tx: int)
    requires Next(s, step, t) && tx in t.flights && t.flights[tx].Batching?
    ensures || (tx in s.flights && s.flights[tx].Batching? && s.flights[tx].claimed == t.flights[tx].claimed
                && s.flights[tx].claimedAt == t.flights[tx].claimedAt)
            || (step.Claim? && t.flights[tx].claimed == step.claimed && t.flights[tx].claimedAt == step.now)
  {
    hide IsReading, Compile, SchemaUpdate, Copies, CopiesWithRule, IsClaim, Update, Applied, SchemaRule, Locked, Create,
      KeyTaken, EnvironmentsOf, BumpedAll, Environments, MarkApplied;
  }

  lemma {:induction false} NewClaimIsDue(s: System, step: Step, t: System)
    requires Next(s, step, t) && step.Claim?
    ensures t.db == s.db
    ensures forall k :: k in step.claimed ==> k in s.db.changes && s.db.changes[k].activateAt <= step.now
  {
    ClaimExactly(s.db.changes, Claimed(s.flights), step.claimed, step.now);
    hide IsClaim;
    forall k | k in step.claimed ensures Claimable(s.db.changes, Claimed(s.flights), step.now, k) {
      var i :| 0 <= i < |step.claimed| && step.claimed[i] == k;
    }
  }

  lemma {:induction false} StepKeepsClaimsDue(s: System, step: Step, t: System)
    requires Inv(s) && Next(s, step, t) && ClaimsAreDue(s)
    ensures ClaimsAreDue(t)
  {
    hide Inv, Next;
    forall tx | tx in t.flights && t.flights[tx].Batching? ensures ClaimedDue(t.db.changes, t.flights[tx]) {
      FlightsKeepClaims(s, step, t, tx);
      if step.Claim? {
        NewClaimIsDue(s, step, t);
      }
      forall k | k in t.flights[tx].claimed
        ensures k in t.db.changes && t.db.changes[k].activateAt <= t.flights[tx].claimedAt
      {
        if tx in s.flights {
          assert ClaimedDue(s.db.changes, s.flights[tx]);
        }
        StepKeepsRows(s, step, t, k);
      }
    }
  }

  lemma {:induction false} NewChangesAreUnapplied(s: System, step: Step, t: System, k: int)
    requires Inv(s) && Next(s, step, t) && k in t.db.changes && k !in s.db.changes
    ensures t.db.changes[k].appliedAt == None
  {
    if !Writes(step) {
      OtherStepsLeaveTheDatabase(s, step, t);
    } else {
      hide Inv, Update, Locked, Create, KeyTaken, EnvironmentsOf, BumpedAll, Environments;
    }
  }

  lemma {:induction false} StepKeepsTime(s: System, step: Step, t: System)
    requires Inv(s) && Next(s, step, t) && ClaimsAreDue(s) && OnTime(s.db.changes) && Prompt(s, step)
    ensures OnTime(t.db.changes)
  {
    hide Inv, Next, IsNext;
    forall k | k in t.db.changes && t.db.changes[k].appliedAt.Some?
      ensures t.db.changes[k].activateAt <= t.db.changes[k].appliedAt.value
    {
      if k !in s.db.changes {
        NewChangesAreUnapplied(s, step, t, k);
      } else {
        AppliedByItsCommit(s, step, t, k);
        if t.db.changes[k] != s.db.changes[k] {
          BatchOfCommit(s, step, t);
          assert ClaimedDue(s.db.changes, s.flights[step.tx]);
        }
      }
    }
  }

  lemma {:induction false} BatchOfCommit(s: System, step: Step, t: System)
    requires Next(s, step, t) && step.BatchCommit?
    ensures step.tx in s.flights && s.flights[step.tx].Batching?
  {
    hide BumpedAll, Environments, MarkApplied;
  }

  /**
   * In every run from the empty database in which no batch commits at an instant before that of its
   * claim: what is applied was applied at its instant or later, and what is claimed has come due.
   */
  lemma {:induction false} NothingIsEarly(states: seq<System>, steps: seq<Step>, i: nat)
    requires IsRun(states, steps) && states[0] == EMPTY && i < |states|
    requires forall j :: 0 <= j < i ==> Prompt(states[j], steps[j])
    ensures OnTime(states[i].db.changes) && ClaimsAreDue(states[i])
  {
    hide Inv, Next;
    if i > 0 {
      NothingIsEarly(states, steps, i - 1);
      RunStep(states, steps, i - 1);
      assert Prompt(states[i - 1], steps[i - 1]);
      hide OnTime, ClaimsAreDue, Prompt;
      StepKeepsTime(states[i - 1], steps[i - 1], states[i]);
      StepKeepsClaimsDue(states[i - 1], steps[i - 1], states[i]);
    }
  }
}
