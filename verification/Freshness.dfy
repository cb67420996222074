/**
 * Writers and cached readers of one flag as one machine: the steps of the write protocol are what
 * commits to the cache's database, and what readers are served answers like a recent version.
 */
module Freshness {
  import opened Prelude
  import opened Configuration
  import opened Engine
  import opened Rows
  import opened Orders
  import opened Store
  import opened Protocol
  import opened Safety
  import S = Staleness

  /** The row a read of the flag finds: none once the flag is archived. */
  function LiveRow(db: Tables, id: int): Option<ConfigRow> {
    if id in db.configs && db.configs[id].identity.flagId !in db.archived then Some(db.configs[id]) else None
  }

  datatype Joint = Joint(system: System, cache: S.State)

  /** A step of some writer, or a call by a reader, by a writer that has committed, or by the clock. */
  datatype Move = Commits(step: Step) | Calls(call: S.Step)

  /** A writer's step reaches the cache's side if it changes what a read finds; the writer then owes a delete. */
  ghost predicate Follows(limits: S.Limits, id: int, s: Joint, move: Move, t: Joint) {
    match move
    case Calls(call) => t.system == s.system && !call.Write? && S.Next(limits, s.cache, call, t.cache)
    case Commits(step) =>
      && Next(s.system, step, t.system)
      && var row := LiveRow(t.system.db, id);
         if row == LiveRow(s.system.db, id) then t.cache == s.cache else S.Next(limits, s.cache, S.Write(row), t.cache)
  }

  ghost predicate Starts(id: int, s: Joint) {
    Inv(s.system) && s.cache
      == S.State(s.cache.now, [S.Commit(s.cache.now, LiveRow(s.system.db, id))], None, map[], 0, [])
  }

  /** A run of both from any sound database and an empty cache. */
  ghost predicate IsJointRun(limits: S.Limits, id: int, states: seq<Joint>, moves: seq<Move>) {
    && S.Sensible(limits) && |states| == |moves| + 1 && Starts(id, states[0])
    && forall i :: 0 <= i < |moves| ==> Follows(limits, id, states[i], moves[i], states[i + 1])
  }

  ghost predicate JointInv(limits: S.Limits, id: int, s: Joint) {
    && Inv(s.system) && S.Inv(limits, s.cache)
    && s.cache.history != [] && S.Latest(s.cache) == LiveRow(s.system.db, id)
  }

  lemma {:induction false} StartIsSound(limits: S.Limits, id: int, s: Joint)
    requires S.Sensible(limits) && Starts(id, s)
    ensures JointInv(limits, id, s)
  {
    hide Inv, LiveRow;
  }

  lemma {:induction false} MoveKeepsInv(limits: S.Limits, id: int, s: Joint, move: Move, t: Joint)
    requires JointInv(limits, id, s) && Follows(limits, id, s, move, t)
    ensures JointInv(limits, id, t) && s.cache.now <= t.cache.now
  {
    hide Inv, Next, LiveRow, S.Inv, S.Reads;
    match move {
      case Calls(call) => S.StepKeepsInv(limits, s.cache, call, t.cache);
      case Commits(step) =>
        StepKeepsInv(s.system, step, t.system);
        var row := LiveRow(t.system.db, id);
        if row != LiveRow(s.system.db, id) {
          S.StepKeepsInv(limits, s.cache, S.Write(row), t.cache);
        }
    }
  }

  lemma {:induction false} RunIsSound(limits: S.Limits, id: int, states: seq<Joint>, moves: seq<Move>, i: nat)
    requires IsJointRun(limits, id, states, moves) && i < |states|
    ensures JointInv(limits, id, states[i])
  {
    hide JointInv, Follows;
    if i == 0 {
      StartIsSound(limits, id, states[0]);
    } else {
      RunIsSound(limits, id, states, moves, i - 1);
      assert Follows(limits, id, states[i - 1], moves[i - 1], states[i - 1 + 1]);
      MoveKeepsInv(limits, id, states[i - 1], moves[i - 1], states[i]);
    }
  }

  // ----- the cache's history is the protocol's -----

  /** The n-th state of the run was the one in force at the instant x, seen from the i-th. */
  ghost predicate StateAt(states: seq<Joint>, i: nat, n: nat, x: int) {
    && n <= i < |states| && states[n].cache.now <= x
    && (if n < i then x <= states[n + 1].cache.now else x == states[n].cache.now)
  }

  ghost predicate Recorded(states: seq<Joint>, id: int, i: nat, row: Option<ConfigRow>, x: int) {
    exists n: nat :: StateAt(states, i, n, x) && LiveRow(states[n].system.db, id) == row
  }

  lemma {:induction false} RecordedStays(states: seq<Joint>, id: int, i: nat, row: Option<ConfigRow>, x: int)
    requires i + 1 < |states| && states[i].cache.now <= states[i + 1].cache.now && Recorded(states, id, i, row, x)
    ensures Recorded(states, id, i + 1, row, x)
  {
    hide LiveRow;
    var n: nat :| StateAt(states, i, n, x) && LiveRow(states[n].system.db, id) == row;
    assert StateAt(states, i + 1, n, x);
  }

  /** Which commits one move adds, and that what was in force before it still is. */
  lemma {:induction false} HistoryMoves(limits: S.Limits, id: int, s: Joint, move: Move, t: Joint, m: nat, x: int)
    requires JointInv(limits, id, s) && Follows(limits, id, s, move, t)
    requires S.InForce(t.cache.history, m, x) && x <= t.cache.now
    ensures || (x <= s.cache.now && S.InForce(s.cache.history, m, x) && s.cache.history[m] == t.cache.history[m])
            || (s.cache.now < x && t.cache.history[m].row == LiveRow(s.system.db, id))
            || (x == t.cache.now && t.cache.history[m].row == LiveRow(t.system.db, id))
  {
    hide Inv, Next, LiveRow, S.Reads;
    if m + 1 < |s.cache.history| {
      assert s.cache.history[m + 1].at <= s.cache.history[|s.cache.history| - 1].at;
    }
  }

  /** At every moment of a run the cache's history says truly which row the protocol had live at which instant. */
  lemma {:induction false} HistoryIsTrue(
    limits: S.Limits, id: int, states: seq<Joint>, moves: seq<Move>, i: nat, m: nat, x: int)
    requires IsJointRun(limits, id, states, moves) && i < |states|
    requires S.InForce(states[i].cache.history, m, x) && x <= states[i].cache.now
    ensures Recorded(states, id, i, states[i].cache.history[m].row, x)
  {
    hide Follows, JointInv, LiveRow;
    var row := states[i].cache.history[m].row;
    if i == 0 {
      assert StateAt(states, 0, 0, x) && LiveRow(states[0].system.db, id) == row;
    } else {
      RunIsSound(limits, id, states, moves, i - 1);
      assert Follows(limits, id, states[i - 1], moves[i - 1], states[i - 1 + 1]);
      MoveKeepsInv(limits, id, states[i - 1], moves[i - 1], states[i]);
      HistoryMoves(limits, id, states[i - 1], moves[i - 1], states[i], m, x);
      if x <= states[i - 1].cache.now && S.InForce(states[i - 1].cache.history, m, x)
        && states[i - 1].cache.history[m] == states[i].cache.history[m] {
        HistoryIsTrue(limits, id, states, moves, i - 1, m, x);
        RecordedStays(states, id, i - 1, row, x);
      } else if states[i - 1].cache.now < x && row == LiveRow(states[i - 1].system.db, id) {
        assert StateAt(states, i, i - 1, x);
      } else {
        assert StateAt(states, i, i, x);
      }
    }
  }

  // ----- what is served -----

  /** The answer evaluates like the snapshot that was current in this state, or says that there was no such flag. */
  ghost predicate AnswersLike(
    db: Tables, id: int, value: Option<FlagConfiguration>, rt: Runtime, ctx: Context, now: int)
  {
    if id !in db.configs || db.configs[id].identity.flagId in db.archived then value == None
    else
      var row := db.configs[id];
      && value.Some? && row.currentVersion in row.history
      && (OrderPlaysNoPart(rt.lib, Current(row), ctx.attributes) ==>
            Evaluate(rt, value.value, ctx, now) == Evaluate(rt, Current(row), ctx, now))
  }

  lemma {:induction false} ReadingsAnswerLike(
    db: Tables, id: int, value: Option<FlagConfiguration>, rt: Runtime, ctx: Context, now: int)
    requires TablesOk(db) && S.Reads(LiveRow(db, id), value)
    ensures AnswersLike(db, id, value, rt, ctx, now)
  {
    hide RowInvariant, RowCauses, ChangeServed, IsReading, Compile, Evaluate, OrderPlaysNoPart;
    if id in db.configs && db.configs[id].identity.flagId !in db.archived {
      var row := db.configs[id];
      var l :| IsReading(row, l) && Compile(l) == value.value;
      RowIsSound(row);
      if OrderPlaysNoPart(rt.lib, Current(row), ctx.attributes) {
        LiveRowsEvaluateAsSnapshot(rt, row, l, ctx, now);
      }
    }
  }

  /**
   * Any number of writers, workers and cached readers, whatever fails: every answer evaluates like the
   * snapshot that was current at some instant less than TTL plus delay before it was given.
   */
  lemma {:induction false} ServedLikeARecentVersion(
    limits: S.Limits, id: int, states: seq<Joint>, moves: seq<Move>, i: nat, k: nat,
    rt: Runtime, ctx: Context, now: int)
    returns (n: nat, x: int)
    requires IsJointRun(limits, id, states, moves) && i < |states| && k < |states[i].cache.served|
    ensures var serving := states[i].cache.served[k];
      && serving.at - limits.ttl - limits.delay < x <= serving.at && StateAt(states, i, n, x)
      && AnswersLike(states[n].system.db, id, serving.value, rt, ctx, now)
  {
    RunIsSound(limits, id, states, moves, i);
    var serving := states[i].cache.served[k];
    assert S.ServingOk(limits, states[i].cache, serving);
    hide IsJointRun, S.Reads, AnswersLike, LiveRow, JointInv;
    x :| serving.at - limits.ttl - limits.delay < x <= serving.at
      && S.WasLive(states[i].cache.history, serving.value, x);
    var m: nat :| S.InForce(states[i].cache.history, m, x) && S.Reads(states[i].cache.history[m].row, serving.value);
    HistoryIsTrue(limits, id, states, moves, i, m, x);
    n :| StateAt(states, i, n, x) && LiveRow(states[n].system.db, id) == states[i].cache.history[m].row;
    RunIsSound(limits, id, states, moves, n);
    assert TablesOk(states[n].system.db) by {
      SoundTables(limits, id, states[n]);
    }
    ReadingsAnswerLike(states[n].system.db, id, serving.value, rt, ctx, now);
  }

  lemma {:induction false} SoundTables(limits: S.Limits, id: int, s: Joint)
    requires JointInv(limits, id, s)
    ensures TablesOk(s.system.db)
  {
    hide TablesOk, S.Inv, LiveRow;
  }
}
