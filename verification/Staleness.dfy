/**
 * Readers and writers of one cached flag, interleaved call by call: a reader gets, loads from the
 * database and sets with a TTL; a writer commits and then deletes. Any call to Redis may fail, with
 * or without effect, and any reader or writer may disappear between two calls.
 */
module Staleness {
  import opened Prelude
  import opened Configuration
  import opened Store
  import opened Cache

  /** A committed state of the flag in the database; None once it is archived, or not there yet. */
  datatype Commit = Commit(at: int, row: Option<ConfigRow>)

  /** A reader after its database read. Its set may take effect after it has answered. */
  datatype Reader = Reader(value: Option<FlagConfiguration>, loadedAt: int, stored: bool, answered: bool)

  datatype Serving = Serving(value: Option<FlagConfiguration>, at: int)

  datatype State = State(
    now: int, history: seq<Commit>, entry: Option<Entry>, readers: map<int, Reader>, deleting: nat,
    served: seq<Serving>)

  /** The TTL, and the longest a reader takes from its database read to its set or its answer. */
  datatype Limits = Limits(ttl: int, delay: int)

  datatype Step =
    | Tick(time: nat)
    | Write(row: Option<ConfigRow>)
    | Delete(takes: bool)
    | Hit
    | Load(reader: int, value: Option<FlagConfiguration>)
    | Store(reader: int, takes: bool)
    | Answer(reader: int)
    | Vanish(reader: int)
    | Evict

  predicate Sensible(limits: Limits) {
    limits.ttl >= 1 && limits.delay >= 0
  }

  /** What a query of the flag can give: it compiles the row, in some order of its children, or finds none. */
  ghost predicate Reads(row: Option<ConfigRow>, value: Option<FlagConfiguration>) {
    match row
    case None => value == None
    case Some(r) => value.Some? && CompiledFrom(r, value.value)
  }

  function Latest(s: State): Option<ConfigRow>
    requires s.history != []
  {
    s.history[|s.history| - 1].row
  }

  predicate InTime(s: State, reader: int, limits: Limits) {
    reader in s.readers && s.now <= s.readers[reader].loadedAt + limits.delay
  }

  ghost predicate Next(limits: Limits, s: State, step: Step, t: State) {
    && s.history != []
    && match step
       case Tick(time) => t == s.(now := s.now + time)
       case Write(row) => t == s.(history := s.history + [Commit(s.now, row)], deleting := s.deleting + 1)
       case Delete(takes) =>
         s.deleting > 0 && t == s.(deleting := s.deleting - 1, entry := if takes then None else s.entry)
       case Hit =>
         && s.entry.Some? && s.now < s.entry.value.expires
         && t == s.(served := s.served + [Serving(Some(s.entry.value.config), s.now)])
       case Load(reader, value) =>
         && reader !in s.readers && Reads(Latest(s), value)
         && t == s.(readers := s.readers[reader := Reader(value, s.now, false, false)])
       case Store(reader, takes) =>
         && InTime(s, reader, limits) && !s.readers[reader].stored && s.readers[reader].value.Some?
         && t == s.(readers := s.readers[reader := s.readers[reader].(stored := true)],
                    entry := if takes then Some(Entry(s.readers[reader].value.value, s.now + limits.ttl)) else s.entry)
       case Answer(reader) =>
         && InTime(s, reader, limits) && !s.readers[reader].answered
         && t == s.(readers := s.readers[reader := s.readers[reader].(answered := true)],
                    served := s.served + [Serving(s.readers[reader].value, s.now)])
       case Vanish(reader) => t == s.(readers := s.readers - {reader})
       case Evict => t == s.(entry := None)
  }

  /** What can go wrong can go wrong at any time: an entry is lost, a reader or writer is, a call has no effect. */
  lemma {:induction false} AnythingMayFail(limits: Limits, s: State, r: int)
    requires s.history != []
    ensures Next(limits, s, Evict, s.(entry := None))
    ensures Next(limits, s, Vanish(r), s.(readers := s.readers - {r}))
    ensures s.deleting > 0 ==> Next(limits, s, Delete(false), s.(deleting := s.deleting - 1))
    ensures InTime(s, r, limits) && !s.readers[r].stored && s.readers[r].value.Some? ==>
      Next(limits, s, Store(r, false), s.(readers := s.readers[r := s.readers[r].(stored := true)]))
  {
  }

  // ----- what was live when -----

  /** The i-th commit is the one in force at the instant x, between it and the next. */
  predicate InForce(history: seq<Commit>, i: nat, x: int) {
    i < |history| && history[i].at <= x && (i + 1 < |history| ==> x <= history[i + 1].at)
  }

  ghost predicate WasLive(history: seq<Commit>, value: Option<FlagConfiguration>, x: int) {
    exists i: nat :: InForce(history, i, x) && Reads(history[i].row, value)
  }

  /** The value was live at some instant after `since`, and not later than `until`. */
  ghost predicate LiveWithin(history: seq<Commit>, value: Option<FlagConfiguration>, since: int, until: int) {
    exists x :: since < x <= until && WasLive(history, value, x)
  }

  ghost predicate Ordered(history: seq<Commit>, now: int) {
    && history != [] && history[|history| - 1].at <= now
    && forall i, j :: 0 <= i < j < |history| ==> history[i].at <= history[j].at
  }

  ghost predicate ReaderOk(s: State, reader: Reader) {
    reader.loadedAt <= s.now && WasLive(s.history, reader.value, reader.loadedAt)
  }

  ghost predicate EntryOk(limits: Limits, s: State, entry: Entry) {
    LiveWithin(s.history, Some(entry.config), entry.expires - limits.ttl - limits.delay - 1, s.now)
  }

  ghost predicate ServingOk(limits: Limits, s: State, serving: Serving) {
    serving.at <= s.now && LiveWithin(s.history, serving.value, serving.at - limits.ttl - limits.delay, serving.at)
  }

  ghost predicate Inv(limits: Limits, s: State) {
    && Sensible(limits) && Ordered(s.history, s.now)
    && (forall r :: r in s.readers ==> ReaderOk(s, s.readers[r]))
    && (s.entry.Some? ==> EntryOk(limits, s, s.entry.value))
    && forall k :: 0 <= k < |s.served| ==> ServingOk(limits, s, s.served[k])
  }

  lemma {:induction false} LatestIsLive(s: State, value: Option<FlagConfiguration>)
    requires Ordered(s.history, s.now) && Reads(Latest(s), value)
    ensures WasLive(s.history, value, s.now)
  {
    hide Reads;
    assert InForce(s.history, |s.history| - 1, s.now);
  }

  /** What was live before a commit still was, when the history goes on. */
  lemma {:induction false} LiveStays(history: seq<Commit>, c: Commit, value: Option<FlagConfiguration>, x: int)
    requires WasLive(history, value, x) && x <= c.at
    ensures WasLive(history + [c], value, x)
  {
    hide Reads;
    var i: nat :| InForce(history, i, x) && Reads(history[i].row, value);
    assert InForce(history + [c], i, x);
  }

  lemma {:induction false} LiveWithinStays(
    history: seq<Commit>, c: Commit, value: Option<FlagConfiguration>, since: int, until: int)
    requires LiveWithin(history, value, since, until) && until <= c.at
    ensures LiveWithin(history + [c], value, since, until)
  {
    var x :| since < x <= until && WasLive(history, value, x);
    LiveStays(history, c, value, x);
  }

  lemma {:induction false} WriteKeepsInv(limits: Limits, s: State, row: Option<ConfigRow>, t: State)
    requires Inv(limits, s) && Next(limits, s, Write(row), t)
    ensures Inv(limits, t)
  {
    hide WasLive, LiveWithin, Reads;
    var c := Commit(s.now, row);
    forall r | r in t.readers ensures ReaderOk(t, t.readers[r]) {
      LiveStays(s.history, c, s.readers[r].value, s.readers[r].loadedAt);
    }
    if t.entry.Some? {
      LiveWithinStays(
        s.history, c, Some(s.entry.value.config), s.entry.value.expires - limits.ttl - limits.delay - 1, s.now);
    }
    forall k | 0 <= k < |t.served| ensures ServingOk(limits, t, t.served[k]) {
      var serving := s.served[k];
      assert ServingOk(limits, s, serving);
      LiveWithinStays(s.history, c, serving.value, serving.at - limits.ttl - limits.delay, serving.at);
    }
  }

  lemma {:induction false} HitIsRecent(limits: Limits, s: State)
    requires Inv(limits, s) && s.entry.Some? && s.now < s.entry.value.expires
    ensures ServingOk(limits, s, Serving(Some(s.entry.value.config), s.now))
  {
    hide WasLive;
    var value := Some(s.entry.value.config);
    var x :| s.entry.value.expires - limits.ttl - limits.delay - 1 < x <= s.now && WasLive(s.history, value, x);
    assert s.now - limits.ttl - limits.delay < x;
  }

  lemma {:induction false} AnswerIsRecent(limits: Limits, s: State, reader: int)
    requires Inv(limits, s) && InTime(s, reader, limits)
    ensures ServingOk(limits, s, Serving(s.readers[reader].value, s.now))
  {
    hide WasLive;
    var r := s.readers[reader];
    assert ReaderOk(s, r);
    assert s.now - limits.ttl - limits.delay < r.loadedAt <= s.now;
  }

  lemma {:induction false} StoreIsRecent(limits: Limits, s: State, reader: int)
    requires Inv(limits, s) && InTime(s, reader, limits) && s.readers[reader].value.Some?
    ensures EntryOk(limits, s, Entry(s.readers[reader].value.value, s.now + limits.ttl))
  {
    hide WasLive;
    var r := s.readers[reader];
    assert ReaderOk(s, r);
    assert s.now - limits.delay - 1 < r.loadedAt <= s.now;
  }

  lemma {:induction false} LaterIsWithin(
    history: seq<Commit>, value: Option<FlagConfiguration>, since: int, until: int, later: int)
    requires LiveWithin(history, value, since, until) && until <= later
    ensures LiveWithin(history, value, since, later)
  {
    hide WasLive;
  }

  lemma {:induction false} StepKeepsInv(limits: Limits, s: State, step: Step, t: State)
    requires Inv(limits, s) && Next(limits, s, step, t)
    ensures Inv(limits, t)
  {
    hide WasLive, LiveWithin, Reads;
    match step {
      case Write(row) => WriteKeepsInv(limits, s, row, t);
      case Tick(time) =>
        if s.entry.Some? {
          LaterIsWithin(
            s.history, Some(s.entry.value.config), s.entry.value.expires - limits.ttl - limits.delay - 1, s.now, t.now);
        }
      case Hit => HitIsRecent(limits, s);
      case Load(reader, value) => LatestIsLive(s, value);
      case Store(reader, takes) => StoreIsRecent(limits, s, reader);
      case Answer(reader) => AnswerIsRecent(limits, s, reader);
      case _ =>
    }
  }

  // ----- every run -----

  /** A run from an empty cache over a database that holds one committed state. */
  ghost predicate IsRun(limits: Limits, states: seq<State>, steps: seq<Step>) {
    && Sensible(limits) && |states| == |steps| + 1
    && (exists c: Commit :: states[0] == State(c.at, [c], None, map[], 0, []))
    && forall i :: 0 <= i < |steps| ==> Next(limits, states[i], steps[i], states[i + 1])
  }

  lemma {:induction false} RunKeepsInv(limits: Limits, states: seq<State>, steps: seq<Step>, i: nat)
    requires IsRun(limits, states, steps) && i < |states|
    ensures Inv(limits, states[i])
  {
    hide Next, Reads;
    if i > 0 {
      RunKeepsInv(limits, states, steps, i - 1);
      assert Next(limits, states[i - 1], steps[i - 1], states[i - 1 + 1]);
      StepKeepsInv(limits, states[i - 1], steps[i - 1], states[i]);
    }
  }

  /** Whatever fails: every answer was live at some instant less than TTL plus delay before it was given. */
  lemma {:induction false} ServedWasLive(limits: Limits, states: seq<State>, steps: seq<Step>, i: nat, k: nat)
    requires IsRun(limits, states, steps) && i < |states| && k < |states[i].served|
    ensures var serving := states[i].served[k];
      LiveWithin(states[i].history, serving.value, serving.at - limits.ttl - limits.delay, serving.at)
  {
    hide IsRun, LiveWithin;
    RunKeepsInv(limits, states, steps, i);
    assert ServingOk(limits, states[i], states[i].served[k]);
  }

  /** Once writes have stopped for TTL plus delay, every answer is the last committed state. */
  lemma {:induction false} ReadsReachTheLastVersion(
    limits: Limits, states: seq<State>, steps: seq<Step>, i: nat, k: nat)
    requires IsRun(limits, states, steps) && i < |states| && k < |states[i].served|
    requires states[i].history != []
    requires states[i].served[k].at >= states[i].history[|states[i].history| - 1].at + limits.ttl + limits.delay
    ensures Reads(Latest(states[i]), states[i].served[k].value)
  {
    hide IsRun, Next, Reads;
    RunKeepsInv(limits, states, steps, i);
    var s, serving := states[i], states[i].served[k];
    assert ServingOk(limits, s, serving);
    var x :| serving.at - limits.ttl - limits.delay < x <= serving.at && WasLive(s.history, serving.value, x);
    var j: nat :| InForce(s.history, j, x) && Reads(s.history[j].row, serving.value);
  }

  // ----- what deleting after the commit gains -----

  /** A reader in time that has yet to answer, or to store, something the last commit does not give. */
  ghost predicate HoldsOld(limits: Limits, s: State, r: int)
    requires s.history != [] && r in s.readers
  {
    && InTime(s, r, limits) && !Reads(Latest(s), s.readers[r].value)
    && (!s.readers[r].answered || (!s.readers[r].stored && s.readers[r].value.Some?))
  }

  ghost predicate NoOldReader(limits: Limits, s: State) {
    s.history != [] && forall r :: r in s.readers ==> !HoldsOld(limits, s, r)
  }

  ghost predicate Settled(limits: Limits, s: State) {
    && NoOldReader(limits, s)
    && (s.entry.Some? && s.now < s.entry.value.expires ==> Reads(Latest(s), Some(s.entry.value.config)))
  }

  ghost predicate PathStep(limits: Limits, states: seq<State>, steps: seq<Step>, i: nat)
    requires i < |steps| && |states| == |steps| + 1
  {
    Next(limits, states[i], steps[i], states[i + 1]) && !steps[i].Write?
  }

  /** Any calls in any order, as long as nobody commits. */
  ghost predicate IsPath(limits: Limits, states: seq<State>, steps: seq<Step>) {
    |states| == |steps| + 1 && forall i: nat :: i < |steps| ==> PathStep(limits, states, steps, i)
  }

  /** Every answer given between the two is one the row gives. */
  ghost predicate AnswersFrom(s: State, t: State, row: Option<ConfigRow>) {
    |s.served| <= |t.served| && forall k :: |s.served| <= k < |t.served| ==> Reads(row, t.served[k].value)
  }

  /** Until somebody commits again, all answers are of the last commit, whatever is called or fails. */
  ghost predicate AnswersLatest(limits: Limits, s: State) {
    s.history != [] &&
    forall states, steps :: IsPath(limits, states, steps) && states[0] == s ==>
      AnswersFrom(s, states[|steps|], Latest(s))
  }

  lemma {:induction false} SettledStep(limits: Limits, s: State, step: Step, t: State)
    requires Sensible(limits) && Settled(limits, s) && Next(limits, s, step, t) && !step.Write?
    ensures Settled(limits, t) && t.history == s.history && AnswersFrom(s, t, Latest(s))
    ensures t.served[..|s.served|] == s.served
  {
    hide Reads;
  }

  lemma {:induction false} SettledPath(limits: Limits, states: seq<State>, steps: seq<Step>, n: nat)
    requires Sensible(limits) && IsPath(limits, states, steps) && Settled(limits, states[0]) && n <= |steps|
    ensures Settled(limits, states[n]) && states[n].history == states[0].history
    ensures AnswersFrom(states[0], states[n], Latest(states[0]))
  {
    if n > 0 {
      SettledPath(limits, states, steps, n - 1);
      assert PathStep(limits, states, steps, n - 1);
      hide Next, Settled;
      SettledStep(limits, states[n - 1], steps[n - 1], states[n]);
      assert forall k :: 0 <= k < |states[n - 1].served| ==> states[n].served[k] == states[n - 1].served[k];
    }
  }

  /** An overdue answer or a stale entry can be seen at once. */
  lemma {:induction false} UnsettledShows(limits: Limits, s: State) returns (states: seq<State>, steps: seq<Step>)
    requires Sensible(limits) && s.history != [] && !Settled(limits, s)
    ensures IsPath(limits, states, steps) && states[0] == s && !AnswersFrom(s, states[|steps|], Latest(s))
  {
    hide Reads;
    if s.entry.Some? && s.now < s.entry.value.expires && !Reads(Latest(s), Some(s.entry.value.config)) {
      var t := s.(served := s.served + [Serving(Some(s.entry.value.config), s.now)]);
      states, steps := [s, t], [Hit];
      assert t.served[|s.served|].value == Some(s.entry.value.config);
    } else {
      var r :| r in s.readers && HoldsOld(limits, s, r);
      var held := s.readers[r];
      if !held.answered {
        var t := s.(
          readers := s.readers[r := held.(answered := true)],
          served := s.served + [Serving(held.value, s.now)]);
        states, steps := [s, t], [Answer(r)];
        assert t.served[|s.served|].value == held.value;
      } else {
        var mid := s.(
          readers := s.readers[r := held.(stored := true)],
          entry := Some(Entry(held.value.value, s.now + limits.ttl)));
        var t := mid.(served := mid.served + [Serving(Some(held.value.value), mid.now)]);
        states, steps := [s, mid, t], [Store(r, true), Hit];
        assert t.served[|s.served|].value == held.value;
      }
    }
  }

  /** All answers are of the last commit until the next one, if and only if nothing older is cached or on its way. */
  lemma {:induction false} SettledExactly(limits: Limits, s: State)
    requires Sensible(limits) && s.history != []
    ensures Settled(limits, s) <==> AnswersLatest(limits, s)
  {
    hide Reads, PathStep;
    if Settled(limits, s) {
      hide Settled, AnswersFrom;
      forall states, steps | IsPath(limits, states, steps) && states[0] == s
        ensures AnswersFrom(s, states[|steps|], Latest(s))
      {
        SettledPath(limits, states, steps, |steps|);
      }
    } else {
      hide Settled, AnswersFrom;
      var states, steps := UnsettledShows(limits, s);
    }
  }

  /**
   * A delete that takes effect after the commit makes all answers current until the next commit, if
   * and only if no reader in time still holds something older.
   */
  lemma {:induction false} DeleteSettles(limits: Limits, s: State, t: State)
    requires Sensible(limits) && Next(limits, s, Delete(true), t)
    ensures AnswersLatest(limits, t) <==> NoOldReader(limits, s)
  {
    hide Reads, AnswersLatest;
    SettledExactly(limits, t);
    assert forall r :: r in s.readers ==> (HoldsOld(limits, s, r) <==> HoldsOld(limits, t, r));
    hide HoldsOld;
  }

  // ----- the TTL alone is no bound -----

  function Moment(limits: Limits, before: ConfigRow, seen: FlagConfiguration, after: Option<ConfigRow>, n: nat): State {
    var first, second := Commit(0, Some(before)), Commit(0, after);
    var late := Entry(seen, limits.delay + limits.ttl);
    var reader := Reader(Some(seen), 0, false, false);
    var end := limits.delay + limits.ttl - 1;
    match n
    case 0 => State(0, [first], None, map[], 0, [])
    case 1 => State(0, [first], None, map[0 := reader], 0, [])
    case 2 => State(0, [first, second], None, map[0 := reader], 1, [])
    case 3 => State(0, [first, second], None, map[0 := reader], 0, [])
    case 4 => State(limits.delay, [first, second], None, map[0 := reader], 0, [])
    case 5 => State(limits.delay, [first, second], Some(late), map[0 := reader.(stored := true)], 0, [])
    case 6 => State(end, [first, second], Some(late), map[0 := reader.(stored := true)], 0, [])
    case _ =>
      State(end, [first, second], Some(late), map[0 := reader.(stored := true)], 0, [Serving(Some(seen), end)])
  }

  function SlowReader(limits: Limits, seen: FlagConfiguration, after: Option<ConfigRow>): seq<Step>
    requires Sensible(limits)
  {
    [Load(0, Some(seen)), Write(after), Delete(true), Tick(limits.delay), Store(0, true), Tick(limits.ttl - 1), Hit]
  }

  function SlowMoments(
    limits: Limits, before: ConfigRow, seen: FlagConfiguration, after: Option<ConfigRow>): seq<State>
  {
    seq(8, n requires 0 <= n => Moment(limits, before, seen, after, n))
  }

  lemma {:induction false} SlowSteps(
    limits: Limits, before: ConfigRow, seen: FlagConfiguration, after: Option<ConfigRow>)
    requires Sensible(limits) && Reads(Some(before), Some(seen))
    ensures forall i :: 0 <= i < 7 ==> Next(
      limits, SlowMoments(limits, before, seen, after)[i], SlowReader(limits, seen, after)[i],
      SlowMoments(limits, before, seen, after)[i + 1])
  {
    hide Reads;
  }

  /**
   * A reader that loads just before a commit and stores after the delete: nothing fails, the writer
   * deletes at once, and the old state is still served delay + TTL - 1 later. The bound of
   * ServedWasLive is met exactly, and the TTL alone is not one.
   */
  lemma {:induction false} SlowReaderServesOld(
    limits: Limits, before: ConfigRow, seen: FlagConfiguration, after: Option<ConfigRow>)
    requires Sensible(limits) && Reads(Some(before), Some(seen)) && !Reads(after, Some(seen))
    ensures IsRun(limits, SlowMoments(limits, before, seen, after), SlowReader(limits, seen, after))
    ensures var s := Moment(limits, before, seen, after, 7);
      && s.served == [Serving(Some(seen), limits.delay + limits.ttl - 1)]
      && !LiveWithin(s.history, Some(seen), 0, s.now)
      && (limits.delay >= 1 ==> !LiveWithin(s.history, Some(seen), s.now - limits.ttl, s.now))
  {
    hide Reads;
    var states, steps := SlowMoments(limits, before, seen, after), SlowReader(limits, seen, after);
    SlowSteps(limits, before, seen, after);
    assert states[0] == State(0, [Commit(0, Some(before))], None, map[], 0, []);
    hide Next, SlowReader;
    assert IsRun(limits, states, steps);
    var s := Moment(limits, before, seen, after, 7);
    forall x | 0 < x <= s.now ensures !WasLive(s.history, Some(seen), x) {
    }
  }
}
