/**
 * When an ETag lies: exactly after a disturbed creation or archiving, since later writes then bring
 * the revision back to a number that stood for something else.
 */
module Etags {
  import opened Prelude
  import opened Configuration
  import opened Payloads
  import opened Store
  import opened Service
  import opened Protocol
  import opened Safety
  import opened Runs
  import opened Outcomes
  import opened Export

  // ----- names nobody has used -----

  lemma {:induction false} Above(s: set<int>) returns (n: int)
    ensures forall x :: x in s ==> x < n
    decreases |s|
  {
    n := 0;
    if s != {} {
      var x := Member(s);
      var rest := Above(s - {x});
      n := if x < rest then rest else x + 1;
      assert forall y :: y in s ==> y == x || y in s - {x};
    }
  }

  lemma {:induction false} Longer(s: set<string>) returns (n: nat)
    ensures forall x :: x in s ==> |x| < n
    decreases |s|
  {
    n := 0;
    if s != {} {
      var x := Member(s);
      var rest := Longer(s - {x});
      n := if |x| < rest then rest else |x| + 1;
      assert forall y :: y in s ==> y == x || y in s - {x};
    }
  }

  lemma {:induction false} UnusedText(s: set<string>) returns (text: string)
    ensures text !in s
  {
    var n := Longer(s);
    text := seq(n, _ => 'a');
  }

  // ----- one more flag, whoever else is in flight -----

  /** From t to u only new flags appeared: flights, archivings and all rows are as they were. */
  ghost predicate OnlyNewFlags(t: System, u: System) {
    && u.flights == t.flights && u.db.archived == t.db.archived && u.db.changes == t.db.changes
    && forall id :: id in t.db.configs ==> id in u.db.configs && u.db.configs[id] == t.db.configs[id]
  }

  function Newcomer(e: string, flagId: string, flagKey: string): Identity {
    SWITCH.(environmentId := e, flagId := flagId, flagKey := flagKey)
  }

  lemma {:induction false} NewcomerIsMade(e: string, flagId: string, flagKey: string)
    ensures Create(Newcomer(e, flagId, flagKey), FIRST).Ok? && SchemaUpdate(FIRST)
    ensures Create(Newcomer(e, flagId, flagKey), FIRST).value.identity == Newcomer(e, flagId, flagKey)
  {
    var id := Newcomer(e, flagId, flagKey);
    hide Build, Acceptable;
    PayloadsFit();
    TheThreeWrites();
    BuildExactly(SWITCH, FIRST, 1);
    BuildExactly(id, FIRST, 1);
    SameTypeSameAnswer(SWITCH, id, FIRST);
  }

  lemma {:induction false} SameTypeSameAnswer(id: Identity, other: Identity, p: FlagUpdate)
    requires id.flagType == other.flagType
    ensures Acceptable(id, p) == Acceptable(other, p)
  {
  }

  /** Ids, flag and key that no row, change, archiving or transaction uses. */
  ghost predicate Unused(t: System, tx: int, configId: int, id: Identity) {
    && tx !in t.flights && configId !in t.db.configs
    && (forall k :: k in t.db.changes ==> t.db.changes[k].configId != configId)
    && EnvironmentsOf(t.db.configs, id.flagId) == {} && id.flagId !in t.db.archived
    && !KeyTaken(t.db.configs, id)
  }

  lemma {:induction false} UnusedNumbers(t: System) returns (tx: int, configId: int)
    ensures tx !in t.flights && configId !in t.db.configs
    ensures forall k :: k in t.db.changes ==> t.db.changes[k].configId != configId
  {
    tx := Above(t.flights.Keys);
    var targets := set k | k in t.db.changes :: t.db.changes[k].configId;
    configId := Above(t.db.configs.Keys + targets);
    assert tx !in t.flights.Keys && configId !in t.db.configs.Keys;
    forall k | k in t.db.changes ensures t.db.changes[k].configId in targets {
    }
  }

  lemma {:induction false} UnusedFlag(
    configs: map<int, ConfigRow>, archived: set<string>, e: string) returns (id: Identity)
    ensures EnvironmentsOf(configs, id.flagId) == {} && id.flagId !in archived && !KeyTaken(configs, id)
    ensures id == Newcomer(e, id.flagId, id.flagKey)
  {
    var flagIds := set k | k in configs :: configs[k].identity.flagId;
    var flagKeys := set k | k in configs :: configs[k].identity.flagKey;
    var flagId := UnusedText(archived + flagIds);
    var flagKey := UnusedText(flagKeys);
    id := Newcomer(e, flagId, flagKey);
    forall k | k in configs
      ensures configs[k].identity.flagId in flagIds && configs[k].identity.flagKey in flagKeys
    {
    }
  }

  lemma {:induction false} SomethingUnused(t: System, e: string) returns (tx: int, configId: int, id: Identity)
    ensures Unused(t, tx, configId, id) && id.environmentId == e && Create(id, FIRST).Ok? && SchemaUpdate(FIRST)
    ensures Create(id, FIRST).value.identity == id
  {
    hide Create, SchemaUpdate, KeyTaken, EnvironmentsOf;
    tx, configId := UnusedNumbers(t);
    id := UnusedFlag(t.db.configs, t.db.archived, e);
    NewcomerIsMade(e, id.flagId, id.flagKey);
  }

  /** Whoever is in flight, a flag can be added to any environment, and raises its revision by one. */
  lemma {:induction false} OneMoreFlag(
    t: System, e: string) returns (mid: System, u: System, first: Step, second: Step, id: int)
    ensures Next(t, first, mid) && Undisturbed(t, first) && Next(mid, second, u) && Undisturbed(mid, second)
    ensures OnlyNewFlags(t, u) && id !in t.db.configs && Shown(u.db.configs, u.db.archived, e, id)
    ensures Revision(u.db.revisions, e) == Revision(t.db.revisions, e) + 1
  {
    var tx, configId, who := SomethingUnused(t, e);
    hide Create, SchemaUpdate;
    id := configId;
    var f := Creating(who, FIRST, Revision(t.db.revisions, e));
    first, second := BeginCreate(tx, who, FIRST), FinishCreate(tx, configId);
    mid := System(t.db, t.flights[tx := f]);
    assert Others(mid.flights, tx) == t.flights;
    u := System(t.db.(
      configs := t.db.configs[configId := Create(who, FIRST).value],
      revisions := t.db.revisions[e := f.seen + 1]), t.flights);
    hide KeyTaken, EnvironmentsOf;
    assert Next(t, first, mid);
    assert NextFinishCreate(mid, u, tx, configId);
  }

  // ----- what a disturbed write leads to -----

  ghost predicate PathStep(states: seq<System>, steps: seq<Step>, i: nat)
    requires i < |steps| && |states| == |steps| + 1
  {
    Next(states[i], steps[i], states[i + 1]) && Undisturbed(states[i], steps[i])
  }

  /** Undisturbed steps one after the other. */
  ghost predicate IsPath(states: seq<System>, steps: seq<Step>) {
    |states| == |steps| + 1 && forall i: nat :: i < |steps| ==> PathStep(states, steps, i)
  }

  ghost predicate ShowsNew(t: System, u: System, e: string) {
    exists id :: id !in t.db.configs && Shown(u.db.configs, u.db.archived, e, id)
  }

  lemma {:induction false} PathGrows(
    states: seq<System>, steps: seq<Step>, mid: System, u: System, first: Step, second: Step)
    requires IsPath(states, steps)
    requires Next(states[|steps|], first, mid) && Undisturbed(states[|steps|], first)
    requires Next(mid, second, u) && Undisturbed(mid, second)
    ensures IsPath(states + [mid, u], steps + [first, second])
  {
    hide Next, Undisturbed;
    var longer, more := states + [mid, u], steps + [first, second];
    forall i: nat | i < |more| ensures PathStep(longer, more, i) {
      if i < |steps| {
        assert PathStep(states, steps, i);
      }
    }
  }

  lemma {:induction false} MoreFlags(t: System, e: string, n: nat) returns (states: seq<System>, steps: seq<Step>)
    ensures IsPath(states, steps) && states[0] == t && OnlyNewFlags(t, states[|steps|])
    ensures Revision(states[|steps|].db.revisions, e) == Revision(t.db.revisions, e) + n
    ensures n > 0 ==> ShowsNew(t, states[|steps|], e)
  {
    hide Next, Undisturbed;
    states, steps := [t], [];
    if n > 0 {
      states, steps := MoreFlags(t, e, n - 1);
      var mid, u, first, second, id := OneMoreFlag(states[|steps|], e);
      PathGrows(states, steps, mid, u, first, second);
      assert id !in t.db.configs;
      states, steps := states + [mid, u], steps + [first, second];
    }
  }

  /** A way on from t, without another disturbed write, to a moment with s's revision but not its bundle. */
  ghost predicate Misleads(s: System, t: System, states: seq<System>, steps: seq<Step>, e: string) {
    && IsPath(states, steps) && states[0] == t
    && Revision(states[|steps|].db.revisions, e) == Revision(s.db.revisions, e)
    && Bundle(states[|steps|].db, e) != Bundle(s.db, e)
  }

  lemma {:induction false} CreationMisleads(s: System, t: System, tx: int, configId: int)
    returns (states: seq<System>, steps: seq<Step>, e: string)
    requires NextFinishCreate(s, t, tx, configId) && !Undisturbed(s, FinishCreate(tx, configId))
    ensures Misleads(s, t, states, steps, e)
  {
    hide Create, KeyTaken, EnvironmentsOf, PathStep;
    CreationSucceeds(s, t, tx, configId);
    CreationShows(s, t, tx, configId);
    e := s.flights[tx].identity.environmentId;
    var n := Revision(s.db.revisions, e) - Revision(t.db.revisions, e);
    hide NextFinishCreate, Undisturbed;
    states, steps := MoreFlags(t, e, n);
    assert configId in Bundle(states[|steps|].db, e) && configId !in Bundle(s.db, e);
  }

  lemma {:induction false} ArchivingMisleads(s: System, t: System, tx: int)
    returns (states: seq<System>, steps: seq<Step>, e: string)
    requires ArchivesKnow(s) && NextFinishArchive(s, t, tx) && !Undisturbed(s, FinishArchive(tx))
    ensures Misleads(s, t, states, steps, e)
  {
    hide EnvironmentsOf, PathStep;
    var f := s.flights[tx];
    e :| e in f.seenRevisions && !RevisionUnspent(s.db, f.flagId, e, f.seenRevisions[e]);
    var id := ArchiveHides(s, t, tx, e);
    assert t.db.configs == s.db.configs && f.flagId in t.db.archived;
    var n := Revision(s.db.revisions, e) - Revision(t.db.revisions, e);
    hide NextFinishArchive, Undisturbed, ArchivesKnow;
    states, steps := MoreFlags(t, e, n);
    if f.flagId in s.db.archived {
      var other :| other !in t.db.configs && Shown(states[|steps|].db.configs, states[|steps|].db.archived, e, other);
      assert other in Bundle(states[|steps|].db, e) && other !in Bundle(s.db, e);
    } else {
      assert id in Bundle(s.db, e) && id !in Bundle(states[|steps|].db, e);
    }
  }

  lemma {:induction false} UndisturbedNeverMisleads(
    s: System, step: Step, t: System, states: seq<System>, steps: seq<Step>, e: string)
    requires Inv(s) && ArchivesKnow(s) && Next(s, step, t) && Undisturbed(s, step)
    requires IsPath(states, steps) && states[0] == t
    ensures RisesOrStays(s.db, states[|steps|].db, e)
  {
    hide Inv, ArchivesKnow, Next, Undisturbed, RisesOrStays;
    var all, more := [s] + states, [step] + steps;
    forall i: nat | i < |more| ensures Next(all[i], more[i], all[i + 1]) && Undisturbed(all[i], more[i]) {
      if i > 0 {
        assert PathStep(states, steps, i - 1);
      }
    }
    assert IsRun(all, more);
    assert UndisturbedFrom(all, more, 0, |more|);
    RevisionStandsForBundle(all, more, e, 0, |more|);
  }

  /**
   * The exact condition of the ETag. A step is undisturbed if and only if no undisturbed way on leads
   * to a moment at which the revision before the step is current again for another bundle, so that a
   * client holding the old bundle would be told it is not modified.
   */
  lemma {:induction false} EtagExactly(s: System, step: Step, t: System)
    requires Inv(s) && ArchivesKnow(s) && Next(s, step, t)
    ensures Undisturbed(s, step) <==> !exists states, steps, e :: Misleads(s, t, states, steps, e)
  {
    if Undisturbed(s, step) {
      hide Inv, ArchivesKnow, Next, Undisturbed, IsPath, Bundle;
      forall states, steps, e ensures !Misleads(s, t, states, steps, e) {
        if Misleads(s, t, states, steps, e) {
          UndisturbedNeverMisleads(s, step, t, states, steps, e);
        }
      }
    } else {
      hide Inv, ArchivesKnow, Misleads;
      if step.FinishCreate? {
        var states, steps, e := CreationMisleads(s, t, step.tx, step.configId);
      } else {
        var states, steps, e := ArchivingMisleads(s, t, step.tx);
      }
    }
  }

  // ----- two creations at once -----

  const TOGETHER: seq<Step> := [
    BeginCreate(0, SWITCH, FIRST), BeginCreate(1, OTHER, FIRST), FinishCreate(0, 1), FinishCreate(1, 2)]

  function Second(): Result<ConfigRow, WriteError> {
    Create(OTHER, FIRST)
  }

  lemma {:induction false} SecondIsMade()
    ensures Second().Ok? && Second().value.identity == OTHER && Second().value.currentVersion == 1
  {
    assert OTHER == Newcomer("e", "g", "second");
    NewcomerIsMade("e", "g", "second");
    CreatedKeys(OTHER, FIRST);
    hide Create;
  }

  function Together(n: nat, row: ConfigRow): System {
    match n
    case 0 => EMPTY
    case 1 => System(EMPTY.db, map[0 := CREATING])
    case 2 => System(EMPTY.db, map[0 := CREATING, 1 := Creating(OTHER, FIRST, 0)])
    case 3 => System(Holding(MADE), map[1 := Creating(OTHER, FIRST, 0)])
    case _ => System(Holding(MADE).(configs := map[1 := MADE, 2 := row]), map[])
  }

  function Moments(row: ConfigRow): seq<System> {
    [Together(0, row), Together(1, row), Together(2, row), Together(3, row), Together(4, row)]
  }

  lemma {:induction false} BothBegin(row: ConfigRow)
    ensures Next(Together(0, row), TOGETHER[0], Together(1, row))
    ensures Next(Together(1, row), TOGETHER[1], Together(2, row))
  {
    hide SchemaUpdate;
    PayloadsFit();
  }

  lemma {:induction false} FirstFinishes(row: ConfigRow)
    ensures Next(Together(2, row), TOGETHER[2], Together(3, row))
  {
    var flights := map[0 := CREATING, 1 := Creating(OTHER, FIRST, 0)];
    CreationIsNext(flights);
    assert Others(flights, 0) == map[1 := Creating(OTHER, FIRST, 0)];
    hide Next, Holding, MADE, Others;
  }

  lemma {:induction false} SecondFinishes(row: ConfigRow)
    requires Second() == Ok(row)
    ensures Next(Together(3, row), TOGETHER[3], Together(4, row))
  {
    hide Create;
    SecondIsMade();
  }

  lemma {:induction false} TogetherIsARun(row: ConfigRow)
    requires Second() == Ok(row)
    ensures IsRun(Moments(row), TOGETHER)
  {
    hide Create, Inv, Next, Together;
    EmptyIsAStart();
    assert Together(0, row) == EMPTY by {
      FirstMoment(row);
    }
    BothBegin(row);
    FirstFinishes(row);
    SecondFinishes(row);
  }

  lemma {:induction false} FirstMoment(row: ConfigRow)
    ensures Together(0, row) == EMPTY
  {
  }

  /** Two flags created at the same time share a revision: a client that saw only the first is told nothing changed. */
  lemma {:induction false} ConcurrentCreatesShareARevision(row: ConfigRow)
    requires Second() == Ok(row)
    ensures IsRun(Moments(row), TOGETHER)
    ensures Revision(Together(3, row).db.revisions, "e") == Revision(Together(4, row).db.revisions, "e")
    ensures Bundle(Together(3, row).db, "e") != Bundle(Together(4, row).db, "e")
    ensures !Undisturbed(Together(3, row), TOGETHER[3])
  {
    hide Create, IsRun;
    TogetherIsARun(row);
    SecondIsMade();
    assert 2 in Bundle(Together(4, row).db, "e") && 2 !in Bundle(Together(3, row).db, "e");
  }

  // ----- two archivings at once -----

  function Both(row: ConfigRow, revision: int, archived: set<string>): Tables {
    Tables(map[1 := MADE, 2 := row], map["e" := revision], archived, map[])
  }

  const ARCHIVING_FIRST := Archiving("f", map["e" := 2])
  const ARCHIVING_SECOND := Archiving("g", map["e" := 2])
  const ARCHIVED: seq<Step> := [
    BeginCreate(0, SWITCH, FIRST), FinishCreate(0, 1), BeginCreate(0, OTHER, FIRST), FinishCreate(0, 2),
    BeginArchive(1, "f"), BeginArchive(2, "g"), FinishArchive(1), FinishArchive(2)]

  function Leaving(n: nat, row: ConfigRow): System {
    match n
    case 0 => EMPTY
    case 1 => System(EMPTY.db, map[0 := CREATING])
    case 2 => System(Holding(MADE), map[])
    case 3 => System(Holding(MADE), map[0 := Creating(OTHER, FIRST, 1)])
    case 4 => System(Both(row, 2, {}), map[])
    case 5 => System(Both(row, 2, {}), map[1 := ARCHIVING_FIRST])
    case 6 => System(Both(row, 2, {}), map[1 := ARCHIVING_FIRST, 2 := ARCHIVING_SECOND])
    case 7 => System(Both(row, 3, {"f"}), map[2 := ARCHIVING_SECOND])
    case _ => System(Both(row, 3, {"f", "g"}), map[])
  }

  function Departures(row: ConfigRow): seq<System> {
    [Leaving(0, row), Leaving(1, row), Leaving(2, row), Leaving(3, row), Leaving(4, row),
     Leaving(5, row), Leaving(6, row), Leaving(7, row), Leaving(8, row)]
  }

  lemma {:induction false} FirstOfTwoIsMade(row: ConfigRow)
    ensures Next(Leaving(0, row), ARCHIVED[0], Leaving(1, row))
    ensures Next(Leaving(1, row), ARCHIVED[1], Leaving(2, row))
  {
    CreationBegins();
    FlagIsMade();
    hide Next, MADE, Holding, CREATING;
  }

  lemma {:induction false} SecondOfTwoBegins(row: ConfigRow)
    ensures Next(Leaving(2, row), ARCHIVED[2], Leaving(3, row))
  {
    PayloadsFit();
    hide SchemaUpdate;
  }

  lemma {:induction false} SecondOfTwoIsMade(row: ConfigRow)
    requires Second() == Ok(row)
    ensures Next(Leaving(3, row), ARCHIVED[3], Leaving(4, row))
  {
    SecondIsMade();
    hide Create;
    assert Others(map[0 := Creating(OTHER, FIRST, 1)], 0) == map[];
    assert EnvironmentsOf(map[1 := MADE], "g") == {} && !KeyTaken(map[1 := MADE], OTHER);
  }

  lemma {:induction false} SeenByBoth(row: ConfigRow)
    requires Second() == Ok(row)
    ensures SeenRevisions(Both(row, 2, {}), "f") == map["e" := 2]
      && SeenRevisions(Both(row, 2, {}), "g") == map["e" := 2]
  {
    SecondIsMade();
    hide Create;
    var configs := map[1 := MADE, 2 := row];
    assert configs[1].identity.environmentId == "e" && configs[2].identity.environmentId == "e";
    assert EnvironmentsOf(configs, "f") == {"e"} && EnvironmentsOf(configs, "g") == {"e"};
  }

  lemma {:induction false} ArchivingBegins(
    db: Tables, flights: map<int, Flight>, tx: int, flagId: string, seen: map<string, int>)
    requires tx !in flights && flagId !in db.archived && SeenRevisions(db, flagId) == seen && seen != map[]
    ensures Next(System(db, flights), BeginArchive(tx, flagId), System(db, flights[tx := Archiving(flagId, seen)]))
  {
    assert SeenRevisions(db, flagId).Keys == EnvironmentsOf(db.configs, flagId);
    hide EnvironmentsOf, SeenRevisions;
  }

  lemma {:induction false} FirstArchivingBegins(row: ConfigRow)
    requires Second() == Ok(row)
    ensures Next(Leaving(4, row), ARCHIVED[4], Leaving(5, row))
  {
    assert ARCHIVED[4] == BeginArchive(1, "f");
    hide Create, ARCHIVED;
    SeenByBoth(row);
    var db, seen := Both(row, 2, {}), map["e" := 2];
    assert "e" in seen;
    assert Leaving(4, row) == System(db, map[]);
    hide MADE, SeenRevisions, Both;
    ArchivingBegins(db, map[], 1, "f", seen);
    hide Next;
  }

  lemma {:induction false} SecondArchivingBegins(row: ConfigRow)
    requires Second() == Ok(row)
    ensures Next(Leaving(5, row), ARCHIVED[5], Leaving(6, row))
  {
    assert ARCHIVED[5] == BeginArchive(2, "g");
    hide Create, ARCHIVED;
    SeenByBoth(row);
    var db, seen := Both(row, 2, {}), map["e" := 2];
    assert "e" in seen;
    assert Leaving(5, row) == System(db, map[1 := ARCHIVING_FIRST]);
    hide MADE, SeenRevisions, Both;
    ArchivingBegins(db, map[1 := ARCHIVING_FIRST], 2, "g", seen);
    hide Next;
  }

  lemma {:induction false} ArchivingsFinish(row: ConfigRow)
    ensures Next(Leaving(6, row), ARCHIVED[6], Leaving(7, row))
    ensures Next(Leaving(7, row), ARCHIVED[7], Leaving(8, row))
  {
    assert Others(map[1 := ARCHIVING_FIRST, 2 := ARCHIVING_SECOND], 1) == map[2 := ARCHIVING_SECOND];
    assert Others(map[2 := ARCHIVING_SECOND], 2) == map[];
    hide MADE;
  }

  lemma {:induction false} DeparturesAreARun(row: ConfigRow)
    requires Second() == Ok(row)
    ensures IsRun(Departures(row), ARCHIVED)
  {
    EmptyIsAStart();
    assert Leaving(0, row) == EMPTY by {
      FirstDeparture(row);
    }
    assert |ARCHIVED| == 8;
    hide Inv, Next, Leaving, Create, ARCHIVED;
    FirstOfTwoIsMade(row);
    SecondOfTwoBegins(row);
    SecondOfTwoIsMade(row);
    FirstArchivingBegins(row);
    SecondArchivingBegins(row);
    ArchivingsFinish(row);
  }

  lemma {:induction false} FirstDeparture(row: ConfigRow)
    ensures Leaving(0, row) == EMPTY
  {
  }

  lemma {:induction false} OneIsLeft(row: ConfigRow)
    requires Second() == Ok(row)
    ensures Bundle(Leaving(7, row).db, "e") != Bundle(Leaving(8, row).db, "e")
  {
    SecondIsMade();
    hide Create;
    assert Shown(Leaving(7, row).db.configs, {"f"}, "e", 2) && !Shown(Leaving(8, row).db.configs, {"f", "g"}, "e", 2);
    assert 2 in Bundle(Leaving(7, row).db, "e") && 2 !in Bundle(Leaving(8, row).db, "e");
  }

  lemma {:induction false} SecondIsDisturbed(row: ConfigRow)
    ensures Revision(Leaving(7, row).db.revisions, "e") == Revision(Leaving(8, row).db.revisions, "e")
    ensures !Undisturbed(Leaving(7, row), FinishArchive(2))
  {
    var s := Leaving(7, row);
    assert 2 in s.flights && s.flights[2] == ARCHIVING_SECOND && "e" in ARCHIVING_SECOND.seenRevisions;
    assert !RevisionUnspent(s.db, "g", "e", 2);
  }

  /** Two flags archived at the same time share a revision: a client that saw the first go is not told of the second. */
  lemma {:induction false} ConcurrentArchivingsShareARevision(row: ConfigRow)
    requires Second() == Ok(row)
    ensures IsRun(Departures(row), ARCHIVED)
    ensures Revision(Leaving(7, row).db.revisions, "e") == Revision(Leaving(8, row).db.revisions, "e")
    ensures Bundle(Leaving(7, row).db, "e") != Bundle(Leaving(8, row).db, "e")
    ensures !Undisturbed(Leaving(7, row), FinishArchive(2))
  {
    DeparturesAreARun(row);
    OneIsLeft(row);
    SecondIsDisturbed(row);
    hide Create, IsRun, Bundle, Departures, ARCHIVED, Leaving, Undisturbed, Revision;
  }
}
