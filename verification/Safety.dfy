/** Every step of the write protocol keeps its invariant, and committed versions stay as they are. */
module Safety {
  import opened Prelude
  import opened Configuration
  import opened Rows
  import opened Payloads
  import opened Schedule
  import opened Store
  import opened Service
  import opened Scheduler
  import opened Protocol

  // ----- steps that only add, change or drop a flight -----

  lemma {:induction false} NewFlightKeepsInv(s: System, t: System, tx: int, f: Flight)
    requires Inv(s) && Begins(s, t, tx, f) && FlightOk(s.db, f)
    requires f.Batching? ==> f.staged == map[] && forall k :: k in f.claimed ==> k !in Claimed(s.flights)
    ensures Inv(t)
  {
    hide TablesOk, FlightOk;
  }

  lemma {:induction false} EndedFlightKeepsInv(s: System, t: System, tx: int)
    requires Inv(s) && Ends(s, t, tx, s.db)
    ensures Inv(t)
  {
    hide TablesOk, FlightOk;
  }

  lemma {:induction false} ClaimIsOk(db: Tables, locked: set<int>, claimed: seq<int>, now: int)
    requires IsClaim(db.changes, locked, claimed, now)
    ensures FlightOk(db, Batching(claimed, 0, None, map[], now))
    ensures forall k :: k in claimed ==> k !in locked
  {
  }

  lemma {:induction false} ReadingIsOk(s: System, t: System, tx: int, loaded: Loaded)
    requires Inv(s) && NextBatchRead(s, t, tx, loaded)
    ensures Inv(t)
  {
    hide RowInvariant, RowCauses, ChangeServed, ReadFrom, IsReading, StagedOk, Compile;
    var f := s.flights[tx];
    assert FlightOk(s.db, f);
    ReadingIsReadFrom(s.db.configs[Target(s.db.changes, f.claimed, f.done)], loaded);
    assert IsReadingVersion(s.db.configs[Target(s.db.changes, f.claimed, f.done)], loaded) by {
      ReadingVersion(s.db.configs[Target(s.db.changes, f.claimed, f.done)], loaded);
    }
    ChangedFlightKeepsInv(s, t, tx, f.(reading := Some(loaded)));
  }

  ghost predicate IsReadingVersion(row: ConfigRow, l: Loaded) {
    l.currentVersion == row.currentVersion
  }

  lemma {:induction false} ReadingVersion(row: ConfigRow, l: Loaded)
    requires IsReading(row, l)
    ensures IsReadingVersion(row, l)
  {
  }

  lemma {:induction false} ChangedFlightKeepsInv(s: System, t: System, tx: int, f: Flight)
    requires Inv(s) && tx in s.flights && t == s.(flights := s.flights[tx := f]) && FlightOk(s.db, f)
    requires f.Batching? && s.flights[tx].Batching? && f.claimed == s.flights[tx].claimed
    requires forall id :: id in f.staged && id !in s.flights[tx].staged ==> !Locked(s.flights, id)
    ensures Inv(t)
  {
    hide TablesOk, FlightOk;
    forall x | x in s.flights && x != tx && s.flights[x].Batching? ensures f.staged.Keys !! s.flights[x].staged.Keys {
      forall id | id in f.staged ensures id !in s.flights[x].staged {
      }
    }
  }

  lemma {:induction false} StagedMore(
    db: Tables, f: Flight, after: ConfigRow)
    requires f.Batching? && AllKnown(db.changes, f.claimed) && f.done < |f.claimed|
    requires StagedOk(db.configs, f.staged, db.changes, f.claimed, f.done)
    requires var id := Target(db.changes, f.claimed, f.done);
      id in db.configs && id !in f.staged
      && IsNext(db.configs[id], after, f.claimed[f.done], db.changes[f.claimed[f.done]].change)
    ensures StagedOk(
      db.configs, f.staged[Target(db.changes, f.claimed, f.done) := after], db.changes, f.claimed, f.done + 1)
  {
    hide IsNext, Target;
  }

  /** What a batch stages is the change applied to the version the row still has. */
  lemma {:induction false} WrittenIsNext(row: ConfigRow, reading: Loaded, copied: FlagUpdate, id: int, change: Change)
    requires RowInvariant(row) && ReadFrom(row, reading.currentVersion, Compile(reading))
    requires Copies(Compile(reading), reading.currentVersion, copied) && Applied(change, copied).Returned?
    requires Update(row, Applied(change, copied).value, Scheduled(id, change)).Ok?
    ensures IsNext(row, Update(row, Applied(change, copied).value, Scheduled(id, change)).value, id, change)
    ensures row.currentVersion == reading.currentVersion
  {
    hide Build, Accepted, Sound, SameContent, Compile, Valid, Changed, ChildrenOf, RowInvariant, Extends, ReadFrom,
      Lists;
    var p := Applied(change, copied).value;
    assert p.expectedVersion == copied.expectedVersion == reading.currentVersion == row.currentVersion;
    hide Copies, Applied, SchemaUpdate;
    RowIsSound(row);
    ScheduledKeeps(row, p, copied, id, change, Compile(reading));
    UpdateExtends(row, p, Scheduled(id, change));
  }

  lemma {:induction false} BatchWriteKeepsInv(s: System, t: System, tx: int, copied: FlagUpdate)
    requires Inv(s) && NextBatchWrite(s, t, tx, copied)
    ensures Inv(t)
  {
    hide RowInvariant, RowCauses, ChangeServed, ReadFrom, StagedOk, Compile, Copies, Applied, Update, IsNext, Exclusive,
      Locked;
    var f := s.flights[tx];
    assert FlightOk(s.db, f);
    var k := f.claimed[f.done];
    var id := Target(s.db.changes, f.claimed, f.done);
    var change := s.db.changes[k].change;
    if Applied(change, copied).Raised?
      || Update(s.db.configs[id], Applied(change, copied).value, Scheduled(k, change)).Err? {
      EndedFlightKeepsInv(s, t, tx);
    } else {
      var after := Update(s.db.configs[id], Applied(change, copied).value, Scheduled(k, change)).value;
      WrittenIsNext(s.db.configs[id], f.reading.value, copied, k, change);
      StagedMore(s.db, f, after);
      ChangedFlightKeepsInv(s, t, tx, f.(done := f.done + 1, reading := None, staged := f.staged[id := after]));
    }
  }

  lemma {:induction false} SkipIsStaged(db: Tables, f: Flight)
    requires f.Batching? && AllKnown(db.changes, f.claimed) && f.done < |f.claimed|
    requires StagedOk(db.configs, f.staged, db.changes, f.claimed, f.done)
    requires Target(db.changes, f.claimed, f.done) !in db.configs
    ensures StagedOk(db.configs, f.staged, db.changes, f.claimed, f.done + 1)
  {
    hide IsNext, Target;
  }

  lemma {:induction false} BatchSkipKeepsInv(s: System, t: System, tx: int)
    requires Inv(s) && NextBatchSkip(s, t, tx)
    ensures Inv(t)
  {
    hide RowInvariant, RowCauses, ChangeServed, StagedOk, Exclusive, Locked, ReadFrom;
    var f := s.flights[tx];
    assert FlightOk(s.db, f);
    SkipIsStaged(s.db, f);
    ChangedFlightKeepsInv(s, t, tx, f.(done := f.done + 1));
  }

  // ----- steps that write -----

  /** A commit keeps the invariant if the tables stay sound, only grow, and other flights' rows are left alone. */
  lemma {:induction false} CommitKeepsInv(s: System, t: System, tx: int, db: Tables)
    requires Inv(s) && Ends(s, t, tx, db) && TablesOk(db) && TablesGrow(s.db, db)
    requires forall x :: x in s.flights && x != tx ==> LeavesAlone(s.db, db, s.flights[x])
    ensures Inv(t)
  {
    hide TablesOk, FlightOk, TablesGrow, LeavesAlone;
    forall x | x in t.flights ensures FlightOk(db, t.flights[x]) {
      FlightSurvives(s.db, db, s.flights[x]);
    }
  }

  lemma {:induction false} ServedStays(
    k: int, change: ChangeRow, before: map<int, ConfigRow>, after: map<int, ConfigRow>)
    requires ChangeServed(k, change, before)
    requires change.configId in after ==>
      change.configId in before && RowGrows(before[change.configId], after[change.configId])
    ensures ChangeServed(k, change, after)
  {
  }

  lemma {:induction false} OwnCauses(id: int, before: ConfigRow, after: ConfigRow, changes: map<int, ChangeRow>)
    requires RowCauses(id, before, changes) && Extends(before, after) && after.currentVersion in after.history
    requires !after.history[after.currentVersion].cause.Scheduled?
    ensures RowCauses(id, after, changes)
  {
  }

  lemma {:induction false} EditExtends(row: ConfigRow, p: FlagUpdate, cause: Cause, base: Option<FlagConfiguration>)
    requires RowInvariant(row) && SchemaUpdate(p) && Provenance(row, p, cause, base) && Update(row, p, cause).Ok?
    ensures var after := Update(row, p, cause).value;
      && RowInvariant(after) && Extends(row, after)
      && after.currentVersion in after.history && after.history[after.currentVersion].cause == cause
  {
    hide Build, SchemaUpdate, CopiesWithRule, Copies, Sound, RowInvariant, ReadFrom, ChildrenOf, Extends;
    RowIsSound(row);
    UpdateExtends(row, p, cause);
    match cause {
      case Replaced => ReplaceKeeps(row, p);
      case RuleAdded(rule, read) => AddRuleKeeps(row, p, rule, read, base.value);
      case RolledBack(target) => RollbackKeeps(row, p, target);
    }
  }

  lemma {:induction false} ReplacedRowOk(db: Tables, id: int, after: ConfigRow, revisions: map<string, int>)
    requires TablesOk(db) && id in db.configs
    requires RowInvariant(after) && Extends(db.configs[id], after) && after.currentVersion in after.history
    requires !after.history[after.currentVersion].cause.Scheduled?
    ensures var t := db.(configs := db.configs[id := after], revisions := revisions);
      TablesOk(t) && TablesGrow(db, t)
  {
    hide RowInvariant, RowCauses, ChangeServed, RowGrows, Extends;
    var t := db.(configs := db.configs[id := after], revisions := revisions);
    OwnCauses(id, db.configs[id], after, db.changes);
    ExtensionGrows(db.configs[id], after);
    forall x | x in db.configs ensures RowGrows(db.configs[x], t.configs[x]) {
      GrowsReflexively(db.configs[x]);
    }
    forall k | k in t.changes ensures ChangeServed(k, t.changes[k], t.configs) {
      ServedStays(k, db.changes[k], db.configs, t.configs);
    }
  }

  lemma {:induction false} GrowsReflexively(row: ConfigRow)
    ensures RowGrows(row, row)
  {
  }

  lemma {:induction false} FinishEditKeepsInv(s: System, t: System, tx: int)
    requires Inv(s) && NextFinishEdit(s, t, tx)
    ensures Inv(t) && TablesGrow(s.db, t.db)
  {
    hide RowInvariant, RowCauses, ChangeServed, Provenance, SchemaUpdate, Update, Extends, Exclusive, TablesGrow,
      TablesOk;
    var f := s.flights[tx];
    assert FlightOk(s.db, f);
    var row := s.db.configs[f.configId];
    if Update(row, f.payload, f.cause).Err? {
      EndedFlightKeepsInv(s, t, tx);
      SameTablesGrow(s.db);
    } else {
      var after := Update(row, f.payload, f.cause).value;
      InvRow(s.db, f.configId);
      EditExtends(row, f.payload, f.cause, f.base);
      ProvenanceIsNotScheduled(row, f.payload, f.cause, f.base);
      ReplacedRowOk(s.db, f.configId, after, Bumped(s.db.revisions, row.identity.environmentId));
      CommitKeepsInv(s, t, tx, t.db);
    }
  }

  lemma {:induction false} InvRow(db: Tables, id: int)
    requires TablesOk(db) && id in db.configs
    ensures RowInvariant(db.configs[id]) && RowCauses(id, db.configs[id], db.changes)
  {
    hide RowInvariant, RowCauses, ChangeServed;
  }

  lemma {:induction false} ProvenanceIsNotScheduled(
    row: ConfigRow, p: FlagUpdate, cause: Cause, base: Option<FlagConfiguration>)
    requires Provenance(row, p, cause, base)
    ensures !cause.Scheduled?
  {
  }

  lemma {:induction false} SameTablesGrow(db: Tables)
    ensures TablesGrow(db, db)
  {
    hide RowGrows;
    forall id | id in db.configs ensures RowGrows(db.configs[id], db.configs[id]) {
      GrowsReflexively(db.configs[id]);
    }
  }

  lemma {:induction false} KnownRowsLeftAlone(before: Tables, after: Tables, f: Flight)
    requires forall id :: id in before.configs ==> id in after.configs && after.configs[id] == before.configs[id]
    requires after.changes == before.changes
    ensures LeavesAlone(before, after, f)
  {
  }

  lemma {:induction false} NewRowOk(db: Tables, id: int, row: ConfigRow, revisions: map<string, int>)
    requires TablesOk(db) && id !in db.configs && RowInvariant(row)
    requires forall v :: v in row.history ==> row.history[v].cause == Created
    requires forall k :: k in db.changes ==> db.changes[k].configId != id
    ensures var t := db.(configs := db.configs[id := row], revisions := revisions);
      TablesOk(t) && TablesGrow(db, t)
  {
    hide RowInvariant, ChangeServed, RowGrows;
    var t := db.(configs := db.configs[id := row], revisions := revisions);
    SameTablesGrow(db);
    forall k | k in t.changes ensures ChangeServed(k, t.changes[k], t.configs) {
      if db.changes[k].configId in db.configs {
        GrowsReflexively(db.configs[db.changes[k].configId]);
      }
      ServedStays(k, db.changes[k], db.configs, t.configs);
    }
  }

  lemma {:induction false} CreatedHistory(id: Identity, p: FlagUpdate)
    requires Create(id, p).Ok?
    ensures forall v :: v in Create(id, p).value.history ==> Create(id, p).value.history[v].cause == Created
  {
    hide Build, ChildrenOf;
  }

  lemma {:induction false} FinishCreateKeepsInv(s: System, t: System, tx: int, configId: int)
    requires Inv(s) && NextFinishCreate(s, t, tx, configId)
    ensures Inv(t) && TablesGrow(s.db, t.db)
  {
    hide RowInvariant, RowCauses, ChangeServed, SchemaUpdate, Build, Exclusive, TablesGrow, TablesOk, KeyTaken, BatchOk,
      Create, LeavesAlone;
    var f := s.flights[tx];
    assert FlightOk(s.db, f);
    if KeyTaken(s.db.configs, f.identity) || Create(f.identity, f.payload).Err? {
      EndedFlightKeepsInv(s, t, tx);
      SameTablesGrow(s.db);
    } else {
      CreateIsSound(f.identity, f.payload);
      CreatedHistory(f.identity, f.payload);
      forall x | x in s.flights ensures LeavesAlone(s.db, t.db, s.flights[x]) {
        KnownRowsLeftAlone(s.db, t.db, s.flights[x]);
      }
      NewRowOk(s.db, configId, Create(f.identity, f.payload).value,
        s.db.revisions[f.identity.environmentId := f.seen + 1]);
      CommitKeepsInv(s, t, tx, t.db);
    }
  }

  lemma {:induction false} FinishArchiveKeepsInv(s: System, t: System, tx: int)
    requires Inv(s) && NextFinishArchive(s, t, tx)
    ensures Inv(t) && TablesGrow(s.db, t.db)
  {
    hide RowInvariant, RowCauses, ChangeServed, Exclusive, FlightOk, RowGrows;
    SameTablesGrow(s.db);
    assert TablesOk(t.db);
    CommitKeepsInv(s, t, tx, t.db);
  }

  lemma {:induction false} ScheduleKeepsInv(s: System, t: System, changeId: int, row: ChangeRow)
    requires Inv(s) && Next(s, ScheduleChange(changeId, row), t)
    ensures Inv(t) && TablesGrow(s.db, t.db)
  {
    hide RowInvariant, Exclusive, FlightOk, RowGrows;
    SameTablesGrow(s.db);
    forall x | x in t.flights ensures FlightOk(t.db, t.flights[x]) {
      FlightSurvives(s.db, t.db, s.flights[x]);
    }
  }

  // ----- the commit of a batch -----

  function Committed(db: Tables, claimed: seq<int>, staged: map<int, ConfigRow>, now: int): Tables {
    Tables(db.configs + staged, BumpedAll(db.revisions, Environments(db.configs, db.changes, claimed)),
           db.archived, MarkApplied(db.changes, claimed, now))
  }

  lemma {:induction false} StagedBy(
    db: Tables, claimed: seq<int>, staged: map<int, ConfigRow>, id: int) returns (i: nat)
    requires BatchOk(db, claimed, |claimed|, None, staged) && id in staged
    ensures i < |claimed| && claimed[i] in db.changes && db.changes[claimed[i]].configId == id && id in db.configs
    ensures db.changes[claimed[i]].appliedAt == None
    ensures IsNext(db.configs[id], staged[id], claimed[i], db.changes[claimed[i]].change)
  {
    hide IsNext;
    i :| i < |claimed| && Target(db.changes, claimed, i) == id;
    assert claimed[i] in claimed;
  }

  lemma {:induction false} NextCauses(
    id: int, before: ConfigRow, after: ConfigRow, k: int, changes: map<int, ChangeRow>, marked: map<int, ChangeRow>)
    requires RowCauses(id, before, changes) && k in changes && changes[k].configId == id && changes[k].appliedAt == None
    requires IsNext(before, after, k, changes[k].change)
    requires MarkedFrom(changes, marked) && marked[k].appliedAt.Some?
    ensures RowCauses(id, after, marked)
  {
    hide RowInvariant;
  }

  /** Changes keep what they ask for, and stay applied once they are. */
  ghost predicate MarkedFrom(changes: map<int, ChangeRow>, marked: map<int, ChangeRow>) {
    forall k :: k in changes ==>
      && k in marked && marked[k].configId == changes[k].configId && marked[k].change == changes[k].change
      && (changes[k].appliedAt.Some? ==> marked[k].appliedAt.Some?)
  }

  lemma {:induction false} OldCauses(id: int, row: ConfigRow, changes: map<int, ChangeRow>, marked: map<int, ChangeRow>)
    requires RowCauses(id, row, changes) && MarkedFrom(changes, marked)
    ensures RowCauses(id, row, marked)
  {
  }

  lemma {:induction false} CommittedRow(db: Tables, claimed: seq<int>, staged: map<int, ConfigRow>, now: int, id: int)
    requires TablesOk(db) && BatchOk(db, claimed, |claimed|, None, staged) && id in db.configs
    ensures var t := Committed(db, claimed, staged, now);
      RowInvariant(t.configs[id]) && RowCauses(id, t.configs[id], t.changes) && RowGrows(db.configs[id], t.configs[id])
  {
    hide RowInvariant, RowCauses, ChangeServed, RowGrows, Extends, BatchOk, TablesOk, BumpedAll, Environments;
    InvRow(db, id);
    if id in staged {
      var i := StagedBy(db, claimed, staged, id);
      assert claimed[i] in claimed;
      ExtensionGrows(db.configs[id], staged[id]);
      NextCauses(id, db.configs[id], staged[id], claimed[i], db.changes, MarkApplied(db.changes, claimed, now));
    } else {
      GrowsReflexively(db.configs[id]);
      OldCauses(id, db.configs[id], db.changes, MarkApplied(db.changes, claimed, now));
    }
  }

  lemma {:induction false} CommittedChange(db: Tables, claimed: seq<int>, staged: map<int, ConfigRow>, now: int, k: int)
    requires TablesOk(db) && BatchOk(db, claimed, |claimed|, None, staged) && k in db.changes
    requires forall id :: id in db.configs ==> RowGrows(db.configs[id], Committed(db, claimed, staged, now).configs[id])
    requires staged.Keys <= db.configs.Keys
    ensures var t := Committed(db, claimed, staged, now); ChangeServed(k, t.changes[k], t.configs)
  {
    hide RowInvariant, RowCauses, RowGrows, BumpedAll, Environments;
    var t := Committed(db, claimed, staged, now);
    if k in claimed {
      var i: nat :| i < |claimed| && claimed[i] == k;
      var id := Target(db.changes, claimed, i);
      if id in db.configs {
        assert IsNext(db.configs[id], staged[id], k, db.changes[k].change);
      }
    } else {
      ServedStays(k, db.changes[k], db.configs, t.configs);
    }
  }

  lemma {:induction false} CommittedOk(db: Tables, claimed: seq<int>, staged: map<int, ConfigRow>, now: int)
    requires TablesOk(db) && BatchOk(db, claimed, |claimed|, None, staged)
    ensures TablesOk(Committed(db, claimed, staged, now)) && TablesGrow(db, Committed(db, claimed, staged, now))
  {
    hide RowInvariant, RowCauses, RowGrows, ChangeServed, StagedOk, BumpedAll, Environments;
    var t := Committed(db, claimed, staged, now);
    StagedAreRows(db, claimed, staged);
    forall id | id in t.configs
      ensures RowInvariant(t.configs[id]) && RowCauses(id, t.configs[id], t.changes)
        && RowGrows(db.configs[id], t.configs[id])
    {
      CommittedRow(db, claimed, staged, now, id);
    }
    forall k | k in t.changes ensures ChangeServed(k, t.changes[k], t.configs) {
      CommittedChange(db, claimed, staged, now, k);
    }
  }

  lemma {:induction false} StagedAreRows(db: Tables, claimed: seq<int>, staged: map<int, ConfigRow>)
    requires BatchOk(db, claimed, |claimed|, None, staged)
    ensures staged.Keys <= db.configs.Keys && (db.configs + staged).Keys == db.configs.Keys
  {
    hide IsNext, Target;
  }

  lemma {:induction false} BatchCommitKeepsInv(s: System, t: System, tx: int, now: int)
    requires Inv(s) && NextBatchCommit(s, t, tx, now)
    ensures Inv(t) && TablesGrow(s.db, t.db)
  {
    hide RowInvariant, RowCauses, RowGrows, ChangeServed, StagedOk, BumpedAll, Environments, TablesOk, TablesGrow,
      ReadingOk;
    var f := s.flights[tx];
    assert FlightOk(s.db, f);
    assert f.reading.None? by {
      if f.reading.Some? {
        assert ReadingOk(s.db, f.claimed, f.done, f.reading.value);
        ReadingIsBeforeTheEnd(s.db, f.claimed, f.done, f.reading.value);
      }
    }
    CommittedOk(s.db, f.claimed, f.staged, now);
    forall x | x in s.flights && x != tx ensures LeavesAlone(s.db, t.db, s.flights[x]) {
    }
    CommitKeepsInv(s, t, tx, t.db);
  }

  lemma {:induction false} ReadingIsBeforeTheEnd(db: Tables, claimed: seq<int>, done: nat, l: Loaded)
    requires AllKnown(db.changes, claimed) && ReadingOk(db, claimed, done, l)
    ensures done < |claimed|
  {
    hide ReadFrom;
  }

  // ----- every step -----

  /** Whatever step is taken next, the invariant holds after it and no version is lost or changed. */
  lemma {:induction false} StepKeepsInv(s: System, step: Step, t: System)
    requires Inv(s) && Next(s, step, t)
    ensures Inv(t) && TablesGrow(s.db, t.db)
  {
    hide TablesGrow, TablesOk, Provenance, SchemaUpdate, Copies, CopiesWithRule, IsReading, Compile, RowInvariant,
      IsClaim, Exclusive, BatchOk, ReadFrom, Accepted;
    SameTablesGrow(s.db);
    match step {
      case BeginReplace(tx, configId, p) =>
        BeginIsOk(s.db, configId, p, Replaced, None);
        NewFlightKeepsInv(s, t, tx, Editing(configId, p, Replaced, None));
      case BeginAddRule(tx, configId, rule, loaded, p) =>
        AddRuleIsOk(s.db, configId, rule, loaded, p);
        NewFlightKeepsInv(s, t, tx,
          Editing(configId, p, RuleAdded(rule, loaded.currentVersion), Some(Compile(loaded))));
      case BeginRollback(tx, configId, target, p) =>
        BeginIsOk(s.db, configId, p, RolledBack(target), None);
        NewFlightKeepsInv(s, t, tx, Editing(configId, p, RolledBack(target), None));
      case FinishEdit(tx) => FinishEditKeepsInv(s, t, tx);
      case BeginCreate(tx, identity, p) =>
        NewFlightKeepsInv(s, t, tx, Creating(identity, p, Revision(s.db.revisions, identity.environmentId)));
      case FinishCreate(tx, configId) => FinishCreateKeepsInv(s, t, tx, configId);
      case BeginArchive(tx, flagId) => NewFlightKeepsInv(s, t, tx, Archiving(flagId, SeenRevisions(s.db, flagId)));
      case FinishArchive(tx) => FinishArchiveKeepsInv(s, t, tx);
      case ScheduleChange(changeId, row) => ScheduleKeepsInv(s, t, changeId, row);
      case Claim(tx, claimed, now) =>
        ClaimIsOk(s.db, Claimed(s.flights), claimed, now);
        NewFlightKeepsInv(s, t, tx, Batching(claimed, 0, None, map[], now));
      case BatchRead(tx, loaded) => ReadingIsOk(s, t, tx, loaded);
      case BatchWrite(tx, copied) => BatchWriteKeepsInv(s, t, tx, copied);
      case BatchSkip(tx) => BatchSkipKeepsInv(s, t, tx);
      case BatchCommit(tx, now) => BatchCommitKeepsInv(s, t, tx, now);
      case Abort(tx) => EndedFlightKeepsInv(s, t, tx);
    }
  }

  lemma {:induction false} BeginIsOk(
    db: Tables, configId: int, p: FlagUpdate, cause: Cause, base: Option<FlagConfiguration>)
    requires configId in db.configs && SchemaUpdate(p)
    requires cause == Replaced || (cause.RolledBack? && cause.target in db.configs[configId].history
                                   && Copies(db.configs[configId].history[cause.target].snapshot, p.expectedVersion, p))
    ensures FlightOk(db, Editing(configId, p, cause, base))
  {
    hide SchemaUpdate, Copies;
  }

  lemma {:induction false} AddRuleIsOk(db: Tables, configId: int, rule: RuleInput, loaded: Loaded, p: FlagUpdate)
    requires TablesOk(db) && configId in db.configs && IsReading(db.configs[configId], loaded) && SchemaUpdate(p)
    requires CopiesWithRule(Compile(loaded), p.expectedVersion, rule, p)
    ensures FlightOk(db, Editing(configId, p, RuleAdded(rule, loaded.currentVersion), Some(Compile(loaded))))
  {
    hide SchemaUpdate, CopiesWithRule, Compile, RowInvariant, RowCauses, ChangeServed, ReadFrom;
    ReadingIsReadFrom(db.configs[configId], loaded);
    ReadingVersion(db.configs[configId], loaded);
  }

  // ----- every run -----

  /** A run from a state in which the invariant holds, such as the empty database. */
  ghost predicate IsRun(states: seq<System>, steps: seq<Step>) {
    && |states| == |steps| + 1 && Inv(states[0])
    && forall i :: 0 <= i < |steps| ==> Next(states[i], steps[i], states[i + 1])
  }

  const EMPTY := System(Tables(map[], map[], {}, map[]), map[])

  lemma {:induction false} EmptyIsAStart()
    ensures Inv(EMPTY)
  {
  }

  lemma {:induction false} RunKeepsInv(states: seq<System>, steps: seq<Step>, i: nat)
    requires IsRun(states, steps) && i < |states|
    ensures Inv(states[i])
  {
    hide Inv, Next;
    if i > 0 {
      RunKeepsInv(states, steps, i - 1);
      assert Next(states[i - 1], steps[i - 1], states[i - 1 + 1]);
      StepKeepsInv(states[i - 1], steps[i - 1], states[i]);
    }
  }
}
