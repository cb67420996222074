/**
 * The versioned write protocol: any number of transactions in flight, interleaved step by step.
 * A transaction reads committed rows, holds what it read, and later either commits or disappears.
 * The database serialises writers of one configuration row: a row that a batch has updated stays
 * locked until that batch ends, and a compare-and-swap together with its commit is one step.
 */
module Protocol {
  import opened Prelude
  import opened Configuration
  import opened Rows
  import opened Payloads
  import opened Schedule
  import opened Store
  import opened Service
  import opened Scheduler

  datatype Tables = Tables(
    configs: map<int, ConfigRow>, revisions: map<string, int>, archived: set<string>, changes: map<int, ChangeRow>)

  /**
   * What a transaction holds between its steps. Creating and archiving write back a revision they
   * read when they began; an edit increments the revision in the database.
   */
  datatype Flight =
    | Editing(configId: int, payload: FlagUpdate, cause: Cause, base: Option<FlagConfiguration>)
    | Creating(identity: Identity, payload: FlagUpdate, seen: int)
    | Archiving(flagId: string, seenRevisions: map<string, int>)
    | Batching(claimed: seq<int>, done: nat, reading: Option<Loaded>, staged: map<int, ConfigRow>, claimedAt: int)

  datatype System = System(db: Tables, flights: map<int, Flight>)

  /** One step, with every choice the environment makes in it. */
  datatype Step =
    | BeginReplace(tx: int, configId: int, payload: FlagUpdate)
    | BeginAddRule(tx: int, configId: int, rule: RuleInput, loaded: Loaded, payload: FlagUpdate)
    | BeginRollback(tx: int, configId: int, target: int, payload: FlagUpdate)
    | FinishEdit(tx: int)
    | BeginCreate(tx: int, identity: Identity, payload: FlagUpdate)
    | FinishCreate(tx: int, configId: int)
    | BeginArchive(tx: int, flagId: string)
    | FinishArchive(tx: int)
    | ScheduleChange(changeId: int, row: ChangeRow)
    | Claim(tx: int, claimed: seq<int>, now: int)
    | BatchRead(tx: int, loaded: Loaded)
    | BatchWrite(tx: int, copied: FlagUpdate)
    | BatchSkip(tx: int)
    | BatchCommit(tx: int, now: int)
    | Abort(tx: int)

  ghost predicate Found(db: Tables, configId: int) {
    configId in db.configs && db.configs[configId].identity.flagId !in db.archived
  }

  function Others(flights: map<int, Flight>, tx: int): map<int, Flight> {
    flights - {tx}
  }

  /** The scheduled changes some batch has claimed, and the rows some batch has updated. */
  ghost function Claimed(flights: map<int, Flight>): set<int> {
    set tx, k | tx in flights && flights[tx].Batching? && k in flights[tx].claimed :: k
  }

  ghost predicate Locked(flights: map<int, Flight>, configId: int) {
    exists tx :: tx in flights && flights[tx].Batching? && configId in flights[tx].staged
  }

  ghost predicate Begins(s: System, t: System, tx: int, f: Flight) {
    tx !in s.flights && t == System(s.db, s.flights[tx := f])
  }

  ghost predicate Ends(s: System, t: System, tx: int, db: Tables) {
    t == System(db, Others(s.flights, tx))
  }

  function SeenRevisions(db: Tables, flagId: string): map<string, int> {
    map e | e in EnvironmentsOf(db.configs, flagId) :: Revision(db.revisions, e)
  }

  ghost predicate NextFinishEdit(s: System, t: System, tx: int) {
    && tx in s.flights && s.flights[tx].Editing? && s.flights[tx].configId in s.db.configs
    && var f := s.flights[tx];
       var row := s.db.configs[f.configId];
       && !Locked(s.flights, f.configId)
       && match Update(row, f.payload, f.cause)
          case Err(_) => Ends(s, t, tx, s.db)
          case Ok(after) => Ends(s, t, tx, s.db.(
            configs := s.db.configs[f.configId := after],
            revisions := Bumped(s.db.revisions, row.identity.environmentId)))
  }

  /** The ids of the new flag and its configuration have not been used before. */
  ghost predicate NextFinishCreate(s: System, t: System, tx: int, configId: int) {
    && tx in s.flights && s.flights[tx].Creating?
    && configId !in s.db.configs && (forall k :: k in s.db.changes ==> s.db.changes[k].configId != configId)
    && EnvironmentsOf(s.db.configs, s.flights[tx].identity.flagId) == {}
      && s.flights[tx].identity.flagId !in s.db.archived
    && var f := s.flights[tx];
       if KeyTaken(s.db.configs, f.identity) || Create(f.identity, f.payload).Err? then Ends(s, t, tx, s.db)
       else Ends(s, t, tx, s.db.(
         configs := s.db.configs[configId := Create(f.identity, f.payload).value],
         revisions := s.db.revisions[f.identity.environmentId := f.seen + 1]))
  }

  ghost predicate NextFinishArchive(s: System, t: System, tx: int) {
    && tx in s.flights && s.flights[tx].Archiving?
    && var f := s.flights[tx];
       Ends(s, t, tx, s.db.(
         archived := s.db.archived + {f.flagId},
         revisions := s.db.revisions + map e | e in f.seenRevisions :: f.seenRevisions[e] + 1))
  }

  /** The change a batch is at, and its configuration. */
  ghost predicate BatchAt(s: System, tx: int) {
    && tx in s.flights && s.flights[tx].Batching?
    && s.flights[tx].done < |s.flights[tx].claimed| && s.flights[tx].claimed[s.flights[tx].done] in s.db.changes
  }

  ghost predicate NextBatchRead(s: System, t: System, tx: int, loaded: Loaded) {
    && BatchAt(s, tx)
    && var f := s.flights[tx];
       var configId := Target(s.db.changes, f.claimed, f.done);
       && f.reading.None? && Found(s.db, configId) && configId !in f.staged
       && IsReading(s.db.configs[configId], loaded)
       && t == s.(flights := s.flights[tx := f.(reading := Some(loaded))])
  }

  /** Apply the change to what was read and compare-and-swap; any error ends the whole batch. */
  ghost predicate NextBatchWrite(s: System, t: System, tx: int, copied: FlagUpdate) {
    && BatchAt(s, tx)
    && var f := s.flights[tx];
       var id := f.claimed[f.done];
       var configId := Target(s.db.changes, f.claimed, f.done);
       var change := s.db.changes[id].change;
       && f.reading.Some? && configId in s.db.configs && configId !in f.staged && !Locked(s.flights, configId)
       && Copies(Compile(f.reading.value), f.reading.value.currentVersion, copied)
       && var written := if Applied(change, copied).Raised? then Err(UnhandledValidation)
                         else Update(s.db.configs[configId], Applied(change, copied).value, Scheduled(id, change));
          match written
          case Err(_) => Ends(s, t, tx, s.db)
          case Ok(after) =>
            t == s.(
              flights := s.flights[
                tx := f.(done := f.done + 1, reading := None, staged := f.staged[configId := after])])
  }

  /** The configuration of the change is gone: the batch only marks it applied. */
  ghost predicate NextBatchSkip(s: System, t: System, tx: int) {
    && BatchAt(s, tx)
    && var f := s.flights[tx];
       && Target(s.db.changes, f.claimed, f.done) !in s.db.configs
       && t == s.(flights := s.flights[tx := f.(done := f.done + 1)])
  }

  ghost predicate NextBatchCommit(s: System, t: System, tx: int, now: int) {
    && tx in s.flights && s.flights[tx].Batching? && s.flights[tx].done == |s.flights[tx].claimed|
    && var f := s.flights[tx];
       Ends(s, t, tx, Tables(
         s.db.configs + f.staged,
         BumpedAll(s.db.revisions, Environments(s.db.configs, s.db.changes, f.claimed)),
         s.db.archived,
         MarkApplied(s.db.changes, f.claimed, now)))
  }

  ghost predicate Next(s: System, step: Step, t: System) {
    match step
    case BeginReplace(tx, configId, p) =>
      Found(s.db, configId) && SchemaUpdate(p) && Begins(s, t, tx, Editing(configId, p, Replaced, None))
    case BeginAddRule(tx, configId, rule, loaded, p) =>
      && Found(s.db, configId) && IsReading(s.db.configs[configId], loaded) && SchemaRule(rule) && SchemaUpdate(p)
      && CopiesWithRule(Compile(loaded), p.expectedVersion, rule, p)
      && Begins(s, t, tx, Editing(configId, p, RuleAdded(rule, loaded.currentVersion), Some(Compile(loaded))))
    case BeginRollback(tx, configId, target, p) =>
      && Found(s.db, configId) && target in s.db.configs[configId].history && SchemaUpdate(p)
      && Copies(s.db.configs[configId].history[target].snapshot, p.expectedVersion, p)
      && Begins(s, t, tx, Editing(configId, p, RolledBack(target), None))
    case FinishEdit(tx) => NextFinishEdit(s, t, tx)
    case BeginCreate(tx, identity, p) =>
      SchemaUpdate(p) && Begins(s, t, tx, Creating(identity, p, Revision(s.db.revisions, identity.environmentId)))
    case FinishCreate(tx, configId) => NextFinishCreate(s, t, tx, configId)
    case BeginArchive(tx, flagId) =>
      && flagId !in s.db.archived && EnvironmentsOf(s.db.configs, flagId) != {}
      && Begins(s, t, tx, Archiving(flagId, SeenRevisions(s.db, flagId)))
    case FinishArchive(tx) => NextFinishArchive(s, t, tx)
    case ScheduleChange(changeId, row) =>
      && changeId !in s.db.changes && Found(s.db, row.configId) && row.appliedAt == None
      && t == s.(db := s.db.(changes := s.db.changes[changeId := row]))
    case Claim(tx, claimed, now) =>
      && IsClaim(s.db.changes, Claimed(s.flights), claimed, now)
      && Begins(s, t, tx, Batching(claimed, 0, None, map[], now))
    case BatchRead(tx, loaded) => NextBatchRead(s, t, tx, loaded)
    case BatchWrite(tx, copied) => NextBatchWrite(s, t, tx, copied)
    case BatchSkip(tx) => NextBatchSkip(s, t, tx)
    case BatchCommit(tx, now) => NextBatchCommit(s, t, tx, now)
    case Abort(tx) => tx in s.flights && Ends(s, t, tx, s.db)
  }

  // ----- what every step keeps -----

  /** Where the payload of an edit in flight came from. */
  ghost predicate Provenance(row: ConfigRow, p: FlagUpdate, cause: Cause, base: Option<FlagConfiguration>) {
    match cause
    case Created => false
    case Replaced => true
    case RuleAdded(rule, read) =>
      base.Some? && ReadFrom(row, read, base.value) && CopiesWithRule(base.value, p.expectedVersion, rule, p)
    case RolledBack(target) => target in row.history && Copies(row.history[target].snapshot, p.expectedVersion, p)
    case Scheduled(_, _) => false
  }

  /** The rows a batch has updated so far: one new version each, made by the change it claimed for it. */
  ghost predicate StagedOk(
    configs: map<int, ConfigRow>, staged: map<int, ConfigRow>, changes: map<int, ChangeRow>, claimed: seq<int>,
    done: nat)
    requires AllKnown(changes, claimed) && done <= |claimed|
  {
    && staged.Keys <= configs.Keys
    && (forall i: nat :: i < done && Target(changes, claimed, i) in configs ==>
          && Target(changes, claimed, i) in staged
          && IsNext(configs[Target(changes, claimed, i)], staged[Target(changes, claimed, i)], claimed[i],
            changes[claimed[i]].change))
    && (forall id :: id in staged ==> exists i: nat :: i < done && Target(changes, claimed, i) == id)
  }

  ghost predicate ReadingOk(db: Tables, claimed: seq<int>, done: nat, l: Loaded)
    requires AllKnown(db.changes, claimed)
  {
    && done < |claimed| && Target(db.changes, claimed, done) in db.configs
    && ReadFrom(db.configs[Target(db.changes, claimed, done)], l.currentVersion, Compile(l))
  }

  ghost predicate BatchOk(
    db: Tables, claimed: seq<int>, done: nat, reading: Option<Loaded>, staged: map<int, ConfigRow>)
  {
    && AllKnown(db.changes, claimed) && done <= |claimed|
    && (forall i, j :: 0 <= i < j < |claimed| ==> claimed[i] != claimed[j])
    && (forall k :: k in claimed ==> db.changes[k].appliedAt == None)
    && StagedOk(db.configs, staged, db.changes, claimed, done)
    && (reading.Some? ==> ReadingOk(db, claimed, done, reading.value))
  }

  ghost predicate FlightOk(db: Tables, f: Flight) {
    match f
    case Editing(configId, p, cause, base) =>
      configId in db.configs && SchemaUpdate(p) && Provenance(db.configs[configId], p, cause, base)
    case Creating(_, p, _) => SchemaUpdate(p)
    case Archiving(_, _) => true
    case Batching(claimed, done, reading, staged, _) => BatchOk(db, claimed, done, reading, staged)
  }

  /** Claims are disjoint, and so are the rows that batches hold locked. */
  ghost predicate Exclusive(flights: map<int, Flight>) {
    forall a, b :: a in flights && b in flights && a != b && flights[a].Batching? && flights[b].Batching? ==>
      && (forall k :: k in flights[a].claimed ==> k !in flights[b].claimed)
      && flights[a].staged.Keys !! flights[b].staged.Keys
  }

  ghost predicate SameScheduled(a: Cause, b: Cause) {
    a.Scheduled? && b.Scheduled? && a.changeId == b.changeId
  }

  /** A version made by a scheduled change names an applied change of this row, and no two name the same one. */
  ghost predicate RowCauses(id: int, row: ConfigRow, changes: map<int, ChangeRow>) {
    && (forall v :: v in row.history && row.history[v].cause.Scheduled? ==>
          && row.history[v].cause.changeId in changes
          && changes[row.history[v].cause.changeId].configId == id
          && changes[row.history[v].cause.changeId].change == row.history[v].cause.change
          && changes[row.history[v].cause.changeId].appliedAt.Some?)
    && forall v, w ::
      v in row.history && w in row.history && SameScheduled(row.history[v].cause, row.history[w].cause) ==> v == w
  }

  /** An applied change whose configuration exists made one of its versions. */
  ghost predicate ChangeServed(k: int, change: ChangeRow, configs: map<int, ConfigRow>) {
    change.appliedAt.Some? && change.configId in configs ==>
      exists v :: v in configs[change.configId].history
               && configs[change.configId].history[v].cause == Scheduled(k, change.change)
  }

  ghost predicate TablesOk(db: Tables) {
    && (forall id :: id in db.configs ==> RowInvariant(db.configs[id]))
    && (forall id :: id in db.configs ==> RowCauses(id, db.configs[id], db.changes))
    && (forall k :: k in db.changes ==> ChangeServed(k, db.changes[k], db.configs))
  }

  ghost predicate Inv(s: System) {
    && TablesOk(s.db)
    && (forall tx :: tx in s.flights ==> FlightOk(s.db, s.flights[tx]))
    && Exclusive(s.flights)
  }

  /** Versions are added and never touched again. */
  ghost predicate RowGrows(before: ConfigRow, after: ConfigRow) {
    && after.identity == before.identity && before.currentVersion <= after.currentVersion
    && forall v :: v in before.history ==> v in after.history && after.history[v] == before.history[v]
  }

  ghost predicate TablesGrow(before: Tables, after: Tables) {
    && (forall id :: id in before.configs ==> id in after.configs && RowGrows(before.configs[id], after.configs[id]))
    && (forall k :: k in before.changes ==>
          && k in after.changes && after.changes[k].configId == before.changes[k].configId
          && after.changes[k].change == before.changes[k].change)
    && forall id, k :: id in after.configs && id !in before.configs && k in before.changes ==>
      before.changes[k].configId != id
  }

  /** The rows a batch has locked and the changes it has claimed stay as they are. */
  ghost predicate LeavesAlone(before: Tables, after: Tables, f: Flight) {
    f.Batching? ==>
      && (forall id :: id in f.staged && id in before.configs ==>
        id in after.configs && after.configs[id] == before.configs[id])
      && forall k :: k in f.claimed && k in before.changes ==>
        k in after.changes && after.changes[k] == before.changes[k]
  }

  lemma {:induction false} ExtensionGrows(before: ConfigRow, after: ConfigRow)
    requires Extends(before, after)
    ensures RowGrows(before, after)
  {
  }

  lemma {:induction false} ProvenanceSurvives(
    before: ConfigRow, after: ConfigRow, p: FlagUpdate, cause: Cause, base: Option<FlagConfiguration>)
    requires RowGrows(before, after) && Provenance(before, p, cause, base)
    ensures Provenance(after, p, cause, base)
  {
    hide CopiesWithRule, Copies, Accepted, SameContent;
  }

  lemma {:induction false} ClaimSurvives(before: Tables, after: Tables, f: Flight, i: nat)
    requires TablesGrow(before, after) && LeavesAlone(before, after, f)
    requires f.Batching? && AllKnown(before.changes, f.claimed) && i < |f.claimed|
    ensures f.claimed[i] in after.changes && after.changes[f.claimed[i]] == before.changes[f.claimed[i]]
    ensures Target(before.changes, f.claimed, i) in after.configs ==>
      Target(before.changes, f.claimed, i) in before.configs
  {
    hide RowGrows;
    var k := f.claimed[i];
    assert k in f.claimed && k in before.changes;
  }

  lemma {:induction false} StagedSurvives(before: Tables, after: Tables, f: Flight)
    requires TablesGrow(before, after) && LeavesAlone(before, after, f)
    requires f.Batching? && AllKnown(before.changes, f.claimed) && f.done <= |f.claimed|
    requires StagedOk(before.configs, f.staged, before.changes, f.claimed, f.done)
    ensures AllKnown(after.changes, f.claimed)
    ensures StagedOk(after.configs, f.staged, after.changes, f.claimed, f.done)
  {
    hide IsNext, RowGrows;
    forall i: nat | i < |f.claimed|
      ensures f.claimed[i] in after.changes && after.changes[f.claimed[i]] == before.changes[f.claimed[i]]
      ensures Target(before.changes, f.claimed, i) in after.configs ==>
        Target(before.changes, f.claimed, i) in before.configs
    {
      ClaimSurvives(before, after, f, i);
    }
    forall i: nat | i < f.done && Target(after.changes, f.claimed, i) in after.configs
      ensures var id := Target(after.changes, f.claimed, i);
        id in f.staged && IsNext(after.configs[id], f.staged[id], f.claimed[i], after.changes[f.claimed[i]].change)
    {
      assert Target(before.changes, f.claimed, i) == Target(after.changes, f.claimed, i);
    }
    forall id | id in f.staged ensures exists i: nat :: i < f.done && Target(after.changes, f.claimed, i) == id {
      var i: nat :| i < f.done && Target(before.changes, f.claimed, i) == id;
      assert Target(after.changes, f.claimed, i) == id;
    }
  }

  lemma {:induction false} ReadingSurvives(before: Tables, after: Tables, f: Flight)
    requires TablesGrow(before, after) && LeavesAlone(before, after, f)
    requires f.Batching? && AllKnown(before.changes, f.claimed) && AllKnown(after.changes, f.claimed)
    requires f.reading.Some? && ReadingOk(before, f.claimed, f.done, f.reading.value)
    ensures ReadingOk(after, f.claimed, f.done, f.reading.value)
  {
    hide Accepted, SameContent, Compile;
    ClaimSurvives(before, after, f, f.done);
    var id := Target(before.changes, f.claimed, f.done);
    assert RowGrows(before.configs[id], after.configs[id]);
  }

  lemma {:induction false} FlightSurvives(before: Tables, after: Tables, f: Flight)
    requires FlightOk(before, f) && TablesGrow(before, after) && LeavesAlone(before, after, f)
    ensures FlightOk(after, f)
  {
    hide StagedOk, ReadingOk, Provenance, RowGrows, SchemaUpdate;
    match f {
      case Editing(configId, p, cause, base) =>
        ProvenanceSurvives(before.configs[configId], after.configs[configId], p, cause, base);
      case Batching(claimed, done, reading, staged, _) =>
        StagedSurvives(before, after, f);
        if reading.Some? {
          ReadingSurvives(before, after, f);
        }
      case _ =>
    }
  }
}
