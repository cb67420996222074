/**
 * The configuration export and its ETag, which is the environment's revision
 * (backend/app/api/management.py:567-603, If-None-Match of RFC 9110 section 13.1.2).
 */
module Export {
  import opened Prelude
  import opened Sorting
  import opened Configuration
  import opened Rows
  import opened Payloads
  import opened Schedule
  import opened Store
  import opened Service
  import opened Scheduler
  import opened Protocol
  import opened Safety
  import opened Runs

  /** What an export can show of a configuration: the row and its children, not its history. */
  datatype Live = Live(
    identity: Identity, enabled: bool, defaultVariation: string, currentVersion: int, children: Children)

  function LiveOf(row: ConfigRow): Live {
    Live(row.identity, row.enabled, row.defaultVariation, row.currentVersion, row.children)
  }

  predicate Shown(configs: map<int, ConfigRow>, archived: set<string>, e: string, id: int) {
    id in configs && configs[id].identity.environmentId == e && configs[id].identity.flagId !in archived
  }

  /** The live configurations of an environment. */
  function Bundle(db: Tables, e: string): map<int, Live> {
    map id | id in db.configs && Shown(db.configs, db.archived, e, id) :: LiveOf(db.configs[id])
  }

  datatype Answer = NotFound | NotModified | Exported(revision: int, flags: seq<FlagConfiguration>)

  /** Where the database's collation puts the key of a row's flag. */
  function Place(configs: map<int, ConfigRow>, collation: string -> int, id: int): int {
    if id in configs then collation(configs[id].identity.flagKey) else 0
  }

  /** The query for an environment's live configurations, ordered by flag key. */
  method ShownIds(configs: map<int, ConfigRow>, archived: set<string>, e: string, collation: string -> int)
    returns (ids: seq<int>)
    ensures forall id :: id in ids <==> Shown(configs, archived, e, id)
    ensures forall i, j :: 0 <= i < j < |ids| ==> ids[i] != ids[j]
    ensures forall i, j :: 0 <= i < j < |ids| ==> Place(configs, collation, ids[i]) <= Place(configs, collation, ids[j])
  {
    var shown := [];
    var rest := configs.Keys;
    while rest != {}
      invariant rest <= configs.Keys
      invariant forall id :: id in shown <==> id !in rest && Shown(configs, archived, e, id)
      invariant forall i, j :: 0 <= i < j < |shown| ==> shown[i] != shown[j]
      decreases |rest|
    {
      var id := Pick(rest);
      rest := rest - {id};
      if Shown(configs, archived, e, id) {
        shown := shown + [id];
      }
    }
    var key := (id: int) => Place(configs, collation, id);
    ids := SortBy(shown, key);
    SortedPermutation(shown, key);
    DistinctKeysOfPermutation(shown, ids, (id: int) => id);
    forall id ensures id in ids <==> id in shown {
      InBoth(ids, shown, id);
    }
    forall i, j | 0 <= i < j < |ids| ensures Place(configs, collation, ids[i]) <= Place(configs, collation, ids[j]) {
      assert key(ids[i]) <= key(ids[j]);
    }
  }

  /**
   * `export_configuration`; ids names the row behind each exported flag. The project owning the
   * environment is None when there is no such environment.
   */
  method ExportConfiguration(
    db: Database, projectId: string, e: string, owner: Option<string>, collation: string -> int,
    ifNoneMatch: Option<int>)
    returns (r: Answer, ids: seq<int>)
    ensures r.NotFound? <==> owner != Some(projectId)
    ensures r.NotModified? <==> owner == Some(projectId) && ifNoneMatch == Some(Revision(db.revisions, e))
    ensures r.Exported? ==>
      && r.revision == Revision(db.revisions, e) && |ids| == |r.flags|
      && (forall id :: id in ids <==> Shown(db.configs, db.archived, e, id))
      && (forall i, j :: 0 <= i < j < |ids| ==> ids[i] != ids[j])
      && (forall i :: 0 <= i < |ids| ==> ids[i] in db.configs && CompiledFrom(db.configs[ids[i]], r.flags[i]))
      && forall i, j :: 0 <= i < j < |ids| ==>
           collation(db.configs[ids[i]].identity.flagKey) <= collation(db.configs[ids[j]].identity.flagKey)
  {
    hide Compile, IsReading;
    if owner != Some(projectId) {
      return NotFound, [];
    }
    var revision := Revision(db.revisions, e);
    if ifNoneMatch == Some(revision) {
      return NotModified, [];
    }
    ids := ShownIds(db.configs, db.archived, e, collation);
    assert forall id :: id in ids ==> id in db.configs;
    var flags: seq<FlagConfiguration> := [];
    for i := 0 to |ids|
      invariant |flags| == i
      invariant forall k :: 0 <= k < i ==> ids[k] in db.configs && CompiledFrom(db.configs[ids[k]], flags[k])
    {
      var l := Load(db.configs[ids[i]]);
      flags := flags + [Compile(l)];
    }
    r := Exported(revision, flags);
  }

  /** Equal bundles are equal for every reader: the same configurations, each compiling to the same results. */
  lemma {:induction false} BundlesExportAlike(before: Tables, after: Tables, e: string)
    requires Bundle(before, e) == Bundle(after, e)
    ensures forall id :: Shown(before.configs, before.archived, e, id) <==> Shown(after.configs, after.archived, e, id)
    ensures forall id, l :: Shown(before.configs, before.archived, e, id) && id in after.configs ==>
      (IsReading(before.configs[id], l) <==> IsReading(after.configs[id], l))
  {
    forall id ensures Shown(before.configs, before.archived, e, id) <==> id in Bundle(before, e) {
    }
    forall id ensures Shown(after.configs, after.archived, e, id) <==> id in Bundle(after, e) {
    }
    forall id, l | Shown(before.configs, before.archived, e, id) && id in after.configs
      ensures IsReading(before.configs[id], l) <==> IsReading(after.configs[id], l)
    {
      assert LiveOf(before.configs[id]) == Bundle(before, e)[id] == Bundle(after, e)[id] == LiveOf(after.configs[id]);
    }
  }

  // ----- revisions -----

  /**
   * The writes of creating and archiving go back to a revision read when the transaction began.
   * They are undisturbed if nobody has raised the revision since, or if they show no difference: a
   * creation that fails, an archiving that repeats one and only repeats its revision.
   */
  ghost predicate Undisturbed(s: System, step: Step) {
    match step
    case FinishCreate(tx, _) =>
      tx in s.flights && s.flights[tx].Creating? ==>
        var f := s.flights[tx];
        || KeyTaken(s.db.configs, f.identity) || Create(f.identity, f.payload).Err?
        || Revision(s.db.revisions, f.identity.environmentId) <= f.seen
    case FinishArchive(tx) =>
      tx in s.flights && s.flights[tx].Archiving? ==>
        var f := s.flights[tx];
        forall e :: e in f.seenRevisions ==> RevisionUnspent(s.db, f.flagId, e, f.seenRevisions[e])
    case _ => true
  }

  predicate RevisionUnspent(db: Tables, flagId: string, e: string, seen: int) {
    Revision(db.revisions, e) <= seen || (Revision(db.revisions, e) == seen + 1 && flagId in db.archived)
  }

  /** Either the bundle and its revision stay, or the revision rises. */
  ghost predicate RisesOrStays(before: Tables, after: Tables, e: string) {
    || Revision(after.revisions, e) > Revision(before.revisions, e)
    || (Revision(after.revisions, e) == Revision(before.revisions, e) && Bundle(after, e) == Bundle(before, e))
  }

  ghost predicate AllRiseOrStay(before: Tables, after: Tables) {
    forall e :: RisesOrStays(before, after, e)
  }

  lemma {:induction false} BumpedAllRises(revisions: map<string, int>, environments: seq<string>, e: string)
    ensures Revision(BumpedAll(revisions, environments), e) >= Revision(revisions, e)
    ensures e in environments ==> Revision(BumpedAll(revisions, environments), e) > Revision(revisions, e)
  {
    if environments != [] {
      var front := environments[..|environments| - 1];
      BumpedAllRises(revisions, front, e);
      assert environments == front + [environments[|environments| - 1]];
    }
  }

  lemma {:induction false} EnvironmentListed(
    configs: map<int, ConfigRow>, changes: map<int, ChangeRow>, claimed: seq<int>, i: nat)
    requires i < |claimed| && claimed[i] in changes && changes[claimed[i]].configId in configs
    ensures configs[changes[claimed[i]].configId].identity.environmentId in Environments(configs, changes, claimed)
  {
    if i < |claimed| - 1 {
      EnvironmentListed(configs, changes, claimed[..|claimed| - 1], i);
    }
  }

  lemma {:induction false} CommitRises(s: System, t: System, tx: int, now: int, e: string)
    requires Inv(s) && NextBatchCommit(s, t, tx, now)
    ensures RisesOrStays(s.db, t.db, e)
  {
    hide Inv, IsNext, BumpedAll, Environments, RowInvariant, MarkApplied;
    var f := s.flights[tx];
    CommitIsOfWholeBatch(s, t, tx, now);
    hide NextBatchCommit, BatchOk;
    StagedAreRows(s.db, f.claimed, f.staged);
    var environments := Environments(s.db.configs, s.db.changes, f.claimed);
    BumpedAllRises(s.db.revisions, environments, e);
    if e !in environments {
      forall id | id in f.staged
        ensures id in s.db.configs && s.db.configs[id].identity.environmentId != e
        ensures f.staged[id].identity == s.db.configs[id].identity
      {
        var i := StagedBy(s.db, f.claimed, f.staged, id);
        EnvironmentListed(s.db.configs, s.db.changes, f.claimed, i);
        NextKeepsIdentity(s.db.configs[id], f.staged[id], f.claimed[i], s.db.changes[f.claimed[i]].change);
      }
      assert Bundle(t.db, e) == Bundle(s.db, e);
    }
  }

  lemma {:induction false} NextKeepsIdentity(before: ConfigRow, after: ConfigRow, changeId: int, change: Change)
    requires IsNext(before, after, changeId, change)
    ensures after.identity == before.identity
  {
    hide RowInvariant;
  }

  lemma {:induction false} RowElsewhere(before: Tables, after: Tables, id: int, e: string)
    requires id in after.configs && after.configs.Keys == before.configs.Keys + {id}
      && after.archived == before.archived
    requires forall k :: k in before.configs && k != id ==> after.configs[k] == before.configs[k]
    requires after.configs[id].identity.environmentId != e
    requires id in before.configs ==> before.configs[id].identity.environmentId != e
    ensures Bundle(after, e) == Bundle(before, e)
  {
    hide LiveOf;
  }

  lemma {:induction false} EditRises(s: System, t: System, tx: int, e: string)
    requires NextFinishEdit(s, t, tx)
    ensures RisesOrStays(s.db, t.db, e)
  {
    hide Locked;
    var f := s.flights[tx];
    var row := s.db.configs[f.configId];
    if Update(row, f.payload, f.cause).Ok? {
      UpdateKeepsIdentity(row, f.payload, f.cause);
      hide Update;
      if row.identity.environmentId != e {
        RowElsewhere(s.db, t.db, f.configId, e);
      }
    }
  }

  lemma {:induction false} UpdateKeepsIdentity(row: ConfigRow, p: FlagUpdate, cause: Cause)
    requires Update(row, p, cause).Ok?
    ensures Update(row, p, cause).value.identity == row.identity
  {
    hide Build, ChildrenOf;
  }

  lemma {:induction false} CreateKeepsIdentity(id: Identity, p: FlagUpdate)
    requires Create(id, p).Ok?
    ensures Create(id, p).value.identity == id
  {
    hide Build, ChildrenOf;
  }

  lemma {:induction false} CreationShows(s: System, t: System, tx: int, configId: int)
    requires NextFinishCreate(s, t, tx, configId) && configId in t.db.configs
    ensures var e := s.flights[tx].identity.environmentId;
      && Shown(t.db.configs, t.db.archived, e, configId) && configId !in s.db.configs
      && Revision(t.db.revisions, e) == s.flights[tx].seen + 1
  {
    hide Create, KeyTaken;
    CreateKeepsIdentity(s.flights[tx].identity, s.flights[tx].payload);
  }

  lemma {:induction false} CreationSucceeds(s: System, t: System, tx: int, configId: int)
    requires NextFinishCreate(s, t, tx, configId)
    ensures var f := s.flights[tx];
      configId in t.db.configs <==> !KeyTaken(s.db.configs, f.identity) && Create(f.identity, f.payload).Ok?
  {
    hide Create, KeyTaken, EnvironmentsOf;
  }

  lemma {:induction false} CreateRises(s: System, t: System, tx: int, configId: int)
    requires NextFinishCreate(s, t, tx, configId)
    ensures Undisturbed(s, FinishCreate(tx, configId)) <==> AllRiseOrStay(s.db, t.db)
  {
    hide Create, KeyTaken, EnvironmentsOf;
    CreationSucceeds(s, t, tx, configId);
    if configId in t.db.configs {
      CreationShows(s, t, tx, configId);
      var home := s.flights[tx].identity.environmentId;
      assert configId in Bundle(t.db, home) && configId !in Bundle(s.db, home);
      forall e | e != home ensures RisesOrStays(s.db, t.db, e) {
        RowElsewhere(s.db, t.db, configId, e);
      }
      hide Bundle;
      assert RisesOrStays(s.db, t.db, home) <==> Revision(s.db.revisions, home) <= s.flights[tx].seen;
    }
  }

  /** An archiving transaction has read the revision of every environment its flag is in. */
  ghost predicate ArchivesKnow(s: System) {
    forall tx :: tx in s.flights && s.flights[tx].Archiving? ==>
      s.flights[tx].seenRevisions.Keys == EnvironmentsOf(s.db.configs, s.flights[tx].flagId) != {}
  }

  lemma {:induction false} ArchiveHides(s: System, t: System, tx: int, e: string) returns (id: int)
    requires ArchivesKnow(s) && NextFinishArchive(s, t, tx) && e in s.flights[tx].seenRevisions
    ensures id in s.db.configs && s.db.configs[id].identity.flagId == s.flights[tx].flagId
    ensures s.db.configs[id].identity.environmentId == e && !Shown(t.db.configs, t.db.archived, e, id)
    ensures Revision(t.db.revisions, e) == s.flights[tx].seenRevisions[e] + 1
  {
    assert e in EnvironmentsOf(s.db.configs, s.flights[tx].flagId);
    id :| id in s.db.configs && s.db.configs[id].identity.flagId == s.flights[tx].flagId
          && s.db.configs[id].identity.environmentId == e;
  }

  lemma {:induction false} ArchiveRisesAt(s: System, t: System, tx: int, e: string)
    requires ArchivesKnow(s) && NextFinishArchive(s, t, tx)
    ensures RisesOrStays(s.db, t.db, e) <==>
      e in s.flights[tx].seenRevisions ==>
        RevisionUnspent(s.db, s.flights[tx].flagId, e, s.flights[tx].seenRevisions[e])
  {
    var f := s.flights[tx];
    if e !in f.seenRevisions {
      forall id | id in s.db.configs && s.db.configs[id].identity.flagId == f.flagId
        ensures s.db.configs[id].identity.environmentId in f.seenRevisions
      {
        assert s.db.configs[id].identity.environmentId in EnvironmentsOf(s.db.configs, f.flagId);
      }
      assert Bundle(t.db, e) == Bundle(s.db, e);
    } else {
      var id := ArchiveHides(s, t, tx, e);
      hide EnvironmentsOf;
      if f.flagId in s.db.archived {
        assert s.db.archived + {f.flagId} == s.db.archived;
      } else {
        assert id in Bundle(s.db, e) && id !in Bundle(t.db, e);
      }
    }
  }

  lemma {:induction false} ArchiveRises(s: System, t: System, tx: int)
    requires ArchivesKnow(s) && NextFinishArchive(s, t, tx)
    ensures Undisturbed(s, FinishArchive(tx)) <==> AllRiseOrStay(s.db, t.db)
  {
    hide ArchivesKnow, RisesOrStays, RevisionUnspent;
    forall e
      ensures RisesOrStays(s.db, t.db, e) <==>
        e in s.flights[tx].seenRevisions ==>
          RevisionUnspent(s.db, s.flights[tx].flagId, e, s.flights[tx].seenRevisions[e])
    {
      ArchiveRisesAt(s, t, tx, e);
    }
  }

  /**
   * In every environment a step raises the revision or leaves revision and bundle alone, exactly if it
   * is undisturbed.
   */
  lemma {:induction false} StepRisesExactly(s: System, step: Step, t: System)
    requires Inv(s) && ArchivesKnow(s) && Next(s, step, t)
    ensures Undisturbed(s, step) <==> AllRiseOrStay(s.db, t.db)
  {
    if !Writes(step) {
      OtherStepsLeaveTheDatabase(s, step, t);
    } else {
      hide Inv, ArchivesKnow, RisesOrStays, NextFinishEdit, NextFinishCreate, NextFinishArchive, NextBatchCommit;
      match step {
        case FinishEdit(tx) =>
          forall e ensures RisesOrStays(s.db, t.db, e) {
            EditRises(s, t, tx, e);
          }
        case FinishCreate(tx, configId) => CreateRises(s, t, tx, configId);
        case FinishArchive(tx) => ArchiveRises(s, t, tx);
        case BatchCommit(tx, now) =>
          forall e ensures RisesOrStays(s.db, t.db, e) {
            CommitRises(s, t, tx, now, e);
          }
        case ScheduleChange(changeId, row) =>
          forall e ensures RisesOrStays(s.db, t.db, e) {
            SameRowsSameBundle(s.db, t.db, e);
          }
      }
    }
  }

  lemma {:induction false} SameRowsSameBundle(before: Tables, after: Tables, e: string)
    requires after.configs == before.configs && after.archived == before.archived && after.revisions == before.revisions
    ensures RisesOrStays(before, after, e)
  {
  }

  /** A row keeps its identity, and a flag that has a configuration gets no other. */
  ghost predicate KeepsFlags(before: Tables, after: Tables) {
    forall flagId :: EnvironmentsOf(before.configs, flagId) != {} ==>
      EnvironmentsOf(after.configs, flagId) == EnvironmentsOf(before.configs, flagId)
  }

  lemma {:induction false} SameIdentitiesKeepFlags(before: Tables, after: Tables)
    requires forall id :: id in before.configs ==>
      id in after.configs && after.configs[id].identity == before.configs[id].identity
    requires forall id :: id in after.configs && id !in before.configs ==>
      EnvironmentsOf(before.configs, after.configs[id].identity.flagId) == {}
    ensures KeepsFlags(before, after)
  {
    forall flagId | EnvironmentsOf(before.configs, flagId) != {}
      ensures EnvironmentsOf(after.configs, flagId) == EnvironmentsOf(before.configs, flagId)
    {
      forall e | e in EnvironmentsOf(after.configs, flagId) ensures e in EnvironmentsOf(before.configs, flagId) {
        var id :|
          id in after.configs && after.configs[id].identity.flagId == flagId
            && after.configs[id].identity.environmentId == e;
      }
      forall e | e in EnvironmentsOf(before.configs, flagId) ensures e in EnvironmentsOf(after.configs, flagId) {
        var id :|
          id in before.configs && before.configs[id].identity.flagId == flagId
            && before.configs[id].identity.environmentId == e;
      }
    }
  }

  lemma {:induction false} StepKeepsFlags(s: System, step: Step, t: System)
    requires Inv(s) && Next(s, step, t)
    ensures KeepsFlags(s.db, t.db)
  {
    hide Inv, EnvironmentsOf, NextFinishEdit, NextFinishArchive, NextBatchCommit, KeyTaken, Create;
    StepKeepsInv(s, step, t);
    forall id | id in s.db.configs
      ensures id in t.db.configs && t.db.configs[id].identity == s.db.configs[id].identity
    {
      assert RowGrows(s.db.configs[id], t.db.configs[id]);
    }
    forall id | id in t.db.configs && id !in s.db.configs
      ensures EnvironmentsOf(s.db.configs, t.db.configs[id].identity.flagId) == {}
    {
      NewRowsAreCreated(s, step, t, id);
      CreateKeepsIdentity(s.flights[step.tx].identity, s.flights[step.tx].payload);
    }
    SameIdentitiesKeepFlags(s.db, t.db);
  }

  lemma {:induction false} NewRowsAreCreated(s: System, step: Step, t: System, id: int)
    requires Inv(s) && Next(s, step, t) && id in t.db.configs && id !in s.db.configs
    ensures step.FinishCreate? && step.tx in s.flights && s.flights[step.tx].Creating?
    ensures EnvironmentsOf(s.db.configs, s.flights[step.tx].identity.flagId) == {}
    ensures Create(s.flights[step.tx].identity, s.flights[step.tx].payload).Ok?
    ensures t.db.configs[id] == Create(s.flights[step.tx].identity, s.flights[step.tx].payload).value
  {
    hide EnvironmentsOf, KeyTaken, Create, Update, Environments, BumpedAll, MarkApplied, TablesOk, Exclusive, Locked;
    if !Writes(step) {
      OtherStepsLeaveTheDatabase(s, step, t);
    } else if step.BatchCommit? {
      CommitIsOfWholeBatch(s, t, step.tx, step.now);
      StagedAreRows(s.db, s.flights[step.tx].claimed, s.flights[step.tx].staged);
    }
  }

  lemma {:induction false} StepKeepsArchives(s: System, step: Step, t: System)
    requires Inv(s) && ArchivesKnow(s) && Next(s, step, t)
    ensures ArchivesKnow(t)
  {
    StepKeepsFlags(s, step, t);
    forall tx | tx in t.flights && t.flights[tx].Archiving?
      ensures t.flights[tx].seenRevisions.Keys == EnvironmentsOf(t.db.configs, t.flights[tx].flagId) != {}
    {
      ArchivesAreOld(s, step, t, tx);
      hide Next, Inv;
      assert tx in s.flights && s.flights[tx] == t.flights[tx] ==>
        EnvironmentsOf(s.db.configs, t.flights[tx].flagId) != {};
    }
  }

  lemma {:induction false} ArchivesAreOld(s: System, step: Step, t: System, tx: int)
    requires Next(s, step, t) && tx in t.flights && t.flights[tx].Archiving?
    ensures (tx in s.flights && s.flights[tx] == t.flights[tx])
      || (t.db == s.db && t.flights[tx].seenRevisions.Keys == EnvironmentsOf(s.db.configs, t.flights[tx].flagId) != {})
  {
    hide EnvironmentsOf, KeyTaken, Create, Update, Environments, BumpedAll, MarkApplied, Locked, Applied, Copies,
      CopiesWithRule, IsReading, Compile, IsClaim, SchemaUpdate, SchemaRule;
  }

  // ----- runs -----

  ghost predicate UndisturbedFrom(states: seq<System>, steps: seq<Step>, i: nat, k: nat)
    requires IsRun(states, steps) && k < |states|
  {
    forall j: nat :: i <= j < k ==> Undisturbed(states[j], steps[j])
  }

  lemma {:induction false} ArchivesKnowInRun(states: seq<System>, steps: seq<Step>, i: nat)
    requires IsRun(states, steps) && ArchivesKnow(states[0]) && i < |states|
    ensures ArchivesKnow(states[i])
  {
    hide Inv, Next, ArchivesKnow;
    if i > 0 {
      ArchivesKnowInRun(states, steps, i - 1);
      RunStep(states, steps, i - 1);
      StepKeepsArchives(states[i - 1], steps[i - 1], states[i]);
    }
  }

  /** Revisions do not fall, and while one stays the same so does what it stands for. */
  lemma {:induction false} RevisionStandsForBundle(states: seq<System>, steps: seq<Step>, e: string, i: nat, k: nat)
    requires IsRun(states, steps) && ArchivesKnow(states[0]) && i <= k < |states|
      && UndisturbedFrom(states, steps, i, k)
    ensures RisesOrStays(states[i].db, states[k].db, e)
    decreases k
  {
    hide Inv, Next, ArchivesKnow, Bundle, Undisturbed;
    if i < k {
      RevisionStandsForBundle(states, steps, e, i, k - 1);
      RunStep(states, steps, k - 1);
      ArchivesKnowInRun(states, steps, k - 1);
      assert Undisturbed(states[k - 1], steps[k - 1]);
      StepRisesExactly(states[k - 1], steps[k - 1], states[k]);
      assert RisesOrStays(states[k - 1].db, states[k].db, e);
    }
  }

  /**
   * A stretch of a run is undisturbed if and only if between any two of its moments, in every
   * environment, the revision rises or revision and bundle stay.
   */
  lemma {:induction false} UndisturbedExactly(states: seq<System>, steps: seq<Step>, i: nat, k: nat)
    requires IsRun(states, steps) && ArchivesKnow(states[0]) && i <= k < |states|
    ensures UndisturbedFrom(states, steps, i, k) <==>
      forall a: nat, b: nat :: i <= a <= b <= k ==> AllRiseOrStay(states[a].db, states[b].db)
  {
    hide Inv, Next, ArchivesKnow, RisesOrStays, Undisturbed;
    if UndisturbedFrom(states, steps, i, k) {
      forall a: nat, b: nat, e | i <= a <= b <= k ensures RisesOrStays(states[a].db, states[b].db, e) {
        assert UndisturbedFrom(states, steps, a, b);
        RevisionStandsForBundle(states, steps, e, a, b);
      }
    }
    if forall a: nat, b: nat :: i <= a <= b <= k ==> AllRiseOrStay(states[a].db, states[b].db) {
      forall j: nat | i <= j < k ensures Undisturbed(states[j], steps[j]) {
        RunStep(states, steps, j);
        ArchivesKnowInRun(states, steps, j);
        StepRisesExactly(states[j], steps[j], states[j + 1]);
        assert AllRiseOrStay(states[j].db, states[j + 1].db);
      }
    }
  }

  /**
   * An export read the revision at moment i and the configurations at a later moment j; at moment k
   * its ETag still matches and the answer is 304. Then what the client holds is what it would get.
   */
  lemma {:induction false} NotModifiedIsCurrent(
    states: seq<System>, steps: seq<Step>, e: string, i: nat, j: nat, k: nat)
    requires IsRun(states, steps) && ArchivesKnow(states[0]) && i <= j <= k < |states|
    requires UndisturbedFrom(states, steps, i, k)
    requires Revision(states[k].db.revisions, e) == Revision(states[i].db.revisions, e)
    ensures Bundle(states[k].db, e) == Bundle(states[j].db, e) == Bundle(states[i].db, e)
  {
    hide Inv, Next, ArchivesKnow, Bundle, Undisturbed, IsRun;
    assert UndisturbedFrom(states, steps, i, j) && UndisturbedFrom(states, steps, j, k);
    RevisionStandsForBundle(states, steps, e, i, j);
    RevisionStandsForBundle(states, steps, e, j, k);
  }
}
