/** One pass of a scheduler worker (backend/app/scheduler/__init__.py:61-125). */
module Scheduler {
  import opened Prelude
  import opened Sorting
  import opened Configuration
  import opened Rows
  import opened Payloads
  import opened Schedule
  import opened Store
  import opened Service

  /** Rows are distinct: a list of them in any order names each once. */
  lemma {:induction false} ListedOnce(ids: set<int>, s: seq<int>, i: nat, j: nat)
    requires multiset(s) == multiset(ids) && i < j < |s|
    ensures s[i] != s[j]
  {
    MultisetWithout(s, i);
    assert Without(s, i)[j - 1] == s[j];
    assert s[j] in multiset(Without(s, i));
  }

  lemma {:induction false} FirstRowsAreAClaim(
    changes: map<int, ChangeRow>, locked: set<int>, ids: seq<int>, ordered: seq<int>, now: int)
    requires forall id :: id in ids <==> Due(changes, id, now) && id !in locked
    requires multiset(ordered) == multiset(ids)
    requires forall i, j :: 0 <= i < j < |ordered| ==> ordered[i] != ordered[j]
    requires forall i, j :: 0 <= i < j < |ordered| ==>
      ActivateAt(changes, ordered[i]) <= ActivateAt(changes, ordered[j])
    ensures IsClaim(changes, locked, ordered[..if |ordered| < BATCH_LIMIT then |ordered| else BATCH_LIMIT], now)
  {
    hide Due, ActivateAt;
    forall id ensures id in ordered <==> id in ids {
      InBoth(ordered, ids, id);
    }
    var claimed := ordered[..if |ordered| < BATCH_LIMIT then |ordered| else BATCH_LIMIT];
    forall id | Due(changes, id, now) && id !in locked && id !in claimed
      ensures |claimed| == BATCH_LIMIT && forall i :: 0 <= i < |claimed| ==>
        ActivateAt(changes, claimed[i]) <= ActivateAt(changes, id)
    {
      assert id in ordered;
      var k :| 0 <= k < |ordered| && ordered[k] == id;
      assert forall i :: 0 <= i < |claimed| ==> ordered[i] == claimed[i] && claimed[i] != id;
    }
  }

  /** The row is unapplied, its instant has come, and nobody else has it locked. */
  predicate Claimable(changes: map<int, ChangeRow>, locked: set<int>, now: int, k: int) {
    k in changes && changes[k].appliedAt == None && changes[k].activateAt <= now && k !in locked
  }

  /** A claim, read off the rows: due rows in their order, all of them or the first twenty. */
  lemma {:induction false} ClaimExactly(changes: map<int, ChangeRow>, locked: set<int>, claimed: seq<int>, now: int)
    ensures IsClaim(changes, locked, claimed, now) <==>
      && |claimed| <= 20
      && (forall i, j :: 0 <= i < j < |claimed| ==> claimed[i] != claimed[j])
      && (forall i :: 0 <= i < |claimed| ==> Claimable(changes, locked, now, claimed[i]))
      && (forall i, j :: 0 <= i < j < |claimed| ==> changes[claimed[i]].activateAt <= changes[claimed[j]].activateAt)
      && forall k :: Claimable(changes, locked, now, k) && k !in claimed ==>
           |claimed| == 20 && forall i :: 0 <= i < |claimed| ==> changes[claimed[i]].activateAt <= changes[k].activateAt
  {
    forall k ensures Claimable(changes, locked, now, k) <==> Due(changes, k, now) && k !in locked {
    }
  }

  /** The due rows `with_for_update(skip_locked=True)` returns. */
  method ClaimDue(changes: map<int, ChangeRow>, locked: set<int>, now: int) returns (claimed: seq<int>)
    ensures IsClaim(changes, locked, claimed, now)
    ensures forall k :: k in claimed ==> Claimable(changes, locked, now, k)
    ensures forall k :: Claimable(changes, locked, now, k) && |claimed| < 20 ==> k in claimed
  {
    hide IsClaim;
    var due := set id | id in changes && Due(changes, id, now) && id !in locked;
    var ids := ReadAll(multiset(due));
    forall id ensures id in ids <==> id in due {
      assert id in ids <==> id in multiset(ids);
    }
    forall i, j | 0 <= i < j < |ids| ensures ids[i] != ids[j] {
      ListedOnce(due, ids, i, j);
    }
    var key := (id: int) => ActivateAt(changes, id);
    var ordered := SortBy(ids, key);
    SortedPermutation(ids, key);
    DistinctKeysOfPermutation(ids, ordered, (id: int) => id);
    forall i, j | 0 <= i < j < |ordered| ensures ActivateAt(changes, ordered[i]) <= ActivateAt(changes, ordered[j]) {
      assert key(ordered[i]) <= key(ordered[j]);
    }
    FirstRowsAreAClaim(changes, locked, ids, ordered, now);
    claimed := ordered[..if |ordered| < BATCH_LIMIT then |ordered| else BATCH_LIMIT];
    ClaimExactly(changes, locked, claimed, now);
    hide Claimable;
  }

  /**
   * One change on one configuration row: it goes through exactly when the change leaves the
   * current snapshot valid, and adds the version that is that change applied to that snapshot.
   */
  method ApplyOne(row: ConfigRow, changeId: int, change: Change) returns (r: Outcome<ConfigRow>)
    requires RowInvariant(row)
    ensures row.currentVersion in row.history
    ensures r.Returned? <==> WellFormed(change) && Valid(Changed(Current(row), change))
    ensures r.Returned? ==> IsNext(row, r.value, changeId, change)
  {
    hide Build, LoadedChildren, Accepted, SchemaUpdate, Copies, Sound, Extends, RowInvariant, SameContent, Compile,
      Valid, Changed, ChildrenOf;
    RowIsSound(row);
    PositiveVersion(row);
    var l := Load(row);
    ReadingIsReadFrom(row, l);
    var compiled := Compile(l);
    var copied := UpdateFromConfiguration(compiled, row.currentVersion);
    var payload := ApplyPayload(change, copied.value);
    if payload.Raised? {
      return Raised;
    }
    ScheduledKeeps(row, payload.value, copied.value, changeId, change, compiled);
    var updated := Update(row, payload.value, Scheduled(changeId, change));
    if updated.Err? {
      return Raised;
    }
    UpdateExtends(row, payload.value, Scheduled(changeId, change));
    return Returned(updated.value);
  }

  /** `after` is `before` with the version a scheduled change makes of it. */
  ghost predicate IsNext(before: ConfigRow, after: ConfigRow, changeId: int, change: Change) {
    && RowInvariant(after) && Extends(before, after)
    && after.currentVersion in after.history
    && after.history[after.currentVersion].cause == Scheduled(changeId, change)
  }

  // ----- the transaction -----

  ghost predicate AllKnown(changes: map<int, ChangeRow>, claimed: seq<int>) {
    forall i :: 0 <= i < |claimed| ==> claimed[i] in changes
  }

  function Target(changes: map<int, ChangeRow>, claimed: seq<int>, i: nat): int
    requires i < |claimed| && claimed[i] in changes
  {
    changes[claimed[i]].configId
  }

  /** Every claimed change can be carried out, and no two of them are for one configuration. */
  ghost predicate Feasible(
    configs: map<int, ConfigRow>, archived: set<string>, changes: map<int, ChangeRow>, claimed: seq<int>)
    requires AllKnown(changes, claimed)
  {
    && (forall i :: 0 <= i < |claimed| ==> Applicable(configs, archived, changes[claimed[i]]))
    && forall i: nat, j: nat :: i < j < |claimed| && Target(changes, claimed, i) in configs ==>
         Target(changes, claimed, i) != Target(changes, claimed, j)
  }

  function MarkApplied(changes: map<int, ChangeRow>, claimed: seq<int>, now: int): map<int, ChangeRow> {
    map id | id in changes :: if id in claimed then changes[id].(appliedAt := Some(now)) else changes[id]
  }

  function Environments(configs: map<int, ConfigRow>, changes: map<int, ChangeRow>, claimed: seq<int>): seq<string> {
    if claimed == [] then []
    else
      var last := claimed[|claimed| - 1];
      Environments(configs, changes, claimed[..|claimed| - 1])
      + if last in changes && changes[last].configId in configs
        then [configs[changes[last].configId].identity.environmentId] else []
  }

  /** The rows as a batch leaves them: one version more where a change was claimed, untouched elsewhere. */
  ghost predicate Carried(
    before: map<int, ConfigRow>, after: map<int, ConfigRow>, changes: map<int, ChangeRow>, claimed: seq<int>)
    requires AllKnown(changes, claimed)
  {
    && after.Keys == before.Keys
    && (forall i: nat :: i < |claimed| && Target(changes, claimed, i) in before ==>
          IsNext(before[Target(changes, claimed, i)], after[Target(changes, claimed, i)], claimed[i],
            changes[claimed[i]].change))
    && forall id :: id in before && (forall i: nat :: i < |claimed| ==> Target(changes, claimed, i) != id) ==>
      after[id] == before[id]
  }

  ghost predicate FirstUse(changes: map<int, ChangeRow>, claimed: seq<int>, i: nat)
    requires i < |claimed| && AllKnown(changes, claimed)
  {
    forall j: nat :: j < i ==> Target(changes, claimed, j) != Target(changes, claimed, i)
  }

  lemma {:induction false} TargetsOfPrefix(changes: map<int, ChangeRow>, claimed: seq<int>, n: nat)
    requires n <= |claimed| && AllKnown(changes, claimed)
    ensures AllKnown(changes, claimed[..n])
    ensures forall j: nat :: j < n ==> Target(changes, claimed[..n], j) == Target(changes, claimed, j)
  {
  }

  lemma {:induction false} FeasibleStep(
    configs: map<int, ConfigRow>, archived: set<string>, changes: map<int, ChangeRow>, claimed: seq<int>, i: nat)
    requires AllKnown(changes, claimed) && i < |claimed|
    ensures AllKnown(changes, claimed[..i]) && AllKnown(changes, claimed[..i + 1])
    ensures Feasible(configs, archived, changes, claimed[..i + 1]) <==>
            && Feasible(configs, archived, changes, claimed[..i])
            && Applicable(configs, archived, changes[claimed[i]])
            && (Target(changes, claimed, i) in configs ==> FirstUse(changes, claimed, i))
  {
    hide Applicable, Target;
    TargetsOfPrefix(changes, claimed, i);
    TargetsOfPrefix(changes, claimed, i + 1);
    assert forall j :: 0 <= j < i ==> claimed[..i + 1][j] == claimed[..i][j];
  }

  lemma {:induction false} FeasiblePrefix(
    configs: map<int, ConfigRow>, archived: set<string>, changes: map<int, ChangeRow>, claimed: seq<int>, n: nat)
    requires AllKnown(changes, claimed) && n <= |claimed| && Feasible(configs, archived, changes, claimed)
    ensures AllKnown(changes, claimed[..n]) && Feasible(configs, archived, changes, claimed[..n])
  {
    hide Applicable, Target;
    TargetsOfPrefix(changes, claimed, n);
  }

  lemma {:induction false} CarriedStep(
    before: map<int, ConfigRow>, after: map<int, ConfigRow>, changes: map<int, ChangeRow>, claimed: seq<int>, i: nat,
    next: ConfigRow)
    requires AllKnown(changes, claimed) && i < |claimed| && AllKnown(changes, claimed[..i])
      && AllKnown(changes, claimed[..i + 1])
    requires Carried(before, after, changes, claimed[..i])
    requires Target(changes, claimed, i) in before && FirstUse(changes, claimed, i)
    requires IsNext(before[Target(changes, claimed, i)], next, claimed[i], changes[claimed[i]].change)
    ensures Carried(before, after[Target(changes, claimed, i) := next], changes, claimed[..i + 1])
  {
    hide IsNext, Target;
    TargetsOfPrefix(changes, claimed, i);
    TargetsOfPrefix(changes, claimed, i + 1);
  }

  lemma {:induction false} CarriedSkip(
    before: map<int, ConfigRow>, after: map<int, ConfigRow>, changes: map<int, ChangeRow>, claimed: seq<int>, i: nat)
    requires AllKnown(changes, claimed) && i < |claimed| && AllKnown(changes, claimed[..i])
      && AllKnown(changes, claimed[..i + 1])
    requires Carried(before, after, changes, claimed[..i]) && Target(changes, claimed, i) !in before
    ensures Carried(before, after, changes, claimed[..i + 1])
  {
    hide IsNext, Target;
    TargetsOfPrefix(changes, claimed, i);
    TargetsOfPrefix(changes, claimed, i + 1);
  }

  lemma {:induction false} UntouchedRow(
    before: map<int, ConfigRow>, after: map<int, ConfigRow>, changes: map<int, ChangeRow>, claimed: seq<int>, i: nat)
    requires AllKnown(changes, claimed) && i < |claimed| && AllKnown(changes, claimed[..i])
    requires Carried(before, after, changes, claimed[..i])
    requires Target(changes, claimed, i) in before && FirstUse(changes, claimed, i)
    ensures Target(changes, claimed, i) in after
    ensures after[Target(changes, claimed, i)] == before[Target(changes, claimed, i)]
  {
    hide IsNext, Target;
    TargetsOfPrefix(changes, claimed, i);
  }

  lemma {:induction false} CarriedKeepsInvariant(
    before: map<int, ConfigRow>, after: map<int, ConfigRow>, changes: map<int, ChangeRow>, claimed: seq<int>)
    requires AllKnown(changes, claimed) && Carried(before, after, changes, claimed)
    requires forall id :: id in before ==> RowInvariant(before[id])
    ensures forall id :: id in after ==> RowInvariant(after[id])
  {
    hide RowInvariant, Target, Extends;
  }

  lemma {:induction false} MarkStep(changes: map<int, ChangeRow>, claimed: seq<int>, i: nat, now: int)
    requires i < |claimed| && claimed[i] in changes
    ensures MarkApplied(changes, claimed[..i + 1], now)
         == MarkApplied(changes, claimed[..i], now)[claimed[i] := changes[claimed[i]].(appliedAt := Some(now))]
  {
    assert claimed[..i + 1] == claimed[..i] + [claimed[i]];
  }

  lemma {:induction false} EnvironmentsStep(
    configs: map<int, ConfigRow>, changes: map<int, ChangeRow>, claimed: seq<int>, i: nat)
    requires i < |claimed| && claimed[i] in changes
    ensures Environments(configs, changes, claimed[..i + 1]) == Environments(configs, changes, claimed[..i])
      + if changes[claimed[i]].configId in configs then [configs[changes[claimed[i]].configId].identity.environmentId]
        else []
  {
    assert claimed[..i + 1][..i] == claimed[..i];
  }

  lemma {:induction false} BumpStep(revisions: map<string, int>, environmentIds: seq<string>, e: string)
    ensures BumpedAll(revisions, environmentIds + [e]) == Bumped(BumpedAll(revisions, environmentIds), e)
  {
    assert (environmentIds + [e])[..|environmentIds|] == environmentIds;
  }

  /**
   * `apply_due_changes`. It commits everything it claimed or nothing, and commits exactly when
   * every claimed change can be carried out: one that cannot holds back all the others.
   */
  method ApplyDueChanges(db: Database, locked: set<int>, now: int) returns (claimed: seq<int>, r: Outcome<nat>)
    requires db.Consistent()
    modifies db
    ensures db.Consistent() && db.archived == old(db.archived)
    ensures IsClaim(old(db.changes), locked, claimed, now) && AllKnown(old(db.changes), claimed)
    ensures forall k :: k in old(db.changes) && old(db.changes)[k].activateAt > now ==>
      k in db.changes && db.changes[k] == old(db.changes)[k]
    ensures r.Returned? <==> Feasible(old(db.configs), old(db.archived), old(db.changes), claimed)
    ensures r.Raised? ==>
      db.configs == old(db.configs) && db.revisions == old(db.revisions) && db.changes == old(db.changes)
    ensures r.Returned? ==>
      && Carried(old(db.configs), db.configs, old(db.changes), claimed)
      && db.changes == MarkApplied(old(db.changes), claimed, now)
      && db.revisions == BumpedAll(old(db.revisions), Environments(old(db.configs), old(db.changes), claimed))
  {
    hide RowInvariant, Feasible, Carried, Environments, BumpedAll, IsClaim;
    claimed := ClaimDue(db.changes, locked, now);
    forall i | 0 <= i < |claimed| ensures claimed[i] in db.changes {
      assert Claimable(db.changes, locked, now, claimed[i]);
    }
    var configs, revisions, changes;
    r, configs, revisions, changes := RunBatch(db.configs, db.revisions, db.archived, db.changes, claimed, now);
    if r.Returned? {
      CarriedKeepsInvariant(db.configs, configs, db.changes, claimed);
      db.configs, db.revisions, db.changes := configs, revisions, changes;
    }
  }

  /** The loop over the claimed rows, on the transaction's own view of the tables. */
  method RunBatch(
    configs0: map<int, ConfigRow>, revisions0: map<string, int>, archived: set<string>, changes0: map<int, ChangeRow>,
    claimed: seq<int>, now: int)
    returns (r: Outcome<nat>, configs: map<int, ConfigRow>, revisions: map<string, int>, changes: map<int, ChangeRow>)
    requires (forall id :: id in configs0 ==> RowInvariant(configs0[id])) && AllKnown(changes0, claimed)
    ensures r.Returned? <==> Feasible(configs0, archived, changes0, claimed)
    ensures r.Returned? ==>
      && Carried(configs0, configs, changes0, claimed)
      && changes == MarkApplied(changes0, claimed, now)
      && revisions == BumpedAll(revisions0, Environments(configs0, changes0, claimed))
  {
    hide RowInvariant, Feasible, Carried, Valid, Changed, IsNext, MarkApplied, BumpedAll, Environments;
    configs, revisions, changes := configs0, revisions0, changes0;
    var touched: set<int> := {};
    var notifications := 0;
    EmptyBatch(configs0, revisions0, archived, changes0, now);
    assert claimed[..0] == [];
    for i := 0 to |claimed|
      invariant AllKnown(changes0, claimed[..i])
      invariant Feasible(configs0, archived, changes0, claimed[..i])
      invariant Carried(configs0, configs, changes0, claimed[..i]) && configs.Keys == configs0.Keys
      invariant changes == MarkApplied(changes0, claimed[..i], now)
      invariant revisions == BumpedAll(revisions0, Environments(configs0, changes0, claimed[..i]))
      invariant forall id :: id in touched <==>
        id in configs0 && exists j: nat :: j < i && Target(changes0, claimed, j) == id
    {
      var id := claimed[i];
      var change := changes0[id];
      FeasibleStep(configs0, archived, changes0, claimed, i);
      if Feasible(configs0, archived, changes0, claimed) {
        FeasiblePrefix(configs0, archived, changes0, claimed, i + 1);
      }
      MarkStep(changes0, claimed, i, now);
      EnvironmentsStep(configs0, changes0, claimed, i);
      if change.configId !in configs {
        CarriedSkip(configs0, configs, changes0, claimed, i);
        assert Environments(configs0, changes0, claimed[..i]) + [] == Environments(configs0, changes0, claimed[..i]);
        changes := changes[id := change.(appliedAt := Some(now))];
        continue;
      }
      assert change.configId in touched <==> !FirstUse(changes0, claimed, i);
      if change.configId in touched || configs[change.configId].identity.flagId in archived {
        assert configs[change.configId].identity.flagId in archived && FirstUse(changes0, claimed, i) ==>
          !Applicable(configs0, archived, change) by {
          if FirstUse(changes0, claimed, i) {
            UntouchedRow(configs0, configs, changes0, claimed, i);
          }
        }
        return Raised, configs, revisions, changes;
      }
      UntouchedRow(configs0, configs, changes0, claimed, i);
      var row := configs[change.configId];
      var next := ApplyOne(row, id, change.change);
      if next.Raised? {
        return Raised, configs, revisions, changes;
      }
      CarriedStep(configs0, configs, changes0, claimed, i, next.value);
      BumpStep(revisions0, Environments(configs0, changes0, claimed[..i]), row.identity.environmentId);
      configs := configs[change.configId := next.value];
      revisions := Bumped(revisions, row.identity.environmentId);
      changes := changes[id := change.(appliedAt := Some(now))];
      touched := touched + {change.configId};
      notifications := notifications + 1;
    }
    assert claimed[..|claimed|] == claimed;
    r := Returned(notifications);
  }

  lemma {:induction false} EmptyBatch(
    configs: map<int, ConfigRow>, revisions: map<string, int>, archived: set<string>, changes: map<int, ChangeRow>,
    now: int)
    ensures AllKnown(changes, []) && Feasible(configs, archived, changes, []) && Carried(configs, configs, changes, [])
    ensures MarkApplied(changes, [], now) == changes
    ensures BumpedAll(revisions, Environments(configs, changes, [])) == revisions
  {
  }

  // ----- a change that blocks every pass -----

  ghost predicate NotLater(changes: map<int, ChangeRow>, bad: int, k: int)
    requires bad in changes
  {
    k in changes && changes[k].appliedAt == None && changes[k].activateAt <= changes[bad].activateAt
  }

  /** The unapplied changes that start no later than this one, itself among them. */
  ghost function UpTo(changes: map<int, ChangeRow>, bad: int): set<int>
    requires bad in changes
  {
    set k | k in changes && NotLater(changes, bad, k)
  }

  /** One change that cannot be carried out, or two that ask for another version of one configuration. */
  ghost predicate Conflict(
    configs: map<int, ConfigRow>, archived: set<string>, changes: map<int, ChangeRow>, a: int, b: int)
  {
    && a in changes && b in changes
    && if a == b then !Applicable(configs, archived, changes[a])
       else changes[a].configId == changes[b].configId && changes[a].configId in configs
  }

  /** What keeps a batch from committing is always one bad change or one bad pair. */
  lemma {:induction false} InfeasibleExactly(
    configs: map<int, ConfigRow>, archived: set<string>, changes: map<int, ChangeRow>, claimed: seq<int>)
    requires AllKnown(changes, claimed) && forall i, j :: 0 <= i < j < |claimed| ==> claimed[i] != claimed[j]
    ensures !Feasible(configs, archived, changes, claimed) <==>
      exists a, b :: a in claimed && b in claimed && Conflict(configs, archived, changes, a, b)
  {
    hide Applicable;
    if !Feasible(configs, archived, changes, claimed) {
      if i :| 0 <= i < |claimed| && !Applicable(configs, archived, changes[claimed[i]]) {
        assert Conflict(configs, archived, changes, claimed[i], claimed[i]);
      } else {
        var i: nat, j: nat :| i < j < |claimed| && Target(changes, claimed, i) in configs
          && Target(changes, claimed, i) == Target(changes, claimed, j);
        assert Conflict(configs, archived, changes, claimed[i], claimed[j]);
      }
    }
    if exists a, b :: a in claimed && b in claimed && Conflict(configs, archived, changes, a, b) {
      var a, b :| a in claimed && b in claimed && Conflict(configs, archived, changes, a, b);
      ConflictIsInfeasible(configs, archived, changes, a, b, claimed);
    }
  }

  lemma {:induction false} ConflictIsInfeasible(
    configs: map<int, ConfigRow>, archived: set<string>, changes: map<int, ChangeRow>, a: int, b: int,
    claimed: seq<int>)
    requires AllKnown(changes, claimed) && a in claimed && b in claimed && Conflict(configs, archived, changes, a, b)
    ensures !Feasible(configs, archived, changes, claimed)
  {
    hide Applicable;
    var i: nat :| i < |claimed| && claimed[i] == a;
    var j: nat :| j < |claimed| && claimed[j] == b;
    assert Target(changes, claimed, i) == changes[a].configId && Target(changes, claimed, j) == changes[b].configId;
  }

  /** Due changes in conflict that are among the first twenty. */
  ghost predicate Blocking(
    configs: map<int, ConfigRow>, archived: set<string>, changes: map<int, ChangeRow>, a: int, b: int, now: int)
  {
    && Conflict(configs, archived, changes, a, b) && Among(changes, a, now) && Among(changes, b, now)
  }

  ghost predicate Among(changes: map<int, ChangeRow>, k: int, now: int) {
    Due(changes, k, now) && |UpTo(changes, k)| <= BATCH_LIMIT
  }

  lemma {:induction false} ListedSize(s: seq<int>, whole: set<int>)
    requires forall i, j :: 0 <= i < j < |s| ==> s[i] != s[j]
    requires forall x :: x in s ==> x in whole
    ensures |s| <= |whole|
    decreases |s|
  {
    if s != [] {
      var last := s[|s| - 1];
      ListedSize(s[..|s| - 1], whole - {last});
    }
  }

  /** Whenever a pass looks, a due change among the first twenty that nobody else holds is claimed. */
  lemma {:induction false} AmongIsClaimed(
    changes: map<int, ChangeRow>, k: int, now: int, locked: set<int>, claimed: seq<int>, later: int)
    requires Among(changes, k, now) && now <= later && IsClaim(changes, locked, claimed, later) && k !in locked
    ensures k in claimed
  {
    if k !in claimed {
      assert Due(changes, k, later);
      forall x | x in claimed ensures x in UpTo(changes, k) - {k} {
        var i :| 0 <= i < |claimed| && claimed[i] == x;
        assert ActivateAt(changes, claimed[i]) <= ActivateAt(changes, k);
        assert Due(changes, claimed[i], later);
      }
      ListedSize(claimed, UpTo(changes, k) - {k});
    }
  }

  /** Both changes of a conflict nobody else holds. */
  ghost predicate Free(clock: seq<int>, locks: seq<set<int>>, a: int, b: int, now: int)
    requires |locks| == |clock|
  {
    forall i :: 0 <= i < |clock| ==> now <= clock[i] && a !in locks[i] && b !in locks[i]
  }

  /**
   * `run`, for as many passes as the clock has instants; locks names what others hold at each, and
   * nobody else commits in between. Once changes in conflict block, every later pass of this worker
   * claims them and raises, and none of its passes applies anything.
   */
  method RunWorker(db: Database, clock: seq<int>, locks: seq<set<int>>) returns (failures: nat)
    requires db.Consistent() && |locks| == |clock|
    modifies db
    ensures db.Consistent()
    ensures forall a, b, now ::
      Blocking(old(db.configs), old(db.archived), old(db.changes), a, b, now) && Free(clock, locks, a, b, now) ==>
        && failures == |clock|
        && db.configs == old(db.configs) && db.changes == old(db.changes) && db.revisions == old(db.revisions)
        && db.archived == old(db.archived)
  {
    hide Conflict, Among, Feasible, Carried, IsClaim;
    failures := 0;
    for pass := 0 to |clock|
      invariant db.Consistent()
      invariant forall a, b, now ::
        Blocking(old(db.configs), old(db.archived), old(db.changes), a, b, now) && Free(clock, locks, a, b, now) ==>
          && failures == pass
          && db.configs == old(db.configs) && db.changes == old(db.changes) && db.revisions == old(db.revisions)
          && db.archived == old(db.archived)
    {
      ghost var configs, archived, changes := db.configs, db.archived, db.changes;
      var claimed, r := ApplyDueChanges(db, locks[pass], clock[pass]);
      forall a, b, now |
        && Blocking(configs, archived, changes, a, b, now) && now <= clock[pass]
        && a !in locks[pass] && b !in locks[pass]
        ensures r.Raised?
      {
        AmongIsClaimed(changes, a, now, locks[pass], claimed, clock[pass]);
        AmongIsClaimed(changes, b, now, locks[pass], claimed, clock[pass]);
        ConflictIsInfeasible(configs, archived, changes, a, b, claimed);
      }
      if r.Raised? {
        failures := failures + 1;
      }
    }
  }
}
