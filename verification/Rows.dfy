/**
 * The four database tables below a flag configuration, and the way back from them
 * (backend/app/services/flags.py:129 and :532). A relation has no order, so the rows are
 * multisets; a query returns them as a sequence in some order, and nothing is known about which.
 */
module Rows {
  import opened Prelude
  import opened Operators
  import opened Sorting
  import opened Configuration
  import opened Rollout
  import opened Stages
  import opened Engine

  datatype RuleRow = RuleRow(
    name: string, priority: int, enabled: bool, serveVariation: Option<string>,
    conditions: multiset<Condition>, rollouts: multiset<Allocation>, stages: multiset<Stage>)

  /** Variation keys are unique per configuration, so those rows are a map. */
  datatype Children = Children(
    variations: map<string, Json>, rollouts: multiset<Allocation>, stages: multiset<Stage>, rules: multiset<RuleRow>)

  datatype LoadedRule = LoadedRule(
    name: string, priority: int, enabled: bool, serveVariation: Option<string>,
    conditions: seq<Condition>, rollouts: seq<Allocation>, stages: seq<Stage>)

  /** A configuration row with its children as one query happened to return them. */
  datatype Loaded = Loaded(
    identity: Identity, enabled: bool, defaultVariation: string, currentVersion: int,
    variations: map<string, Json>, rollouts: seq<Allocation>, stages: seq<Stage>, rules: seq<LoadedRule>)

  function RuleRowOf(r: Rule): RuleRow {
    RuleRow(r.name, r.priority, true, r.variation, multiset(r.conditions), multiset(r.rollout), multiset(r.stages))
  }

  /** What `_persist_children` inserts. */
  function ChildrenOf(c: FlagConfiguration): Children {
    Children(c.variations, multiset(c.rollout), multiset(c.stages), multiset(MapSeq(RuleRowOf, c.rules)))
  }

  function LoadedRuleRow(r: LoadedRule): RuleRow {
    RuleRow(r.name, r.priority, r.enabled, r.serveVariation, multiset(r.conditions), multiset(r.rollouts),
      multiset(r.stages))
  }

  /** The rows a loaded object graph stands for, with the order forgotten. */
  function LoadedChildren(l: Loaded): Children {
    Children(l.variations, multiset(l.rollouts), multiset(l.stages), multiset(MapSeq(LoadedRuleRow, l.rules)))
  }

  function LoadedPriority(r: LoadedRule): int { r.priority }

  function RowPriority(r: RuleRow): int { r.priority }

  function CompileRule(r: LoadedRule): Rule {
    Rule(r.name, r.priority, r.conditions, r.serveVariation, SortBy(r.rollouts, EndBucket), r.stages)
  }

  function EnabledOnly(rules: seq<LoadedRule>): seq<LoadedRule> {
    if rules == [] then []
    else (if rules[0].enabled then [rules[0]] else []) + EnabledOnly(rules[1..])
  }

  /** `compile_configuration`: sorts rules and allocations, but neither conditions nor stages. */
  function Compile(l: Loaded): FlagConfiguration {
    FlagConfiguration(
      l.identity, l.enabled, l.defaultVariation, l.variations, l.currentVersion,
      MapSeq(CompileRule, EnabledOnly(SortBy(l.rules, LoadedPriority))),
      SortBy(l.rollouts, EndBucket), l.stages)
  }

  ghost predicate SameScalars(c: FlagConfiguration, d: FlagConfiguration) {
    && c.identity == d.identity && c.enabled == d.enabled
    && c.defaultVariation == d.defaultVariation && c.configVersion == d.configVersion
  }

  /** Equal up to the order that rows do not keep. */
  ghost predicate Alike(c: FlagConfiguration, d: FlagConfiguration) {
    SameScalars(c, d) && ChildrenOf(c) == ChildrenOf(d)
  }

  ghost predicate DistinctPriorities(c: FlagConfiguration) {
    DistinctKeys(c.rules, Priority)
  }

  /** In no rule can a false condition hide an exception. */
  ghost predicate SteadyRules(lib: Library, c: FlagConfiguration, attributes: map<string, Json>) {
    forall r :: r in c.rules ==> Steady(lib, r.conditions, attributes)
  }

  // ----- reading back -----

  lemma {:induction false} RolloutIsItsRows(a: seq<Allocation>, b: seq<Allocation>)
    requires multiset(a) == multiset(b) && ValidRollout(a) && ValidRollout(b)
    ensures a == b
  {
    StrictOrderIsUnique(a, b, EndBucket);
  }

  lemma {:induction false} SortedRolloutIsValid(rows: seq<Allocation>, rollout: seq<Allocation>)
    requires multiset(rows) == multiset(rollout) && ValidRollout(rollout)
    ensures SortBy(rows, EndBucket) == rollout
  {
    SortIgnoresOrder(rollout, rows, EndBucket);
    SortOfAscending(rollout, EndBucket);
  }

  lemma {:induction false} InMapped<T, U>(f: T -> U, s: seq<T>, u: U) returns (x: T)
    requires u in MapSeq(f, s)
    ensures x in s && f(x) == u
  {
    var i :| 0 <= i < |s| && MapSeq(f, s)[i] == u;
    x := s[i];
  }

  /** Every rule has a rule with the same row on the other side. */
  lemma {:induction false} Counterpart(a: seq<Rule>, b: seq<Rule>, r: Rule) returns (other: Rule)
    requires multiset(MapSeq(RuleRowOf, a)) == multiset(MapSeq(RuleRowOf, b)) && r in a
    ensures other in b && RuleRowOf(other) == RuleRowOf(r)
  {
    var i :| 0 <= i < |a| && a[i] == r;
    assert MapSeq(RuleRowOf, a)[i] == RuleRowOf(r);
    InBoth(MapSeq(RuleRowOf, a), MapSeq(RuleRowOf, b), RuleRowOf(r));
    other := InMapped(RuleRowOf, b, RuleRowOf(r));
  }

  lemma {:induction false} AllEnabled(rules: seq<LoadedRule>)
    requires forall r :: r in rules ==> r.enabled
    ensures EnabledOnly(rules) == rules
  {
    if rules != [] {
      AllEnabled(rules[1..]);
    }
  }

  /** Compiling leaves out exactly the disabled rules, and keeps the others in their order. */
  lemma {:induction false} OnlyEnabledRemain(rules: seq<LoadedRule>)
    ensures forall r :: r in EnabledOnly(rules) <==> r in rules && r.enabled
    ensures forall r :: r in rules && !r.enabled ==> EnabledOnly([r] + rules) == EnabledOnly(rules)
  {
    if rules != [] {
      OnlyEnabledRemain(rules[1..]);
      assert rules == [rules[0]] + rules[1..];
    }
    forall r | r in rules && !r.enabled ensures EnabledOnly([r] + rules) == EnabledOnly(rules) {
      assert ([r] + rules)[1..] == rules;
    }
  }

  lemma {:induction false} CompiledRuleRow(r: LoadedRule)
    requires r.enabled
    ensures RuleRowOf(CompileRule(r)) == LoadedRuleRow(r)
  {
    SortedPermutation(r.rollouts, EndBucket);
  }

  lemma {:induction false} StoredRulesAreEnabled(l: Loaded, c: FlagConfiguration, lr: LoadedRule)
    requires LoadedChildren(l) == ChildrenOf(c) && lr in SortBy(l.rules, LoadedPriority)
    ensures lr in l.rules && lr.enabled
  {
    hide SortBy;
    SortedPermutation(l.rules, LoadedPriority);
    InBoth(SortBy(l.rules, LoadedPriority), l.rules, lr);
    var i :| 0 <= i < |l.rules| && l.rules[i] == lr;
    assert MapSeq(LoadedRuleRow, l.rules)[i] == LoadedRuleRow(lr);
    InBoth(MapSeq(LoadedRuleRow, l.rules), MapSeq(RuleRowOf, c.rules), LoadedRuleRow(lr));
    var r := InMapped(RuleRowOf, c.rules, LoadedRuleRow(lr));
  }

  lemma {:induction false} CompiledRows(rules: seq<LoadedRule>)
    requires forall lr :: lr in rules ==> lr.enabled
    ensures MapSeq(RuleRowOf, MapSeq(CompileRule, rules)) == MapSeq(LoadedRuleRow, rules)
  {
    if rules != [] {
      CompiledRuleRow(rules[0]);
      CompiledRows(rules[1..]);
      assert MapSeq(CompileRule, rules)[1..] == MapSeq(CompileRule, rules[1..]);
    }
  }

  lemma {:induction false} CompiledRules(l: Loaded, c: FlagConfiguration)
    requires LoadedChildren(l) == ChildrenOf(c)
    ensures Compile(l).rules == MapSeq(CompileRule, SortBy(l.rules, LoadedPriority))
    ensures MapSeq(RuleRowOf, Compile(l).rules) == MapSeq(LoadedRuleRow, SortBy(l.rules, LoadedPriority))
  {
    var sorted := SortBy(l.rules, LoadedPriority);
    forall lr | lr in sorted ensures lr.enabled {
      StoredRulesAreEnabled(l, c, lr);
    }
    AllEnabled(sorted);
    CompiledRows(sorted);
  }

  /** Sorting and compiling the loaded rules gives rules with the rows that were loaded. */
  lemma {:induction false} CompiledRulesKeepRows(l: Loaded, c: FlagConfiguration)
    requires LoadedChildren(l) == ChildrenOf(c)
    ensures multiset(MapSeq(RuleRowOf, Compile(l).rules)) == multiset(MapSeq(RuleRowOf, c.rules))
  {
    CompiledRules(l, c);
    SortedPermutation(l.rules, LoadedPriority);
    MapMultiset(LoadedRuleRow, SortBy(l.rules, LoadedPriority), l.rules);
  }

  lemma {:induction false} CompiledRuleIsSorted(l: Loaded, c: FlagConfiguration, r: Rule)
    requires LoadedChildren(l) == ChildrenOf(c) && r in Compile(l).rules
    ensures r.rollout == SortBy(r.rollout, EndBucket)
  {
    CompiledRules(l, c);
    var lr := InMapped(CompileRule, SortBy(l.rules, LoadedPriority), r);
    SortedPermutation(lr.rollouts, EndBucket);
    SortOfAscending(r.rollout, EndBucket);
  }

  /** A rule with the rows of a valid one, and its allocations in order, is valid and names nothing new. */
  lemma {:induction false} RuleValidByRow(keys: set<string>, r: Rule, other: Rule)
    requires RuleRowOf(r) == RuleRowOf(other) && ValidRule(other) && RuleDeclared(keys, other)
    requires r.rollout == SortBy(r.rollout, EndBucket)
    ensures r.rollout == other.rollout && ValidRule(r) && RuleDeclared(keys, r)
  {
    SortedRolloutIsValid(r.rollout, other.rollout);
    forall s ensures s in r.stages <==> s in other.stages {
      InBoth(r.stages, other.stages, s);
    }
    forall d ensures d in r.conditions <==> d in other.conditions {
      InBoth(r.conditions, other.conditions, d);
    }
    SameLength(r.stages, other.stages);
  }

  /** Storing a valid configuration and compiling any reading of the rows gives it back, up to row order. */
  lemma {:induction false} CompileReadsBack(l: Loaded, c: FlagConfiguration)
    requires Valid(c) && LoadedChildren(l) == ChildrenOf(c)
    requires l.identity == c.identity && l.enabled == c.enabled
    requires l.defaultVariation == c.defaultVariation && l.currentVersion == c.configVersion
    ensures Alike(Compile(l), c) && Valid(Compile(l))
    ensures DistinctPriorities(c) ==> DistinctPriorities(Compile(l))
  {
    var d := Compile(l);
    CompiledRulesKeepRows(l, c);
    SortedRolloutIsValid(l.rollouts, c.rollout);
    forall s ensures s in d.stages <==> s in c.stages {
      InBoth(d.stages, c.stages, s);
    }
    forall r | r in d.rules ensures ValidRule(r) && RuleDeclared(d.variations.Keys, r) {
      var other := Counterpart(d.rules, c.rules, r);
      CompiledRuleIsSorted(l, c, r);
      RuleValidByRow(d.variations.Keys, r, other);
    }
    if DistinctPriorities(c) {
      DistinctPrioritiesAlike(c, d);
    }
  }

  lemma {:induction false} DistinctPrioritiesAlike(c: FlagConfiguration, d: FlagConfiguration)
    requires ChildrenOf(c) == ChildrenOf(d) && DistinctPriorities(c)
    ensures DistinctPriorities(d)
  {
    var a, b := MapSeq(RuleRowOf, c.rules), MapSeq(RuleRowOf, d.rules);
    assert DistinctKeys(a, RowPriority);
    DistinctKeysOfPermutation(a, b, RowPriority);
    forall i, j | 0 <= i < j < |d.rules| ensures Priority(d.rules[i]) != Priority(d.rules[j]) {
      assert RowPriority(b[i]) != RowPriority(b[j]);
    }
  }

  // ----- evaluation cannot tell configurations with the same rows apart -----

  lemma {:induction false} SortedRulesAlike(c: FlagConfiguration, d: FlagConfiguration)
    requires ChildrenOf(c) == ChildrenOf(d) && DistinctPriorities(c)
    ensures MapSeq(RuleRowOf, SortBy(c.rules, Priority)) == MapSeq(RuleRowOf, SortBy(d.rules, Priority))
  {
    SortMap(RuleRowOf, c.rules, Priority, RowPriority);
    SortMap(RuleRowOf, d.rules, Priority, RowPriority);
    SortIgnoresOrder(MapSeq(RuleRowOf, c.rules), MapSeq(RuleRowOf, d.rules), RowPriority);
  }

  lemma {:induction false} StagesAlike(a: seq<Stage>, b: seq<Stage>, bucket: int, now: int)
    requires multiset(a) == multiset(b) && Unambiguous(a) && 0 <= bucket < BUCKET_COUNT
    ensures a == [] <==> b == []
    ensures a != [] ==> Progressive(a, bucket, now) == Progressive(b, bucket, now)
  {
    SameLength(a, b);
    if a != [] {
      OrderCannotBeSeen(a, b, bucket, now);
    }
  }

  lemma {:induction false} SortedRulesAreRules(c: FlagConfiguration, r: Rule)
    requires r in SortBy(c.rules, Priority)
    ensures r in c.rules
  {
    SortedPermutation(c.rules, Priority);
    InBoth(SortBy(c.rules, Priority), c.rules, r);
  }

  lemma {:induction false} RuleResultAlike(
    rt: Runtime, c: FlagConfiguration, d: FlagConfiguration, ctx: Context, now: int, x: Rule, y: Rule)
    requires SameScalars(c, d) && c.variations == d.variations
    requires RuleRowOf(x) == RuleRowOf(y) && ValidRollout(x.rollout) && ValidRollout(y.rollout) && Unambiguous(x.stages)
    ensures RuleResult(rt, c, ctx, now, x) == RuleResult(rt, d, ctx, now, y)
  {
    hide ValidRollout, Unambiguous, Progressive, Scan;
    RolloutIsItsRows(x.rollout, y.rollout);
    StagesAlike(x.stages, y.stages, SubjectBucket(rt, c.identity, ctx.subjectKey), now);
    SameLength(x.stages, y.stages);
  }

  lemma {:induction false} FlagResultAlike(
    rt: Runtime, c: FlagConfiguration, d: FlagConfiguration, ctx: Context, now: int)
    requires SameScalars(c, d) && c.variations == d.variations
    requires multiset(c.rollout) == multiset(d.rollout) && ValidRollout(c.rollout) && ValidRollout(d.rollout)
    requires multiset(c.stages) == multiset(d.stages) && Unambiguous(c.stages)
    ensures FlagResult(rt, c, ctx, now) == FlagResult(rt, d, ctx, now)
  {
    hide ValidRollout, Unambiguous, Progressive, Scan;
    SameLength(c.stages, d.stages);
    RolloutIsItsRows(c.rollout, d.rollout);
    StagesAlike(c.stages, d.stages, SubjectBucket(rt, c.identity, ctx.subjectKey), now);
  }
}
