/**
 * Exactly when the order in which the database returns child rows plays no part in what a flag
 * answers (backend/app/services/flags.py:129-170 and backend/app/evaluation/engine.py:15-120).
 */
module Orders {
  import opened Prelude
  import opened Operators
  import opened Sorting
  import opened Configuration
  import opened Rollout
  import opened Stages
  import opened Hashing
  import opened Engine
  import opened Semantics
  import opened Rows

  // ----- the evaluation as a walk over the sorted rules -----

  function Walk(rt: Runtime, c: FlagConfiguration, ctx: Context, now: int, rules: seq<Rule>): Outcome<Evaluation> {
    if rules == [] then FlagResult(rt, c, ctx, now)
    else
      match AllMatch(rt.lib, rules[0].conditions, ctx.attributes)
      case Raised => Raised
      case Returned(holds) =>
        if holds then RuleResult(rt, c, ctx, now, rules[0]) else Walk(rt, c, ctx, now, rules[1..])
  }

  lemma {:induction false} WalkStops(rt: Runtime, c: FlagConfiguration, ctx: Context, now: int, rules: seq<Rule>)
    ensures Walk(rt, c, ctx, now, rules)
         == match FirstStop(rt.lib, rules, ctx.attributes)
            case None => FlagResult(rt, c, ctx, now)
            case Some(rule) =>
              if AllMatch(rt.lib, rule.conditions, ctx.attributes).Raised? then Raised
                else RuleResult(rt, c, ctx, now, rule)
  {
    hide FlagResult, RuleResult, AllMatch;
    if rules != [] {
      WalkStops(rt, c, ctx, now, rules[1..]);
    }
  }

  lemma {:induction false} EvaluateWalks(rt: Runtime, c: FlagConfiguration, ctx: Context, now: int)
    requires c.enabled
    ensures Evaluate(rt, c, ctx, now) == Walk(rt, c, ctx, now, SortBy(c.rules, Priority))
  {
    hide FlagResult, RuleResult, AllMatch, FirstStop, SortBy;
    WalkStops(rt, c, ctx, now, SortBy(c.rules, Priority));
  }

  lemma {:induction false} WalkIgnoresOwnRules(
    rt: Runtime, c: FlagConfiguration, ctx: Context, now: int, rules: seq<Rule>, own: seq<Rule>)
    ensures Walk(rt, c.(rules := own), ctx, now, rules) == Walk(rt, c, ctx, now, rules)
  {
    hide AllMatch, Scan, Progressive;
    if rules != [] {
      WalkIgnoresOwnRules(rt, c, ctx, now, rules[1..], own);
    }
  }

  // ----- the condition -----

  /** In every order of its conditions the walk ends at one of these rules with an exception. */
  ghost predicate AlwaysRaises(lib: Library, rules: seq<Rule>, attributes: map<string, Json>) {
    && rules != []
    && if !Steady(lib, rules[0].conditions, attributes) then AlwaysRaises(lib, rules[1..], attributes)
       else
         var outcome := AllMatch(lib, rules[0].conditions, attributes);
         outcome.Raised? || (!outcome.value && AlwaysRaises(lib, rules[1..], attributes))
  }

  /**
   * Of the rules the walk can reach: one whose outcome depends on order is followed by certain
   * exceptions only, and stages that decide are interchangeable where they tie.
   */
  ghost predicate OrderProof(lib: Library, rules: seq<Rule>, stages: seq<Stage>, attributes: map<string, Json>) {
    if rules == [] then Unambiguous(stages)
    else if !Steady(lib, rules[0].conditions, attributes) then AlwaysRaises(lib, rules[1..], attributes)
    else
      match AllMatch(lib, rules[0].conditions, attributes)
      case Raised => true
      case Returned(holds) =>
        if holds then Unambiguous(rules[0].stages) else OrderProof(lib, rules[1..], stages, attributes)
  }

  ghost predicate OrderPlaysNoPart(lib: Library, c: FlagConfiguration, attributes: map<string, Json>) {
    c.enabled ==> OrderProof(lib, SortBy(c.rules, Priority), c.stages, attributes)
  }

  // ----- it suffices -----

  /** The same rule with its conditions and stages in some other order. */
  ghost predicate Reordered(a: Rule, b: Rule) {
    RuleRowOf(a) == RuleRowOf(b) && a.rollout == b.rollout
  }

  ghost predicate AllReordered(a: seq<Rule>, b: seq<Rule>) {
    |a| == |b| && forall i :: 0 <= i < |a| ==> Reordered(a[i], b[i])
  }

  lemma {:induction false} UnsteadyNeverHolds(
    lib: Library, a: seq<Condition>, b: seq<Condition>, attributes: map<string, Json>)
    requires multiset(a) == multiset(b) && !Steady(lib, a, attributes)
    ensures AllMatch(lib, b, attributes) != Returned(true)
  {
    FirstFailureDecides(lib, b, attributes);
    var no :| no in a && Check(lib, no, attributes) == Returned(false);
    InBoth(a, b, no);
  }

  lemma {:induction false} RaisesInEveryOrder(
    rt: Runtime, c: FlagConfiguration, ctx: Context, now: int, a: seq<Rule>, b: seq<Rule>)
    requires AlwaysRaises(rt.lib, a, ctx.attributes) && AllReordered(a, b)
    ensures Walk(rt, c, ctx, now, b) == Raised
  {
    hide AllMatch, Steady, RuleResult, FlagResult;
    assert Reordered(a[0], b[0]);
    assert AllReordered(a[1..], b[1..]);
    if !Steady(rt.lib, a[0].conditions, ctx.attributes) {
      UnsteadyNeverHolds(rt.lib, a[0].conditions, b[0].conditions, ctx.attributes);
      RaisesInEveryOrder(rt, c, ctx, now, a[1..], b[1..]);
    } else {
      SteadyIgnoresOrder(rt.lib, a[0].conditions, b[0].conditions, ctx.attributes);
      if AllMatch(rt.lib, a[0].conditions, ctx.attributes).Returned? {
        RaisesInEveryOrder(rt, c, ctx, now, a[1..], b[1..]);
      }
    }
  }

  /** The configurations agree in all that rows keep apart from the rules. */
  ghost predicate SameFlag(c: FlagConfiguration, d: FlagConfiguration) {
    && SameScalars(c, d) && c.variations == d.variations && c.rollout == d.rollout && ValidRollout(c.rollout)
    && multiset(c.stages) == multiset(d.stages)
  }

  lemma {:induction false} ProvenOrdersAgree(
    rt: Runtime, c: FlagConfiguration, d: FlagConfiguration, ctx: Context, now: int, a: seq<Rule>, b: seq<Rule>)
    requires OrderProof(rt.lib, a, c.stages, ctx.attributes) && AllReordered(a, b) && SameFlag(c, d)
    requires forall r :: r in a ==> ValidRollout(r.rollout)
    ensures Walk(rt, c, ctx, now, a) == Walk(rt, d, ctx, now, b)
  {
    hide AllMatch, Steady, RuleResult, FlagResult, ValidRollout, Unambiguous;
    if a == [] {
      FlagResultAlike(rt, c, d, ctx, now);
    } else {
      assert Reordered(a[0], b[0]);
      assert AllReordered(a[1..], b[1..]);
      if !Steady(rt.lib, a[0].conditions, ctx.attributes) {
        UnsteadyNeverHolds(rt.lib, a[0].conditions, b[0].conditions, ctx.attributes);
        UnsteadyNeverHolds(rt.lib, a[0].conditions, a[0].conditions, ctx.attributes);
        assert AllReordered(a[1..], a[1..]);
        RaisesInEveryOrder(rt, c, ctx, now, a[1..], a[1..]);
        RaisesInEveryOrder(rt, d, ctx, now, a[1..], b[1..]);
      } else {
        SteadyIgnoresOrder(rt.lib, a[0].conditions, b[0].conditions, ctx.attributes);
        var holds := AllMatch(rt.lib, a[0].conditions, ctx.attributes);
        if holds == Returned(true) {
          RuleResultAlike(rt, c, d, ctx, now, a[0], b[0]);
        } else if holds == Returned(false) {
          ProvenOrdersAgree(rt, c, d, ctx, now, a[1..], b[1..]);
        }
      }
    }
  }

  // ----- and is needed -----

  /** A hash that puts every subject into one bucket. */
  lemma {:induction false} OneBucket(lib: Library, bucket: nat) returns (rt: Runtime)
    requires bucket < BUCKET_COUNT
    ensures rt.lib == lib && forall id, subjectKey :: SubjectBucket(rt, id, subjectKey) == bucket
  {
    DigestFits(bucket);
    var digest: Digest := DigestOf(bucket);
    rt := Runtime(lib, (text: string) => [], (bytes: seq<Byte>) => digest);
  }

  ghost predicate RulesSound(keys: set<string>, rules: seq<Rule>) {
    forall r :: r in rules ==> ValidRule(r) && RuleDeclared(keys, r)
  }

  /** Reordering the parts of a sound rule leaves it sound. */
  lemma {:induction false} ReorderedIsSound(keys: set<string>, a: Rule, b: Rule)
    requires Reordered(a, b) && ValidRule(a) && RuleDeclared(keys, a)
    ensures ValidRule(b) && RuleDeclared(keys, b)
  {
    SameLength(a.stages, b.stages);
    forall s ensures s in a.stages <==> s in b.stages {
      InBoth(a.stages, b.stages, s);
    }
    forall d ensures d in a.conditions <==> d in b.conditions {
      InBoth(a.conditions, b.conditions, d);
    }
  }

  /** The walk over these rules, with their parts in this order, meets no exception. */
  ghost predicate Quiet(lib: Library, rules: seq<Rule>, attributes: map<string, Json>) {
    rules != [] ==>
      && AllMatch(lib, rules[0].conditions, attributes).Returned?
      && (!AllMatch(lib, rules[0].conditions, attributes).value ==> Quiet(lib, rules[1..], attributes))
  }

  lemma {:induction false} RuleAnswers(rt: Runtime, c: FlagConfiguration, ctx: Context, now: int, rule: Rule)
    requires Valid(c) && ValidRule(rule) && RuleDeclared(c.variations.Keys, rule)
    ensures RuleResult(rt, c, ctx, now, rule).Returned?
  {
    var d := c.(rules := [rule]);
    assert Valid(d) && rule in d.rules;
    hide Valid, Scan, Progressive, ValidRule, RuleDeclared;
    RuleResultServes(rt, d, ctx, now, rule);
  }

  lemma {:induction false} QuietAnswers(rt: Runtime, c: FlagConfiguration, ctx: Context, now: int, rules: seq<Rule>)
    requires Valid(c) && RulesSound(c.variations.Keys, rules) && Quiet(rt.lib, rules, ctx.attributes)
    ensures Walk(rt, c, ctx, now, rules).Returned?
  {
    hide Valid, AllMatch, FlagResult, RuleResult, ValidRule, RuleDeclared;
    if rules == [] {
      FlagResultServes(rt, c, ctx, now);
    } else {
      RuleAnswers(rt, c, ctx, now, rules[0]);
      if !AllMatch(rt.lib, rules[0].conditions, ctx.attributes).value {
        QuietAnswers(rt, c, ctx, now, rules[1..]);
      }
    }
  }

  lemma {:induction false} ReorderedFront(first: Rule, other: Rule, a: seq<Rule>, b: seq<Rule>)
    requires Reordered(first, other) && AllReordered(a, b)
    ensures AllReordered([first] + a, [other] + b)
  {
    hide Reordered;
  }

  lemma {:induction false} SelfReordered(rules: seq<Rule>)
    ensures AllReordered(rules, rules)
  {
  }

  /** Where an exception is not certain, some order avoids it. */
  lemma {:induction false} SomeOrderIsQuiet(lib: Library, rules: seq<Rule>, attributes: map<string, Json>)
    returns (other: seq<Rule>)
    requires !AlwaysRaises(lib, rules, attributes)
    ensures AllReordered(rules, other) && Quiet(lib, other, attributes)
  {
    other := rules;
    SelfReordered(rules);
    if rules != [] {
      var first, rest := rules[0], rules[1..];
      assert rules == [first] + rest;
      if !Steady(lib, first.conditions, attributes) {
        var no :| no in first.conditions && Check(lib, no, attributes) == Returned(false);
        var order := CheckFirst(lib, first.conditions, attributes, no);
        var after := SomeOrderIsQuiet(lib, rest, attributes);
        other := [first.(conditions := order)] + after;
        assert other[0].conditions == order && other[1..] == after;
        ReorderedFront(first, first.(conditions := order), rest, after);
      } else if AllMatch(lib, first.conditions, attributes) == Returned(false) {
        var after := SomeOrderIsQuiet(lib, rest, attributes);
        other := [first] + after;
        assert other[0] == first && other[1..] == after;
        ReorderedFront(first, first, rest, after);
      }
    }
  }

  lemma {:induction false} TiesShow(stages: seq<Stage>) returns (order: seq<Stage>, bucket: nat, now: int)
    requires !Unambiguous(stages)
    ensures multiset(order) == multiset(stages) && order != [] && stages != [] && bucket < BUCKET_COUNT
    ensures Progressive(order, bucket, now) != Progressive(stages, bucket, now)
  {
    assert stages != [];
    OrderFreeExactly(stages);
    order, bucket, now :|
      multiset(order) == multiset(stages) && order != [] && bucket < BUCKET_COUNT
      && Progressive(order, bucket, now) != Progressive(stages, bucket, now);
  }

  /** Two answers from two orders, in one runtime and at one instant. */
  ghost predicate Differs(
    lib: Library, c: FlagConfiguration, attributes: map<string, Json>, a: seq<Rule>, s: seq<Stage>, b: seq<Rule>,
    t: seq<Stage>)
  {
    exists rt: Runtime, subjectKey, now ::
      rt.lib == lib && DiffersAt(rt, c, Context(subjectKey, attributes), now, a, s, b, t)
  }

  ghost predicate DiffersAt(
    rt: Runtime, c: FlagConfiguration, ctx: Context, now: int, a: seq<Rule>, s: seq<Stage>, b: seq<Rule>, t: seq<Stage>)
  {
    Walk(rt, c.(stages := s), ctx, now, a) != Walk(rt, c.(stages := t), ctx, now, b)
  }

  lemma {:induction false} FlagStagesDiffer(lib: Library, c: FlagConfiguration, attributes: map<string, Json>)
    returns (order: seq<Stage>)
    requires Valid(c) && !Unambiguous(c.stages)
    ensures multiset(order) == multiset(c.stages) && Differs(lib, c, attributes, [], order, [], c.stages)
  {
    var bucket, now;
    order, bucket, now := TiesShow(c.stages);
    var rt := OneBucket(lib, bucket);
    var ctx := Context("", attributes);
    forall x ensures x in order <==> x in c.stages {
      InBoth(order, c.stages, x);
    }
    ProgressiveDeclared(c.variations.Keys, order, bucket, now);
    ProgressiveDeclared(c.variations.Keys, c.stages, bucket, now);
    hide Progressive, Unambiguous;
    assert DiffersAt(rt, c, ctx, now, [], order, [], c.stages);
  }

  lemma {:induction false} StagedRuleServes(rt: Runtime, c: FlagConfiguration, ctx: Context, now: int, rule: Rule)
    requires ValidRule(rule) && RuleDeclared(c.variations.Keys, rule) && rule.stages != []
    ensures var r := RuleResult(rt, c, ctx, now, rule);
      && r.Returned?
      && r.value.variation == Progressive(rule.stages, SubjectBucket(rt, c.identity, ctx.subjectKey), now)
  {
    ProgressiveDeclared(c.variations.Keys, rule.stages, SubjectBucket(rt, c.identity, ctx.subjectKey), now);
    hide Progressive, Scan, ValidRollout, ValidStage, ValidCondition;
  }

  lemma {:induction false} RuleStagesDiffer(
    lib: Library, c: FlagConfiguration, attributes: map<string, Json>, rules: seq<Rule>) returns (other: seq<Rule>)
    requires rules != [] && RulesSound(c.variations.Keys, rules) && !Unambiguous(rules[0].stages)
    requires AllMatch(lib, rules[0].conditions, attributes) == Returned(true)
    ensures AllReordered(rules, other) && Differs(lib, c, attributes, rules, c.stages, other, c.stages)
  {
    var first, rest := rules[0], rules[1..];
    assert rules == [first] + rest && ValidRule(first) && RuleDeclared(c.variations.Keys, first);
    var order, bucket, now := TiesShow(first.stages);
    var second := first.(stages := order);
    assert Reordered(first, second);
    SelfReordered(rest);
    ReorderedFront(first, second, rest, rest);
    ReorderedIsSound(c.variations.Keys, first, second);
    hide Progressive, Unambiguous, ValidRule, RuleDeclared, RuleResult, AllMatch, Reordered, FlagResult;
    var rt := OneBucket(lib, bucket);
    var ctx := Context("", attributes);
    StagedRuleServes(rt, c, ctx, now, first);
    StagedRuleServes(rt, c, ctx, now, second);
    other := [second] + rest;
    assert c.(stages := c.stages) == c;
    assert DiffersAt(rt, c, ctx, now, rules, c.stages, other, c.stages);
  }

  lemma {:induction false} ExceptionDiffers(
    lib: Library, c: FlagConfiguration, attributes: map<string, Json>, rules: seq<Rule>)
    returns (a: seq<Rule>, b: seq<Rule>)
    requires Valid(c) && rules != [] && RulesSound(c.variations.Keys, rules)
    requires !Steady(lib, rules[0].conditions, attributes) && !AlwaysRaises(lib, rules[1..], attributes)
    ensures AllReordered(rules, a) && AllReordered(rules, b) && Differs(lib, c, attributes, a, c.stages, b, c.stages)
  {
    var first, rest := rules[0], rules[1..];
    assert rules == [first] + rest;
    var no :| no in first.conditions && Check(lib, no, attributes) == Returned(false);
    var bad :| bad in first.conditions && Check(lib, bad, attributes) == Raised;
    var noFirst := CheckFirst(lib, first.conditions, attributes, no);
    var badFirst := CheckFirst(lib, first.conditions, attributes, bad);
    var quiet := SomeOrderIsQuiet(lib, rest, attributes);
    SelfReordered(rest);
    ReorderedFront(first, first.(conditions := badFirst), rest, rest);
    ReorderedFront(first, first.(conditions := noFirst), rest, quiet);
    a, b := [first.(conditions := badFirst)] + rest, [first.(conditions := noFirst)] + quiet;
    var rt := OneBucket(lib, 0);
    var ctx := Context("", attributes);
    assert Walk(rt, c, ctx, 0, a) == Raised;
    SoundReordered(c.variations.Keys, rest, quiet);
    QuietAnswers(rt, c, ctx, 0, quiet);
    assert b[0].conditions == noFirst && b[1..] == quiet;
    hide AllMatch, Steady, AlwaysRaises, Quiet, Check, FlagResult, RuleResult;
    assert Walk(rt, c, ctx, 0, b) == Walk(rt, c, ctx, 0, quiet);
    assert c.(stages := c.stages) == c;
    assert DiffersAt(rt, c, ctx, 0, a, c.stages, b, c.stages);
  }

  lemma {:induction false} SoundReordered(keys: set<string>, a: seq<Rule>, b: seq<Rule>)
    requires RulesSound(keys, a) && AllReordered(a, b)
    ensures RulesSound(keys, b)
  {
    forall i | 0 <= i < |b| ensures ValidRule(b[i]) && RuleDeclared(keys, b[i]) {
      assert Reordered(a[i], b[i]) && a[i] in a;
      ReorderedIsSound(keys, a[i], b[i]);
    }
  }

  lemma {:induction false} DiffersBehind(
    lib: Library, c: FlagConfiguration, attributes: map<string, Json>, first: Rule, a: seq<Rule>, s: seq<Stage>,
    b: seq<Rule>, t: seq<Stage>)
    requires Differs(lib, c, attributes, a, s, b, t) && AllMatch(lib, first.conditions, attributes) == Returned(false)
    ensures Differs(lib, c, attributes, [first] + a, s, [first] + b, t)
  {
    hide AllMatch, FlagResult, RuleResult;
    var rt: Runtime, subjectKey, now :|
      rt.lib == lib && DiffersAt(rt, c, Context(subjectKey, attributes), now, a, s, b, t);
    assert ([first] + a)[1..] == a && ([first] + b)[1..] == b;
    assert DiffersAt(rt, c, Context(subjectKey, attributes), now, [first] + a, s, [first] + b, t);
  }

  /** Without the condition two orders give different answers. */
  lemma {:induction false} OrdersDiffer(
    lib: Library, c: FlagConfiguration, attributes: map<string, Json>, rules: seq<Rule>)
    returns (a: seq<Rule>, s: seq<Stage>, b: seq<Rule>)
    requires Valid(c) && RulesSound(c.variations.Keys, rules) && !OrderProof(lib, rules, c.stages, attributes)
    ensures AllReordered(rules, a) && AllReordered(rules, b) && multiset(s) == multiset(c.stages)
    ensures Differs(lib, c, attributes, a, s, b, c.stages)
  {
    hide Valid, Differs, Unambiguous, Steady, AllMatch, ValidRule, RuleDeclared, Reordered;
    a, s, b := rules, c.stages, rules;
    SelfReordered(rules);
    if rules == [] {
      s := FlagStagesDiffer(lib, c, attributes);
    } else if !Steady(lib, rules[0].conditions, attributes) {
      a, b := ExceptionDiffers(lib, c, attributes, rules);
    } else if AllMatch(lib, rules[0].conditions, attributes) == Returned(true) {
      b := RuleStagesDiffer(lib, c, attributes, rules);
    } else {
      var after, before;
      after, s, before := OrdersDiffer(lib, c, attributes, rules[1..]);
      DiffersBehind(lib, c, attributes, rules[0], after, s, before, c.stages);
      ReorderedFront(rules[0], rules[0], rules[1..], after);
      ReorderedFront(rules[0], rules[0], rules[1..], before);
      a, b := [rules[0]] + after, [rules[0]] + before;
      assert rules == [rules[0]] + rules[1..];
    }
  }

  // ----- readings -----

  /** The rows of a configuration as one query may return them. */
  ghost predicate IsReadingOf(c: FlagConfiguration, l: Loaded) {
    && LoadedChildren(l) == ChildrenOf(c)
    && l.identity == c.identity && l.enabled == c.enabled
    && l.defaultVariation == c.defaultVariation && l.currentVersion == c.configVersion
  }

  function LoadedAs(r: Rule): LoadedRule {
    LoadedRule(r.name, r.priority, true, r.variation, r.conditions, r.rollout, r.stages)
  }

  function ReadAs(c: FlagConfiguration, rules: seq<Rule>, stages: seq<Stage>): Loaded {
    Loaded(c.identity, c.enabled, c.defaultVariation, c.configVersion, c.variations, c.rollout, stages,
      MapSeq(LoadedAs, rules))
  }

  lemma {:induction false} ValidRolloutIsSorted(rollout: seq<Allocation>)
    requires ValidRollout(rollout)
    ensures SortBy(rollout, EndBucket) == rollout
  {
    SortOfAscending(rollout, EndBucket);
  }

  /** Every reordering is some reading's. */
  lemma {:induction false} ReadAsIsAReading(c: FlagConfiguration, rules: seq<Rule>, stages: seq<Stage>)
    requires AllReordered(SortBy(c.rules, Priority), rules) && multiset(stages) == multiset(c.stages)
    ensures IsReadingOf(c, ReadAs(c, rules, stages))
  {
    var sorted, loaded := SortBy(c.rules, Priority), MapSeq(LoadedAs, rules);
    SortedPermutation(c.rules, Priority);
    MapMultiset(RuleRowOf, sorted, c.rules);
    forall i | 0 <= i < |rules| ensures MapSeq(LoadedRuleRow, loaded)[i] == MapSeq(RuleRowOf, sorted)[i] {
      assert Reordered(sorted[i], rules[i]);
    }
    assert MapSeq(LoadedRuleRow, loaded) == MapSeq(RuleRowOf, sorted);
  }

  lemma {:induction false} ReadAsCompiles(c: FlagConfiguration, rules: seq<Rule>, stages: seq<Stage>)
    requires Ascending(rules, Priority) && ValidRollout(c.rollout)
    requires forall r :: r in rules ==> ValidRollout(r.rollout)
    ensures Compile(ReadAs(c, rules, stages)) == c.(rules := rules, stages := stages)
  {
    var loaded := MapSeq(LoadedAs, rules);
    forall i, j | 0 <= i < j < |loaded| ensures LoadedPriority(loaded[i]) <= LoadedPriority(loaded[j]) {
      assert Priority(rules[i]) <= Priority(rules[j]);
    }
    SortOfAscending(loaded, LoadedPriority);
    AllEnabled(loaded);
    ValidRolloutIsSorted(c.rollout);
    forall i | 0 <= i < |rules| ensures CompileRule(loaded[i]) == rules[i] {
      ValidRolloutIsSorted(rules[i].rollout);
    }
    hide ValidRollout;
    assert MapSeq(CompileRule, loaded) == rules;
  }

  lemma {:induction false} ReorderedStaysSorted(a: seq<Rule>, b: seq<Rule>)
    requires Ascending(a, Priority) && AllReordered(a, b)
    ensures Ascending(b, Priority)
  {
    forall i, j | 0 <= i < j < |b| ensures Priority(b[i]) <= Priority(b[j]) {
      assert Reordered(a[i], b[i]) && Reordered(a[j], b[j]) && Priority(a[i]) <= Priority(a[j]);
    }
  }

  lemma {:induction false} SortedRulesAreSound(c: FlagConfiguration)
    requires Valid(c)
    ensures RulesSound(c.variations.Keys, SortBy(c.rules, Priority))
  {
    forall r | r in SortBy(c.rules, Priority) ensures r in c.rules {
      SortedRulesAreRules(c, r);
    }
  }

  /** What a reading in a given order evaluates to. */
  lemma {:induction false} ReadAsWalks(
    rt: Runtime, c: FlagConfiguration, rules: seq<Rule>, stages: seq<Stage>, ctx: Context, now: int)
    requires Valid(c) && c.enabled && AllReordered(SortBy(c.rules, Priority), rules)
    ensures Evaluate(rt, Compile(ReadAs(c, rules, stages)), ctx, now) == Walk(rt, c.(stages := stages), ctx, now, rules)
  {
    var sorted := SortBy(c.rules, Priority);
    SortedPermutation(c.rules, Priority);
    SortedRulesAreSound(c);
    SoundReordered(c.variations.Keys, sorted, rules);
    ReorderedStaysSorted(sorted, rules);
    assert ValidRollout(c.rollout) && forall r :: r in rules ==> ValidRollout(r.rollout);
    hide Valid, ValidRollout, RuleDeclared;
    ReadAsCompiles(c, rules, stages);
    SortOfAscending(rules, Priority);
    var d := c.(rules := rules, stages := stages);
    EvaluateWalks(rt, d, ctx, now);
    WalkIgnoresOwnRules(rt, c.(stages := stages), ctx, now, rules, rules);
    assert d == c.(stages := stages).(rules := rules);
  }

  /** Configurations with the same rows have the same sorted rules, with their parts in another order. */
  lemma {:induction false} AlikeReorders(c: FlagConfiguration, d: FlagConfiguration)
    requires Valid(c) && Valid(d) && Alike(c, d) && DistinctPriorities(c)
    ensures AllReordered(SortBy(c.rules, Priority), SortBy(d.rules, Priority)) && SameFlag(c, d)
  {
    SortedRulesAlike(c, d);
    var a, b := SortBy(c.rules, Priority), SortBy(d.rules, Priority);
    assert |a| == |MapSeq(RuleRowOf, a)| == |b|;
    RolloutIsItsRows(c.rollout, d.rollout);
    forall i | 0 <= i < |a| ensures Reordered(a[i], b[i]) {
      assert RuleRowOf(a[i]) == MapSeq(RuleRowOf, a)[i] == RuleRowOf(b[i]);
      SortedRulesAreRules(c, a[i]);
      SortedRulesAreRules(d, b[i]);
      assert ValidRule(a[i]) && ValidRule(b[i]);
      RolloutIsItsRows(a[i].rollout, b[i].rollout);
    }
  }

  /** For these attributes every reading answers like the configuration: any subject, hash and instant. */
  ghost predicate ReadingsAgree(lib: Library, c: FlagConfiguration, attributes: map<string, Json>) {
    forall l, rt: Runtime, subjectKey, now :: IsReadingOf(c, l) && rt.lib == lib ==>
      Evaluate(rt, Compile(l), Context(subjectKey, attributes), now)
        == Evaluate(rt, c, Context(subjectKey, attributes), now)
  }

  /**
   * Two valid configurations with the same rows answer alike, where no order matters: same value,
   * variation, reason, matched rule, or same exception, for every subject at every instant.
   */
  lemma {:induction false} EvaluateAlike(
    rt: Runtime, c: FlagConfiguration, d: FlagConfiguration, ctx: Context, now: int)
    requires Valid(c) && Valid(d) && Alike(c, d) && DistinctPriorities(c)
    requires OrderPlaysNoPart(rt.lib, c, ctx.attributes)
    ensures Evaluate(rt, c, ctx, now) == Evaluate(rt, d, ctx, now)
  {
    AlikeReorders(c, d);
    if c.enabled {
      SortedRulesAreSound(c);
      hide Valid, OrderProof, DistinctPriorities, RuleDeclared;
      EvaluateWalks(rt, c, ctx, now);
      EvaluateWalks(rt, d, ctx, now);
      ProvenOrdersAgree(rt, c, d, ctx, now, SortBy(c.rules, Priority), SortBy(d.rules, Priority));
    }
  }

  /**
   * The meaning of a configuration survives storage, where no order matters: whatever order the child
   * rows come back in, the recompiled configuration evaluates exactly like the one that was stored.
   */
  lemma {:induction false} StorageKeepsMeaning(rt: Runtime, c: FlagConfiguration, l: Loaded, ctx: Context, now: int)
    requires Valid(c) && DistinctPriorities(c) && IsReadingOf(c, l) && OrderPlaysNoPart(rt.lib, c, ctx.attributes)
    ensures Evaluate(rt, Compile(l), ctx, now) == Evaluate(rt, c, ctx, now)
  {
    hide Valid, Compile, OrderPlaysNoPart, Evaluate;
    CompileReadsBack(l, c);
    EvaluateAlike(rt, c, Compile(l), ctx, now);
  }

  lemma {:induction false} UnprovenReadingsDiffer(lib: Library, c: FlagConfiguration, attributes: map<string, Json>)
    requires Valid(c) && !OrderPlaysNoPart(lib, c, attributes)
    ensures !ReadingsAgree(lib, c, attributes)
  {
    var sorted := SortBy(c.rules, Priority);
    SortedRulesAreSound(c);
    var a, s, b := OrdersDiffer(lib, c, attributes, sorted);
    var rt: Runtime, subjectKey, now :|
      rt.lib == lib && DiffersAt(rt, c, Context(subjectKey, attributes), now, a, s, b, c.stages);
    hide Valid, OrderProof, RulesSound, SortBy, AllReordered, IsReadingOf, Compile, Evaluate, ReadAs;
    var ctx := Context(subjectKey, attributes);
    ReadAsIsAReading(c, a, s);
    ReadAsIsAReading(c, b, c.stages);
    ReadAsWalks(rt, c, a, s, ctx, now);
    ReadAsWalks(rt, c, b, c.stages, ctx, now);
    hide Walk;
    assert Evaluate(rt, Compile(ReadAs(c, a, s)), ctx, now) != Evaluate(rt, c, ctx, now)
      || Evaluate(rt, Compile(ReadAs(c, b, c.stages)), ctx, now) != Evaluate(rt, c, ctx, now);
  }

  /**
   * The exact condition under which storage keeps the meaning of a configuration: all readings of its
   * rows answer like it, for these attributes, if and only if no order that the walk can see matters.
   */
  lemma {:induction false} StorageKeepsMeaningExactly(lib: Library, c: FlagConfiguration, attributes: map<string, Json>)
    requires Valid(c) && DistinctPriorities(c)
    ensures ReadingsAgree(lib, c, attributes) <==> OrderPlaysNoPart(lib, c, attributes)
  {
    hide Valid, IsReadingOf, Compile, Evaluate, DistinctPriorities;
    if OrderPlaysNoPart(lib, c, attributes) {
      hide OrderPlaysNoPart;
      forall l, rt: Runtime, subjectKey, now | IsReadingOf(c, l) && rt.lib == lib
        ensures Evaluate(rt, Compile(l), Context(subjectKey, attributes), now)
             == Evaluate(rt, c, Context(subjectKey, attributes), now)
      {
        StorageKeepsMeaning(rt, c, l, Context(subjectKey, attributes), now);
      }
    } else {
      UnprovenReadingsDiffer(lib, c, attributes);
    }
  }

  lemma {:induction false} EnoughForAnyOrder(
    lib: Library, rules: seq<Rule>, stages: seq<Stage>, attributes: map<string, Json>)
    requires Unambiguous(stages)
    requires forall r :: r in rules ==> Steady(lib, r.conditions, attributes) && Unambiguous(r.stages)
    ensures OrderProof(lib, rules, stages, attributes)
  {
    hide AllMatch, Steady, Unambiguous;
    if rules != [] {
      EnoughForAnyOrder(lib, rules[1..], stages, attributes);
    }
  }

  /** Nothing tied anywhere and nothing that hides an exception is more than enough. */
  lemma {:induction false} UntiedIsEnough(lib: Library, c: FlagConfiguration, attributes: map<string, Json>)
    requires StagesUnambiguous(c) && SteadyRules(lib, c, attributes)
    ensures OrderPlaysNoPart(lib, c, attributes)
  {
    hide Steady, Unambiguous, SortBy;
    forall r | r in SortBy(c.rules, Priority) ensures r in c.rules {
      SortedRulesAreRules(c, r);
    }
    EnoughForAnyOrder(lib, SortBy(c.rules, Priority), c.stages, attributes);
  }
}
