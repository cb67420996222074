/** The decision engine (backend/app/evaluation/engine.py). */
module Engine {
  import opened Prelude
  import opened Operators
  import opened Sorting
  import opened Configuration
  import opened Rollout
  import opened Stages
  import opened Hashing

  /** The library functions the engine depends on; their inner workings are not modelled. */
  datatype Runtime = Runtime(lib: Library, utf8: string -> Component, hash: seq<Byte> -> Digest)

  datatype Context = Context(subjectKey: string, attributes: map<string, Json>)

  datatype Reason = FlagDisabled | TargetingMatch | PercentageRollout | ProgressiveRollout | Default

  datatype Evaluation = Evaluation(
    flagKey: string, value: Json, variation: string, reason: Reason,
    matchedRule: Option<string>, configVersion: int, evaluatedAt: int)

  function SubjectBucket(rt: Runtime, id: Identity, subjectKey: string): (r: int)
    ensures 0 <= r < BUCKET_COUNT
  {
    Bucket(rt.hash, [rt.utf8("fv9"), rt.utf8(id.projectId), rt.utf8(id.environmentId),
                     rt.utf8(id.flagKey), rt.utf8(subjectKey), rt.utf8(id.salt)])
  }

  function Check(lib: Library, condition: Condition, attributes: map<string, Json>): Outcome<bool> {
    var actual := if condition.attribute in attributes then Some(attributes[condition.attribute]) else None;
    ConditionMatches(lib, condition.operator, actual, condition.value)
  }

  /** `all(...)` over the conditions, which stops at the first one that is false or raises. */
  function AllMatch(lib: Library, conditions: seq<Condition>, attributes: map<string, Json>): Outcome<bool> {
    if conditions == [] then Returned(true)
    else
      var first := Check(lib, conditions[0], attributes);
      if first == Returned(true) then AllMatch(lib, conditions[1..], attributes) else first
  }

  /** `_result`; looking up an undeclared variation is a KeyError. */
  function ResultFor(c: FlagConfiguration, variation: string, reason: Reason, matched: Option<string>, now: int)
    : Outcome<Evaluation>
  {
    if variation in c.variations then
      Returned(Evaluation(c.identity.flagKey, c.variations[variation], variation, reason, matched, c.configVersion,
        now))
    else Raised
  }

  function RuleResult(rt: Runtime, c: FlagConfiguration, ctx: Context, now: int, rule: Rule): Outcome<Evaluation> {
    var bucket := SubjectBucket(rt, c.identity, ctx.subjectKey);
    if Truthy(rule.variation) then ResultFor(c, rule.variation.value, TargetingMatch, Some(rule.name), now)
    else if rule.stages != [] then
      ResultFor(c, Progressive(rule.stages, bucket, now), ProgressiveRollout, Some(rule.name), now)
    else
      var variation :- Scan(rule.rollout, bucket);
      ResultFor(c, variation, PercentageRollout, Some(rule.name), now)
  }

  function FlagResult(rt: Runtime, c: FlagConfiguration, ctx: Context, now: int): Outcome<Evaluation> {
    var bucket := SubjectBucket(rt, c.identity, ctx.subjectKey);
    if c.stages != [] then ResultFor(c, Progressive(c.stages, bucket, now), ProgressiveRollout, None, now)
    else if c.rollout != [] then
      var variation :- Scan(c.rollout, bucket);
      ResultFor(c, variation, PercentageRollout, None, now)
    else ResultFor(c, c.defaultVariation, Default, None, now)
  }

  /** A rule the loop does not pass over: its conditions hold, or one of them raises. */
  predicate Stops(lib: Library, rule: Rule, attributes: map<string, Json>) {
    AllMatch(lib, rule.conditions, attributes) != Returned(false)
  }

  function FirstStop(lib: Library, rules: seq<Rule>, attributes: map<string, Json>): (r: Option<Rule>)
    ensures r.Some? ==> r.value in rules && Stops(lib, r.value, attributes)
    ensures r.None? ==> forall rule :: rule in rules ==> !Stops(lib, rule, attributes)
  {
    if rules == [] then None
    else if Stops(lib, rules[0], attributes) then Some(rules[0])
    else FirstStop(lib, rules[1..], attributes)
  }

  function Evaluate(rt: Runtime, c: FlagConfiguration, ctx: Context, now: int): Outcome<Evaluation> {
    if !c.enabled then ResultFor(c, c.defaultVariation, FlagDisabled, None, now)
    else
      match FirstStop(rt.lib, SortBy(c.rules, Priority), ctx.attributes)
      case None => FlagResult(rt, c, ctx, now)
      case Some(rule) =>
        if AllMatch(rt.lib, rule.conditions, ctx.attributes).Raised? then Raised
        else RuleResult(rt, c, ctx, now, rule)
  }

  /** `get_bucket`: hashed on first use, remembered afterwards. */
  method GetBucket(rt: Runtime, id: Identity, subjectKey: string, memo: Option<int>) returns (bucket: int)
    requires memo.Some? ==> memo.value == SubjectBucket(rt, id, subjectKey)
    ensures bucket == SubjectBucket(rt, id, subjectKey)
  {
    if memo.Some? {
      return memo.value;
    }
    bucket := StableBucket(rt.hash, [rt.utf8("fv9"), rt.utf8(id.projectId), rt.utf8(id.environmentId),
                                     rt.utf8(id.flagKey), rt.utf8(subjectKey), rt.utf8(id.salt)]);
  }

  /** `evaluate_flag`. */
  method EvaluateFlag(rt: Runtime, c: FlagConfiguration, ctx: Context, now: int) returns (r: Outcome<Evaluation>)
    ensures r == Evaluate(rt, c, ctx, now)
  {
    if !c.enabled {
      return ResultFor(c, c.defaultVariation, FlagDisabled, None, now);
    }
    var memo: Option<int> := None;
    var rules := SortBy(c.rules, Priority);
    for i := 0 to |rules|
      invariant memo.None?
      invariant FirstStop(rt.lib, rules, ctx.attributes) == FirstStop(rt.lib, rules[i..], ctx.attributes)
    {
      var rule := rules[i];
      assert rules[i..][0] == rule && rules[i..][1..] == rules[i + 1..];
      var matched := AllMatch(rt.lib, rule.conditions, ctx.attributes);
      if matched.Raised? {
        return Raised;
      }
      if !matched.value {
        continue;
      }
      if Truthy(rule.variation) {
        return ResultFor(c, rule.variation.value, TargetingMatch, Some(rule.name), now);
      }
      var bucket := GetBucket(rt, c.identity, ctx.subjectKey, memo);
      memo := Some(bucket);
      if rule.stages != [] {
        return ResultFor(c, Progressive(rule.stages, bucket, now), ProgressiveRollout, Some(rule.name), now);
      }
      var variation := RolloutVariation(rule.rollout, bucket);
      if variation.Raised? {
        return Raised;
      }
      return ResultFor(c, variation.value, PercentageRollout, Some(rule.name), now);
    }
    if c.stages != [] {
      var bucket := GetBucket(rt, c.identity, ctx.subjectKey, memo);
      return ResultFor(c, Progressive(c.stages, bucket, now), ProgressiveRollout, None, now);
    }
    if c.rollout != [] {
      var bucket := GetBucket(rt, c.identity, ctx.subjectKey, memo);
      var variation := RolloutVariation(c.rollout, bucket);
      if variation.Raised? {
        return Raised;
      }
      return ResultFor(c, variation.value, PercentageRollout, None, now);
    }
    return ResultFor(c, c.defaultVariation, Default, None, now);
  }

  // ----- the order of conditions -----

  ghost predicate SomeOutcome(
    lib: Library, conditions: seq<Condition>, attributes: map<string, Json>, o: Outcome<bool>)
  {
    exists d :: d in conditions && Check(lib, d, attributes) == o
  }

  /** No list holds both a condition that is false and one that raises. */
  ghost predicate Steady(lib: Library, conditions: seq<Condition>, attributes: map<string, Json>) {
    !(SomeOutcome(lib, conditions, attributes, Returned(false)) && SomeOutcome(lib, conditions, attributes, Raised))
  }

  lemma {:induction false} FirstFailureDecides(lib: Library, conditions: seq<Condition>, attributes: map<string, Json>)
    ensures var r := AllMatch(lib, conditions, attributes);
            && (r == Returned(true) <==> forall d :: d in conditions ==> Check(lib, d, attributes) == Returned(true))
            && (r != Returned(true) ==> SomeOutcome(lib, conditions, attributes, r))
  {
    if conditions != [] {
      FirstFailureDecides(lib, conditions[1..], attributes);
      assert conditions == [conditions[0]] + conditions[1..];
    }
  }

  lemma {:induction false} SteadyIgnoresOrder(
    lib: Library, a: seq<Condition>, b: seq<Condition>, attributes: map<string, Json>)
    requires multiset(a) == multiset(b) && Steady(lib, a, attributes)
    ensures AllMatch(lib, a, attributes) == AllMatch(lib, b, attributes)
  {
    FirstFailureDecides(lib, a, attributes);
    FirstFailureDecides(lib, b, attributes);
    forall d ensures d in a <==> d in b {
      InBoth(a, b, d);
    }
  }

  lemma {:induction false} CheckFirst(
    lib: Library, conditions: seq<Condition>, attributes: map<string, Json>, d: Condition)
    returns (order: seq<Condition>)
    requires d in conditions && Check(lib, d, attributes) != Returned(true)
    ensures multiset(order) == multiset(conditions)
    ensures AllMatch(lib, order, attributes) == Check(lib, d, attributes)
  {
    var i :| 0 <= i < |conditions| && conditions[i] == d;
    order := [d] + Without(conditions, i);
    MultisetWithout(conditions, i);
  }

  ghost predicate ConditionOrderFree(lib: Library, conditions: seq<Condition>, attributes: map<string, Json>) {
    forall order :: multiset(order) == multiset(conditions) ==>
      AllMatch(lib, order, attributes) == AllMatch(lib, conditions, attributes)
  }

  /** AND is free of order exactly when no condition can hide another one's exception. */
  lemma {:induction false} ConditionOrderExactly(
    lib: Library, conditions: seq<Condition>, attributes: map<string, Json>)
    ensures ConditionOrderFree(lib, conditions, attributes) <==> Steady(lib, conditions, attributes)
  {
    if Steady(lib, conditions, attributes) {
      forall order | multiset(order) == multiset(conditions)
        ensures AllMatch(lib, order, attributes) == AllMatch(lib, conditions, attributes)
      {
        SteadyIgnoresOrder(lib, conditions, order, attributes);
      }
    } else {
      var no :| no in conditions && Check(lib, no, attributes) == Returned(false);
      var bad :| bad in conditions && Check(lib, bad, attributes) == Raised;
      var noFirst := CheckFirst(lib, conditions, attributes, no);
      var badFirst := CheckFirst(lib, conditions, attributes, bad);
    }
  }

  const PLAN := Condition("plan", "equals", Str("pro"))
  const AGE := Condition("age", "in", Str("abc"))

  /** One order of two conditions passes the rule over, the other ends the evaluation with an exception. */
  lemma {:induction false} FalseConditionHidesException(lib: Library)
    ensures var attributes := map["plan" := Str("free"), "age" := Int(5)];
      && multiset([PLAN, AGE]) == multiset([AGE, PLAN])
      && AllMatch(lib, [PLAN, AGE], attributes) == Returned(false)
      && AllMatch(lib, [AGE, PLAN], attributes) == Raised
  {
  }

  /** A condition on an attribute the context lacks keeps its rule from matching, unless it asks for just that. */
  lemma {:induction false} AbsentAttributeNeverMatches(
    lib: Library, conditions: seq<Condition>, attributes: map<string, Json>, d: Condition)
    requires d in conditions && d.operator in NAMES && d.attribute !in attributes && d.operator != "not_exists"
    ensures AllMatch(lib, conditions, attributes) != Returned(true)
  {
    hide ConditionMatches;
    MissingAttribute(lib, d.operator, d.value);
    FirstFailureDecides(lib, conditions, attributes);
  }

  // ----- which rule decides -----

  /** Among the rules that stop the loop: the least priority, then the least position. */
  ghost predicate LeastStop(lib: Library, rules: seq<Rule>, attributes: map<string, Json>, i: nat) {
    && i < |rules| && Stops(lib, rules[i], attributes)
    && forall j :: 0 <= j < |rules| && Stops(lib, rules[j], attributes) ==>
         rules[i].priority < rules[j].priority || (rules[i].priority == rules[j].priority && i <= j)
  }

  lemma {:induction false} FirstStopAfterInsert(
    lib: Library, rule: Rule, rules: seq<Rule>, attributes: map<string, Json>)
    requires Ascending(rules, Priority)
    ensures FirstStop(lib, Insert(rule, rules, Priority), attributes)
         == var rest := FirstStop(lib, rules, attributes);
            if Stops(lib, rule, attributes) && (rest.None? || rule.priority <= rest.value.priority) then Some(rule)
              else rest
  {
    var all := Insert(rule, rules, Priority);
    if rules == [] || rule.priority <= rules[0].priority {
      assert all[0] == rule && all[1..] == rules;
      if FirstStop(lib, rules, attributes).Some? {
        var k :| 0 <= k < |rules| && rules[k] == FirstStop(lib, rules, attributes).value;
        assert Priority(rules[0]) <= Priority(rules[k]);
      }
    } else {
      assert all[0] == rules[0] && all[1..] == Insert(rule, rules[1..], Priority);
      FirstStopAfterInsert(lib, rule, rules[1..], attributes);
    }
  }

  /** From the least stop of the tail to that of the whole list. */
  lemma {:induction false} LeastStopStep(
    lib: Library, rules: seq<Rule>, attributes: map<string, Json>, rest: Option<nat>, next: Option<nat>)
    requires rules != []
    requires rest.Some? ==> LeastStop(lib, rules[1..], attributes, rest.value)
    requires rest.None? ==> forall r :: r in rules[1..] ==> !Stops(lib, r, attributes)
    requires next == if Stops(lib, rules[0], attributes)
      && (rest.None? || rules[0].priority <= rules[1..][rest.value].priority)
                     then Some(0) else if rest.Some? then Some(rest.value + 1) else None
    ensures next.Some? ==> LeastStop(lib, rules, attributes, next.value)
    ensures next.None? ==> forall r :: r in rules ==> !Stops(lib, r, attributes)
  {
    hide Stops;
    forall j | 0 <= j < |rules| && j > 0 ensures rules[j] == rules[1..][j - 1] && rules[j] in rules[1..] {
    }
  }

  lemma {:induction false} FirstStopIsLeast(
    lib: Library, rules: seq<Rule>, attributes: map<string, Json>) returns (i: Option<nat>)
    ensures var stop := FirstStop(lib, SortBy(rules, Priority), attributes);
            && (stop.None? <==> i.None?)
            && (i.None? ==> forall r :: r in rules ==> !Stops(lib, r, attributes))
            && (i.Some? ==> LeastStop(lib, rules, attributes, i.value) && stop.value == rules[i.value])
  {
    hide Stops, LeastStop;
    i := None;
    if rules != [] {
      var rest := FirstStopIsLeast(lib, rules[1..], attributes);
      var sorted := SortBy(rules[1..], Priority);
      SortedPermutation(rules[1..], Priority);
      FirstStopAfterInsert(lib, rules[0], sorted, attributes);
      assert SortBy(rules, Priority) == Insert(rules[0], sorted, Priority);
      assert rest.Some? ==> rest.value < |rules[1..]| by {
        if rest.Some? {
          LeastStopInRange(lib, rules[1..], attributes, rest.value);
        }
      }
      i := if Stops(lib, rules[0], attributes) && (rest.None? || rules[0].priority <= rules[1..][rest.value].priority)
           then Some(0) else if rest.Some? then Some(rest.value + 1) else None;
      hide FirstStop, SortBy, Insert;
      LeastStopStep(lib, rules, attributes, rest, i);
    }
  }

  lemma {:induction false} LeastStopInRange(lib: Library, rules: seq<Rule>, attributes: map<string, Json>, i: nat)
    requires LeastStop(lib, rules, attributes, i)
    ensures i < |rules| && Stops(lib, rules[i], attributes)
  {
  }
}
