/** What an evaluation should answer (docs/EVALUATION.md), and that the engine answers it. */
module Semantics {
  import opened Prelude
  import opened Operators
  import opened Sorting
  import opened Configuration
  import opened Rollout
  import opened Stages
  import opened Engine

  /** The latest stage that has started decides; before the first one, its fallback is served. */
  ghost predicate StagesServe(stages: seq<Stage>, bucket: int, now: int, variation: string) {
    || (exists s :: s in stages && s.activateAt <= now && variation == Decide(s, bucket)
          && forall t :: t in stages && t.activateAt <= now ==> t.activateAt <= s.activateAt)
    || (&& (forall s :: s in stages ==> s.activateAt > now)
        && exists s :: s in stages && IsEarliest(stages, s) && variation == s.fallback)
  }

  /** The bucket lies between the boundary before the entry and the entry's own. */
  predicate Owns(rollout: seq<Allocation>, i: nat, bucket: int)
    requires i < |rollout|
  {
    (if i == 0 then 0 else rollout[i - 1].endBucket) <= bucket < rollout[i].endBucket
  }

  ghost predicate RolloutServes(rollout: seq<Allocation>, bucket: int, variation: string) {
    exists i: nat :: i < |rollout| && Owns(rollout, i, bucket) && rollout[i].variation == variation
  }

  ghost predicate Matches(lib: Library, rule: Rule, attributes: map<string, Json>) {
    forall d :: d in rule.conditions ==> Check(lib, d, attributes) == Returned(true)
  }

  /** The matching rule of least priority; of several of that priority, the one listed first. */
  ghost predicate Deciding(lib: Library, rules: seq<Rule>, attributes: map<string, Json>, i: nat) {
    && i < |rules| && Matches(lib, rules[i], attributes)
    && forall j :: 0 <= j < |rules| && Matches(lib, rules[j], attributes) ==>
         rules[i].priority < rules[j].priority || (rules[i].priority == rules[j].priority && i <= j)
  }

  ghost predicate RuleServes(rule: Rule, bucket: int, now: int, e: Evaluation) {
    && e.matchedRule == Some(rule.name)
    && (Truthy(rule.variation) ==> e.reason == TargetingMatch && e.variation == rule.variation.value)
    && (rule.stages != [] ==> e.reason == ProgressiveRollout && StagesServe(rule.stages, bucket, now, e.variation))
    && (rule.rollout != [] ==> e.reason == PercentageRollout && RolloutServes(rule.rollout, bucket, e.variation))
  }

  ghost predicate FlagServes(c: FlagConfiguration, bucket: int, now: int, e: Evaluation) {
    && e.matchedRule == None
    && (c.stages != [] ==> e.reason == ProgressiveRollout && StagesServe(c.stages, bucket, now, e.variation))
    && (c.stages == [] && c.rollout != [] ==>
      e.reason == PercentageRollout && RolloutServes(c.rollout, bucket, e.variation))
    && (c.stages == [] && c.rollout == [] ==> e.reason == Default && e.variation == c.defaultVariation)
  }

  /** Kill switch, then the deciding rule, then the flag's stages, rollout or default. */
  ghost predicate Specified(rt: Runtime, c: FlagConfiguration, ctx: Context, now: int, e: Evaluation) {
    var bucket := SubjectBucket(rt, c.identity, ctx.subjectKey);
    && e.flagKey == c.identity.flagKey && e.configVersion == c.configVersion && e.evaluatedAt == now
    && e.variation in c.variations && e.value == c.variations[e.variation]
    && (!c.enabled ==> e.matchedRule == None && e.reason == FlagDisabled && e.variation == c.defaultVariation)
    && (c.enabled ==>
          && (forall i: nat :: Deciding(rt.lib, c.rules, ctx.attributes, i) ==> RuleServes(c.rules[i], bucket, now, e))
          && ((forall r :: r in c.rules ==> !Matches(rt.lib, r, ctx.attributes)) ==> FlagServes(c, bucket, now, e)))
  }

  ghost predicate NothingRaises(lib: Library, c: FlagConfiguration, attributes: map<string, Json>) {
    forall r, d :: r in c.rules && d in r.conditions ==> Check(lib, d, attributes).Returned?
  }

  ghost predicate StagesUnambiguous(c: FlagConfiguration) {
    Unambiguous(c.stages) && forall r :: r in c.rules ==> Unambiguous(r.stages)
  }

  lemma {:induction false} ProgressiveServes(stages: seq<Stage>, bucket: int, now: int)
    requires stages != []
    ensures StagesServe(stages, bucket, now, Progressive(stages, bucket, now))
  {
    var active := Active(stages, now);
    if active == [] {
      assert IsEarliest(stages, Earliest(stages));
    } else {
      assert Latest(active) in stages;
    }
  }

  lemma {:induction false} ScanServes(rollout: seq<Allocation>, bucket: int)
    requires ValidRollout(rollout) && rollout != [] && 0 <= bucket < BUCKET_COUNT
    ensures Scan(rollout, bucket).Returned? && RolloutServes(rollout, bucket, Scan(rollout, bucket).value)
  {
    ScanSucceeds(rollout, bucket);
    var i := ServingEntry(rollout, bucket);
    assert Owns(rollout, i, bucket);
  }

  /** A stage list serves a declared variation. */
  lemma {:induction false} ProgressiveDeclared(keys: set<string>, stages: seq<Stage>, bucket: int, now: int)
    requires stages != [] && StagesDeclared(keys, stages)
    ensures Progressive(stages, bucket, now) in keys
  {
    var active := Active(stages, now);
    if active != [] {
      assert Latest(active) in stages;
    }
  }

  lemma {:induction false} RuleResultServes(rt: Runtime, c: FlagConfiguration, ctx: Context, now: int, rule: Rule)
    requires Valid(c) && rule in c.rules
    ensures var bucket := SubjectBucket(rt, c.identity, ctx.subjectKey);
            && RuleResult(rt, c, ctx, now, rule).Returned?
            && RuleServes(rule, bucket, now, RuleResult(rt, c, ctx, now, rule).value)
  {
    var bucket := SubjectBucket(rt, c.identity, ctx.subjectKey);
    if rule.stages != [] {
      ProgressiveServes(rule.stages, bucket, now);
      ProgressiveDeclared(c.variations.Keys, rule.stages, bucket, now);
    }
    if rule.rollout != [] {
      ScanServes(rule.rollout, bucket);
    }
  }

  lemma {:induction false} FlagResultServes(rt: Runtime, c: FlagConfiguration, ctx: Context, now: int)
    requires Valid(c)
    ensures var bucket := SubjectBucket(rt, c.identity, ctx.subjectKey);
            && FlagResult(rt, c, ctx, now).Returned?
            && FlagServes(c, bucket, now, FlagResult(rt, c, ctx, now).value)
  {
    var bucket := SubjectBucket(rt, c.identity, ctx.subjectKey);
    if c.stages != [] {
      ProgressiveServes(c.stages, bucket, now);
      ProgressiveDeclared(c.variations.Keys, c.stages, bucket, now);
    }
    if c.rollout != [] {
      ScanServes(c.rollout, bucket);
    }
  }

  lemma {:induction false} OneLeastStop(lib: Library, rules: seq<Rule>, attributes: map<string, Json>, i: nat, j: nat)
    requires LeastStop(lib, rules, attributes, i) && LeastStop(lib, rules, attributes, j)
    ensures i == j
  {
    hide Stops;
  }

  /** A valid configuration raises in exactly one way: the rule that decides has a condition that raises. */
  lemma {:induction false} OnlyConditionsRaise(rt: Runtime, c: FlagConfiguration, ctx: Context, now: int)
    requires Valid(c)
    ensures Evaluate(rt, c, ctx, now).Raised? <==>
            c.enabled && exists i: nat :: LeastStop(rt.lib, c.rules, ctx.attributes, i)
                                  && AllMatch(rt.lib, c.rules[i].conditions, ctx.attributes).Raised?
  {
    var i := FirstStopIsLeast(rt.lib, c.rules, ctx.attributes);
    FlagResultServes(rt, c, ctx, now);
    if i.Some? {
      LeastStopInRange(rt.lib, c.rules, ctx.attributes, i.value);
      RuleResultServes(rt, c, ctx, now, c.rules[i.value]);
      forall j: nat | LeastStop(rt.lib, c.rules, ctx.attributes, j) ensures i.value == j {
        OneLeastStop(rt.lib, c.rules, ctx.attributes, i.value, j);
      }
    }
    hide FlagResult, RuleResult, AllMatch, FlagServes, RuleServes, SortBy, FirstStop;
    if exists j: nat :: LeastStop(rt.lib, c.rules, ctx.attributes, j) {
      var j: nat :| LeastStop(rt.lib, c.rules, ctx.attributes, j);
      LeastStopInRange(rt.lib, c.rules, ctx.attributes, j);
    }
  }

  lemma {:induction false} StopsMeansMatches(
    lib: Library, c: FlagConfiguration, attributes: map<string, Json>, rule: Rule)
    requires NothingRaises(lib, c, attributes) && rule in c.rules
    ensures Stops(lib, rule, attributes) <==> Matches(lib, rule, attributes)
    ensures AllMatch(lib, rule.conditions, attributes).Returned?
  {
    FirstFailureDecides(lib, rule.conditions, attributes);
  }

  lemma {:induction false} DecidingIsLeastStop(lib: Library, c: FlagConfiguration, attributes: map<string, Json>)
    requires NothingRaises(lib, c, attributes)
    ensures forall i: nat :: Deciding(lib, c.rules, attributes, i) <==> LeastStop(lib, c.rules, attributes, i)
    ensures forall r :: r in c.rules ==> (Stops(lib, r, attributes) <==> Matches(lib, r, attributes))
  {
    forall rule | rule in c.rules ensures Stops(lib, rule, attributes) <==> Matches(lib, rule, attributes) {
      StopsMeansMatches(lib, c, attributes, rule);
    }
  }

  /** The parts of an answer that do not depend on what decided. */
  ghost predicate ServesDeclared(c: FlagConfiguration, now: int, e: Evaluation) {
    && e.flagKey == c.identity.flagKey && e.configVersion == c.configVersion && e.evaluatedAt == now
    && e.variation in c.variations && e.value == c.variations[e.variation] && ValueHasType(c.identity.flagType, e.value)
  }

  lemma {:induction false} AnswerServesDeclared(rt: Runtime, c: FlagConfiguration, ctx: Context, now: int)
    requires Valid(c) && Evaluate(rt, c, ctx, now).Returned?
    ensures ServesDeclared(c, now, Evaluate(rt, c, ctx, now).value)
  {
    hide FirstStop, SortBy, AllMatch, Scan, Progressive, ValidRule, RuleDeclared, RolloutDeclared, StagesDeclared;
  }

  lemma {:induction false} DecidingRuleServes(rt: Runtime, c: FlagConfiguration, ctx: Context, now: int)
    requires Valid(c) && NothingRaises(rt.lib, c, ctx.attributes) && c.enabled
    ensures Evaluate(rt, c, ctx, now).Returned?
    ensures var e := Evaluate(rt, c, ctx, now).value;
      var bucket := SubjectBucket(rt, c.identity, ctx.subjectKey);
      && (forall i: nat :: Deciding(rt.lib, c.rules, ctx.attributes, i) ==> RuleServes(c.rules[i], bucket, now, e))
      && ((forall r :: r in c.rules ==> !Matches(rt.lib, r, ctx.attributes)) ==> FlagServes(c, bucket, now, e))
  {
    hide Valid, NothingRaises, RuleServes, FlagServes, RuleResult, FlagResult, AllMatch, Matches, LeastStop, Deciding,
      SortBy;
    DecidingIsLeastStop(rt.lib, c, ctx.attributes);
    var i := FirstStopIsLeast(rt.lib, c.rules, ctx.attributes);
    if i.Some? {
      LeastStopInRange(rt.lib, c.rules, ctx.attributes, i.value);
      StopsMeansMatches(rt.lib, c, ctx.attributes, c.rules[i.value]);
      RuleResultServes(rt, c, ctx, now, c.rules[i.value]);
      forall j: nat | Deciding(rt.lib, c.rules, ctx.attributes, j) ensures j == i.value {
        OneLeastStop(rt.lib, c.rules, ctx.attributes, i.value, j);
      }
    } else {
      FlagResultServes(rt, c, ctx, now);
      forall j: nat | Deciding(rt.lib, c.rules, ctx.attributes, j) ensures false {
        LeastStopInRange(rt.lib, c.rules, ctx.attributes, j);
      }
    }
  }

  /** Where nothing raises, a valid configuration answers, and answers what is specified. */
  lemma {:induction false} EvaluateMeetsSpecification(rt: Runtime, c: FlagConfiguration, ctx: Context, now: int)
    requires Valid(c) && NothingRaises(rt.lib, c, ctx.attributes)
    ensures Evaluate(rt, c, ctx, now).Returned?
    ensures Specified(rt, c, ctx, now, Evaluate(rt, c, ctx, now).value)
    ensures ValueHasType(c.identity.flagType, Evaluate(rt, c, ctx, now).value.value)
  {
    hide NothingRaises, RuleServes, FlagServes, RuleResult, FlagResult, AllMatch, Matches, Deciding, SortBy, FirstStop;
    if c.enabled {
      DecidingRuleServes(rt, c, ctx, now);
    }
    AnswerServesDeclared(rt, c, ctx, now);
  }

  lemma {:induction false} StagesServeOnce(stages: seq<Stage>, bucket: int, now: int, v: string, w: string)
    requires Unambiguous(stages) && 0 <= bucket < BUCKET_COUNT
    requires StagesServe(stages, bucket, now, v) && StagesServe(stages, bucket, now, w)
    ensures v == w
  {
    if exists s :: s in stages && s.activateAt <= now {
      var s :| s in stages && s.activateAt <= now && v == Decide(s, bucket)
               && forall t :: t in stages && t.activateAt <= now ==> t.activateAt <= s.activateAt;
      var t :| t in stages && t.activateAt <= now && w == Decide(t, bucket)
               && forall u :: u in stages && u.activateAt <= now ==> u.activateAt <= t.activateAt;
      NormalFormIsExact(s, t);
    } else {
      var s :| s in stages && IsEarliest(stages, s) && v == s.fallback;
      var t :| t in stages && IsEarliest(stages, t) && w == t.fallback;
      assert s.activateAt == t.activateAt;
    }
  }

  lemma {:induction false} RolloutServesOnce(rollout: seq<Allocation>, bucket: int, v: string, w: string)
    requires ValidRollout(rollout)
    requires RolloutServes(rollout, bucket, v) && RolloutServes(rollout, bucket, w)
    ensures v == w
  {
  }

  lemma {:induction false} SomeRuleDecides(
    lib: Library, c: FlagConfiguration, attributes: map<string, Json>) returns (i: nat)
    requires NothingRaises(lib, c, attributes)
    requires exists r :: r in c.rules && Matches(lib, r, attributes)
    ensures Deciding(lib, c.rules, attributes, i)
  {
    hide NothingRaises, Stops, Matches, LeastStop, Deciding;
    DecidingIsLeastStop(lib, c, attributes);
    var least := FirstStopIsLeast(lib, c.rules, attributes);
    i := least.value;
  }

  /** The specification leaves no choice once tied stages are interchangeable. */
  lemma {:induction false} SpecificationIsDeterministic(
    rt: Runtime, c: FlagConfiguration, ctx: Context, now: int, e: Evaluation, f: Evaluation)
    requires Valid(c) && NothingRaises(rt.lib, c, ctx.attributes) && StagesUnambiguous(c)
    requires Specified(rt, c, ctx, now, e) && Specified(rt, c, ctx, now, f)
    ensures e == f
  {
    var bucket := SubjectBucket(rt, c.identity, ctx.subjectKey);
    if c.enabled {
      if exists r :: r in c.rules && Matches(rt.lib, r, ctx.attributes) {
        var i := SomeRuleDecides(rt.lib, c, ctx.attributes);
        var rule := c.rules[i];
        assert rule in c.rules && ValidRule(rule);
        if rule.stages != [] {
          StagesServeOnce(rule.stages, bucket, now, e.variation, f.variation);
        } else if rule.rollout != [] {
          RolloutServesOnce(rule.rollout, bucket, e.variation, f.variation);
        }
      } else if c.stages != [] {
        StagesServeOnce(c.stages, bucket, now, e.variation, f.variation);
      } else if c.rollout != [] {
        RolloutServesOnce(c.rollout, bucket, e.variation, f.variation);
      }
    }
  }

  /** The engine answers `e` if and only if `e` is what is specified. */
  lemma {:induction false} EvaluateExactly(rt: Runtime, c: FlagConfiguration, ctx: Context, now: int, e: Evaluation)
    requires Valid(c) && NothingRaises(rt.lib, c, ctx.attributes) && StagesUnambiguous(c)
    ensures Evaluate(rt, c, ctx, now) == Returned(e) <==> Specified(rt, c, ctx, now, e)
  {
    EvaluateMeetsSpecification(rt, c, ctx, now);
    if Specified(rt, c, ctx, now, e) {
      SpecificationIsDeterministic(rt, c, ctx, now, e, Evaluate(rt, c, ctx, now).value);
    }
  }
}
