/** What a scheduled change does to a configuration (backend/app/scheduler/__init__.py:25-58). */
module Schedule {
  import opened Prelude
  import opened Operators
  import opened Sorting
  import opened Configuration
  import opened Rollout
  import opened Stages
  import opened Engine
  import opened Semantics
  import opened Rows
  import opened Payloads

  /**
   * A change type with its payload fields; None stands for a field that is missing or that
   * `str()` or `int()` does not convert.
   */
  datatype Change =
    | Enable
    | Disable
    | SwitchVariation(key: Option<string>)
    | RolloutPercentage(percentage: Option<int>, variation: Option<string>, fallback: Option<string>)
    | Unsupported

  predicate WellFormed(ch: Change) {
    match ch
    case Enable => true
    case Disable => true
    case SwitchVariation(key) => key.Some?
    case RolloutPercentage(p, v, f) => p.Some? && 0 <= p.value <= BUCKET_COUNT && v.Some? && f.Some?
    case Unsupported => false
  }

  function PercentageShares(percentage: int, variation: string, fallback: string): seq<RolloutInput> {
    (if percentage != 0 then [RolloutInput(variation, percentage)] else [])
    + (if percentage < BUCKET_COUNT then [RolloutInput(fallback, BUCKET_COUNT - percentage)] else [])
  }

  function Applied(ch: Change, p: FlagUpdate): Outcome<FlagUpdate> {
    if !WellFormed(ch) then Raised
    else
      match ch
      case Enable => Returned(p.(enabled := true))
      case Disable => Returned(p.(enabled := false))
      case SwitchVariation(key) => Returned(p.(defaultVariation := key.value, rollout := [], stages := []))
      case RolloutPercentage(n, v, f) =>
        Returned(p.(rollout := PercentageShares(n.value, v.value, f.value), stages := []))
  }

  /** `_apply_payload`: overwrites fields of the update payload. */
  method ApplyPayload(ch: Change, p: FlagUpdate) returns (r: Outcome<FlagUpdate>)
    ensures r == Applied(ch, p)
  {
    var payload := p;
    match ch {
      case Enable =>
        payload := payload.(enabled := true);
      case Disable =>
        payload := payload.(enabled := false);
      case SwitchVariation(key) =>
        if key.None? {
          return Raised;
        }
        payload := payload.(defaultVariation := key.value);
        payload := payload.(rollout := []);
        payload := payload.(stages := []);
      case RolloutPercentage(percentage, variation, fallback) =>
        if percentage.None? || !(0 <= percentage.value <= BUCKET_COUNT) || variation.None? || fallback.None? {
          return Raised;
        }
        var allocations :=
          if percentage.value != 0 then [RolloutInput(variation.value, percentage.value)] else [];
        if percentage.value < BUCKET_COUNT {
          allocations := allocations + [RolloutInput(fallback.value, BUCKET_COUNT - percentage.value)];
        }
        assert allocations == PercentageShares(percentage.value, variation.value, fallback.value);
        payload := payload.(rollout := allocations);
        payload := payload.(stages := []);
      case Unsupported =>
        return Raised;
    }
    return Returned(payload);
  }

  // ----- what the change means for the configuration -----

  function PercentageRollout(percentage: int, variation: string, fallback: string): seq<Allocation> {
    (if percentage > 0 then [Allocation(variation, percentage)] else [])
    + (if percentage < BUCKET_COUNT then [Allocation(fallback, BUCKET_COUNT)] else [])
  }

  function Changed(c: FlagConfiguration, ch: Change): FlagConfiguration
    requires WellFormed(ch)
  {
    match ch
    case Enable => c.(enabled := true)
    case Disable => c.(enabled := false)
    case SwitchVariation(key) => c.(defaultVariation := key.value, rollout := [], stages := [])
    case RolloutPercentage(p, v, f) => c.(rollout := PercentageRollout(p.value, v.value, f.value), stages := [])
  }

  lemma {:induction false} OneShare(x: RolloutInput)
    ensures Total([x]) == x.basisPoints && RunningSums([x]) == [Allocation(x.variation, x.basisPoints)]
  {
    assert [x][..0] == [];
  }

  lemma {:induction false} PercentageCumulates(percentage: int, variation: string, fallback: string)
    requires 0 <= percentage <= BUCKET_COUNT
    ensures ValidInputs(PercentageShares(percentage, variation, fallback))
    ensures Cumulate(PercentageShares(percentage, variation, fallback))
         == Ok(PercentageRollout(percentage, variation, fallback))
  {
    var shares := PercentageShares(percentage, variation, fallback);
    var one, other := RolloutInput(variation, percentage), RolloutInput(fallback, BUCKET_COUNT - percentage);
    OneShare(one);
    OneShare(other);
    if 0 < percentage < BUCKET_COUNT {
      assert shares == [one, other] && shares[..1] == [one];
      assert RunningSums(shares) == [Allocation(variation, percentage), Allocation(fallback, BUCKET_COUNT)];
    } else if percentage == 0 {
      assert shares == [other]
        && PercentageRollout(percentage, variation, fallback) == [Allocation(fallback, BUCKET_COUNT)];
    } else {
      assert shares == [one]
        && PercentageRollout(percentage, variation, fallback) == [Allocation(variation, BUCKET_COUNT)];
    }
  }

  /** The payload of a scheduled change still passes the request schemas. */
  lemma {:induction false} AppliedPassesSchemas(ch: Change, p: FlagUpdate)
    requires SchemaUpdate(p) && Applied(ch, p).Returned?
    ensures SchemaUpdate(Applied(ch, p).value)
  {
    if ch.RolloutPercentage? {
      PercentageCumulates(ch.percentage.value, ch.variation.value, ch.fallback.value);
    }
  }

  /**
   * Copying a configuration into a payload, applying the change there and building the result is
   * applying the change to the configuration: it succeeds exactly when that is valid.
   */
  lemma {:induction false} AppliedBuilds(
    c: FlagConfiguration, ch: Change, expectedVersion: int, p: FlagUpdate, version: int)
    requires Accepted(c) && Copies(c, expectedVersion, p) && WellFormed(ch) && version >= 1
    ensures Build(c.identity, Applied(ch, p).value, version)
         == if Valid(Changed(c, ch)) then Ok(Changed(c, ch).(configVersion := version))
           else Err(InvalidFlagConfiguration)
  {
    CopyBuilds(c, expectedVersion, p, version);
    assert Cumulate([]) == Ok([]);
    if ch.RolloutPercentage? {
      PercentageCumulates(ch.percentage.value, ch.variation.value, ch.fallback.value);
    }
    assert Valid(Changed(c, ch)) <==> Valid(Changed(c, ch).(configVersion := version));
  }

  // ----- changes do not depend on the order of rows -----

  /** Equal up to the order of rows and the version number. */
  ghost predicate SameContent(c: FlagConfiguration, d: FlagConfiguration) {
    Alike(c, d.(configVersion := c.configVersion))
  }

  lemma {:induction false} VersionIsNoContent(c: FlagConfiguration, d: FlagConfiguration, version: int)
    requires SameContent(c, d)
    ensures SameContent(c.(configVersion := version), d)
  {
  }

  lemma {:induction false} ChangedAlike(c: FlagConfiguration, d: FlagConfiguration, ch: Change)
    requires SameContent(c, d) && WellFormed(ch)
    ensures SameContent(Changed(c, ch), Changed(d, ch))
  {
  }

  lemma {:induction false} WithRuleAlike(c: FlagConfiguration, d: FlagConfiguration, rule: Rule)
    requires SameContent(c, d)
    ensures SameContent(WithRule(c, rule), WithRule(d, rule))
  {
    MapAppend(c.rules, rule);
    MapAppend(d.rules, rule);
  }

  lemma {:induction false} MapAppend(rules: seq<Rule>, rule: Rule)
    ensures multiset(MapSeq(RuleRowOf, rules + [rule])) == multiset(MapSeq(RuleRowOf, rules))
      + multiset{RuleRowOf(rule)}
  {
    assert MapSeq(RuleRowOf, rules + [rule]) == MapSeq(RuleRowOf, rules) + [RuleRowOf(rule)];
  }

  // ----- a scheduled ramp only ever adds subjects -----

  /** No rule of the flag applies to the subject, and none raises. */
  ghost predicate NoRuleApplies(lib: Library, c: FlagConfiguration, attributes: map<string, Json>) {
    forall r :: r in c.rules ==>
      AllMatch(lib, r.conditions, attributes) == Returned(false)
      && forall d :: d in r.conditions ==> Check(lib, d, attributes).Returned?
  }

  lemma {:induction false} NoRuleAppliesAlike(
    lib: Library, c: FlagConfiguration, d: FlagConfiguration, attributes: map<string, Json>)
    requires multiset(MapSeq(RuleRowOf, c.rules)) == multiset(MapSeq(RuleRowOf, d.rules))
    requires NoRuleApplies(lib, c, attributes)
    ensures NoRuleApplies(lib, d, attributes)
  {
    forall r | r in d.rules
      ensures AllMatch(lib, r.conditions, attributes) == Returned(false)
           && forall x :: x in r.conditions ==> Check(lib, x, attributes).Returned?
    {
      var other := Counterpart(d.rules, c.rules, r);
      SteadyIgnoresOrder(lib, other.conditions, r.conditions, attributes);
      forall x | x in r.conditions ensures Check(lib, x, attributes).Returned? {
        InBoth(r.conditions, other.conditions, x);
      }
    }
  }

  lemma {:induction false} PercentageDecides(percentage: int, variation: string, fallback: string, bucket: int)
    requires 0 <= percentage <= BUCKET_COUNT && 0 <= bucket < BUCKET_COUNT
    ensures Scan(PercentageRollout(percentage, variation, fallback), bucket)
         == Returned(if bucket < percentage then variation else fallback)
  {
    var rollout := PercentageRollout(percentage, variation, fallback);
    if percentage > 0 {
      assert rollout[0] == Allocation(variation, percentage);
      if percentage <= bucket {
        assert rollout[1..] == [Allocation(fallback, BUCKET_COUNT)];
      }
    } else {
      assert rollout == [Allocation(fallback, BUCKET_COUNT)];
    }
  }

  /** One active progressive stage decides exactly as a scheduled rollout of its percentage. */
  lemma {:induction false} StageDecidesAsRollout(s: Stage, bucket: int, now: int)
    requires ValidStage(s) && 0 <= bucket < BUCKET_COUNT && s.activateAt <= now
    ensures Scan(PercentageRollout(s.percentage, s.variation, s.fallback), bucket)
         == Returned(Progressive([s], bucket, now))
  {
    PercentageDecides(s.percentage, s.variation, s.fallback, bucket);
    assert Active([s], now) == [s];
  }

  lemma {:induction false} NoRuleStops(rt: Runtime, c: FlagConfiguration, ctx: Context, now: int)
    requires c.enabled && NoRuleApplies(rt.lib, c, ctx.attributes)
    ensures Evaluate(rt, c, ctx, now) == FlagResult(rt, c, ctx, now)
  {
    var stop := FirstStop(rt.lib, SortBy(c.rules, Priority), ctx.attributes);
    if stop.Some? {
      SortedRulesAreRules(c, stop.value);
    }
  }

  /** What a subject outside all rules gets from an enabled flag whose rollout is a scheduled percentage. */
  lemma {:induction false} ScheduledPercentageServes(
    rt: Runtime, c: FlagConfiguration, ctx: Context, now: int, percentage: int, variation: string, fallback: string)
    requires Valid(c) && c.enabled && NoRuleApplies(rt.lib, c, ctx.attributes) && 0 <= percentage <= BUCKET_COUNT
    requires multiset(c.rollout) == multiset(PercentageRollout(percentage, variation, fallback)) && c.stages == []
    ensures var bucket := SubjectBucket(rt, c.identity, ctx.subjectKey);
            && Evaluate(rt, c, ctx, now).Returned?
            && Evaluate(rt, c, ctx, now).value.variation == if bucket < percentage then variation else fallback
  {
    NoRuleStops(rt, c, ctx, now);
    var rollout := PercentageRollout(percentage, variation, fallback);
    RolloutIsItsRows(c.rollout, rollout);
    var bucket := SubjectBucket(rt, c.identity, ctx.subjectKey);
    PercentageDecides(percentage, variation, fallback, bucket);
    FlagResultServes(rt, c, ctx, now);
  }

  // ----- what each change does to the answers -----

  /** A disabled flag serves everybody its default; enabling it again restores every answer it gave. */
  lemma {:induction false} SwitchingOffAndOn(rt: Runtime, c: FlagConfiguration, ctx: Context, now: int)
    requires c.defaultVariation in c.variations
    ensures var r := Evaluate(rt, Changed(c, Disable), ctx, now);
      && r.Returned? && r.value.variation == c.defaultVariation && r.value.reason == FlagDisabled
      && r.value.value == c.variations[c.defaultVariation]
    ensures c.enabled ==>
      Evaluate(rt, Changed(Changed(c, Disable), Enable), ctx, now) == Evaluate(rt, c, ctx, now)
  {
    assert c.enabled ==> Changed(Changed(c, Disable), Enable) == c;
  }

  /** Switching the variation serves it to all subjects of an enabled flag whom no rule concerns. */
  lemma {:induction false} SwitchServes(rt: Runtime, c: FlagConfiguration, key: string, ctx: Context, now: int)
    requires c.enabled && NoRuleApplies(rt.lib, c, ctx.attributes) && key in c.variations
    ensures var r := Evaluate(rt, Changed(c, SwitchVariation(Some(key))), ctx, now);
      r.Returned? && r.value.variation == key && r.value.reason == Default && r.value.value == c.variations[key]
  {
    hide NoRuleApplies, Progressive, Scan;
    var d := Changed(c, SwitchVariation(Some(key)));
    assert NoRuleApplies(rt.lib, d, ctx.attributes) by {
      NoRuleAppliesAlike(rt.lib, c, d, ctx.attributes);
    }
    NoRuleStops(rt, d, ctx, now);
  }

  /** Changes of the flag's own variation, rollout or stages leave alone whomever a rule decides for. */
  lemma {:induction false} RulesGoFirst(rt: Runtime, c: FlagConfiguration, ch: Change, ctx: Context, now: int)
    requires c.enabled && WellFormed(ch) && (ch.SwitchVariation? || ch.RolloutPercentage?)
    requires exists r :: r in c.rules && Stops(rt.lib, r, ctx.attributes)
    ensures Evaluate(rt, Changed(c, ch), ctx, now) == Evaluate(rt, c, ctx, now)
  {
    hide Stops, Progressive, Scan, AllMatch, SortBy;
    assert FirstStop(rt.lib, SortBy(c.rules, Priority), ctx.attributes).Some? by {
      SortedPermutation(c.rules, Priority);
      var r :| r in c.rules && Stops(rt.lib, r, ctx.attributes);
      InBoth(SortBy(c.rules, Priority), c.rules, r);
    }
    hide FirstStop;
  }

  ghost predicate RampLink(
    cs: seq<FlagConfiguration>, percentages: seq<int>, variation: string, fallback: string, i: nat)
    requires i < |percentages| && |cs| == |percentages| + 1
  {
    0 <= percentages[i] <= BUCKET_COUNT
    && SameContent(cs[i + 1], Changed(cs[i], RolloutPercentage(Some(percentages[i]), Some(variation), Some(fallback))))
  }

  /** Each configuration is the one before it with the next percentage scheduled, up to row order. */
  ghost predicate ScheduledRamp(
    cs: seq<FlagConfiguration>, percentages: seq<int>, variation: string, fallback: string)
  {
    && |cs| == |percentages| + 1 && variation != fallback
    && (forall i: nat :: i < |percentages| ==> RampLink(cs, percentages, variation, fallback, i))
    && (forall i, j :: 0 <= i <= j < |percentages| ==> percentages[i] <= percentages[j])
    && (forall i :: 0 <= i < |cs| ==> Valid(cs[i]))
  }

  lemma {:induction false} RampStep(
    lib: Library, c: FlagConfiguration, d: FlagConfiguration, attributes: map<string, Json>,
    percentage: int, variation: string, fallback: string)
    requires c.enabled && NoRuleApplies(lib, c, attributes) && 0 <= percentage <= BUCKET_COUNT
    requires SameContent(d, Changed(c, RolloutPercentage(Some(percentage), Some(variation), Some(fallback))))
    ensures d.enabled && d.identity == c.identity && NoRuleApplies(lib, d, attributes) && d.stages == []
    ensures multiset(d.rollout) == multiset(PercentageRollout(percentage, variation, fallback))
  {
    NoRuleAppliesAlike(lib, c, d, attributes);
    SameLength(d.stages, []);
  }

  lemma {:induction false} RampKeepsTheRest(
    rt: Runtime, cs: seq<FlagConfiguration>, percentages: seq<int>, variation: string, fallback: string, ctx: Context,
    i: nat)
    requires |cs| == |percentages| + 1 && 1 <= i < |cs|
    requires forall k: nat :: k < |percentages| ==> RampLink(cs, percentages, variation, fallback, k)
    requires cs[0].enabled && NoRuleApplies(rt.lib, cs[0], ctx.attributes)
    ensures cs[i].enabled && cs[i].identity == cs[0].identity && 0 <= percentages[i - 1] <= BUCKET_COUNT
    ensures NoRuleApplies(rt.lib, cs[i], ctx.attributes) && cs[i].stages == []
    ensures multiset(cs[i].rollout) == multiset(PercentageRollout(percentages[i - 1], variation, fallback))
  {
    hide NoRuleApplies, SameContent, Changed, PercentageRollout;
    if i > 1 {
      RampKeepsTheRest(rt, cs, percentages, variation, fallback, ctx, i - 1);
    }
    assert RampLink(cs, percentages, variation, fallback, i - 1);
    RampStep(rt.lib, cs[i - 1], cs[i], ctx.attributes, percentages[i - 1], variation, fallback);
  }

  /**
   * Over any sequence of scheduled percentages that do not fall, a subject no rule applies to who
   * once gets the variation keeps it in every later configuration, at whatever instants.
   */
  lemma {:induction false} ScheduledRampKeepsSubjects(
    rt: Runtime, cs: seq<FlagConfiguration>, percentages: seq<int>, variation: string, fallback: string,
    ctx: Context, i: nat, j: nat, earlier: int, later: int)
    requires ScheduledRamp(cs, percentages, variation, fallback) && 1 <= i <= j < |cs|
    requires cs[0].enabled && NoRuleApplies(rt.lib, cs[0], ctx.attributes)
    requires Evaluate(rt, cs[i], ctx, earlier).Returned?
      && Evaluate(rt, cs[i], ctx, earlier).value.variation == variation
    ensures Evaluate(rt, cs[j], ctx, later).Returned? && Evaluate(rt, cs[j], ctx, later).value.variation == variation
  {
    RampKeepsTheRest(rt, cs, percentages, variation, fallback, ctx, i);
    RampKeepsTheRest(rt, cs, percentages, variation, fallback, ctx, j);
    ScheduledPercentageServes(rt, cs[i], ctx, earlier, percentages[i - 1], variation, fallback);
    ScheduledPercentageServes(rt, cs[j], ctx, later, percentages[j - 1], variation, fallback);
  }
}
