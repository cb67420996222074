/**
 * From an API payload to a configuration and back (backend/app/services/flags.py:182-252 and
 * :467-522). Names and descriptions of flags are not part of this model.
 */
module Payloads {
  import opened Prelude
  import opened Operators
  import opened Configuration
  import opened Rollout
  import opened Rows

  datatype VariationInput = VariationInput(key: string, value: Json)

  datatype RuleInput = RuleInput(
    name: string, priority: int, conditions: seq<Condition>,
    variation: Option<string>, rollout: seq<RolloutInput>, stages: seq<Stage>)

  datatype FlagUpdate = FlagUpdate(
    expectedVersion: int, enabled: bool, defaultVariation: string, variations: seq<VariationInput>,
    rules: seq<RuleInput>, rollout: seq<RolloutInput>, stages: seq<Stage>)

  /** The error answers of a write; `UnhandledValidation` is a ValidationError that reaches the 500 handler. */
  datatype WriteError =
    | DuplicateVariation
    | DuplicateRulePriority
    | InvalidFlagAction
    | InvalidRollout
    | InvalidFlagConfiguration
    | UnhandledValidation
    | FlagNotFound
    | EnvironmentNotFound
    | VersionNotFound
    | FlagKeyExists
    | ConfigurationConflict(currentVersion: int)

  // ----- what the request schemas let through (backend/app/api/schemas.py:95-181) -----

  predicate Alphanumeric(c: char) {
    'a' <= c <= 'z' || 'A' <= c <= 'Z' || '0' <= c <= '9'
  }

  predicate VariationKey(s: string) {
    1 <= |s| <= 100 && Alphanumeric(s[0]) && forall i :: 0 <= i < |s| ==> Alphanumeric(s[i]) || s[i] in "_-"
  }

  predicate ValidName(s: string) {
    1 <= |s| <= 200
  }

  predicate KnownCondition(d: Condition) {
    ValidCondition(d) && d.operator in NAMES
  }

  predicate SchemaRule(r: RuleInput) {
    && ValidName(r.name) && r.priority >= 0
    && (forall d :: d in r.conditions ==> KnownCondition(d))
    && ValidInputs(r.rollout)
    && (forall s :: s in r.stages ==> ValidStage(s))
    && OneAction(r.variation, r.rollout != [], r.stages != [])
  }

  predicate SchemaUpdate(p: FlagUpdate) {
    && p.expectedVersion >= 1
    && p.variations != [] && (forall v :: v in p.variations ==> VariationKey(v.key))
    && (forall r :: r in p.rules ==> SchemaRule(r))
    && ValidInputs(p.rollout)
    && (forall s :: s in p.stages ==> ValidStage(s))
  }

  /** The pattern of variation keys: a letter or digit, then up to 99 letters, digits, dashes or underscores. */
  lemma {:induction false} VariationKeyPattern(first: char, rest: string)
    ensures !VariationKey("")
    ensures VariationKey([first] + rest) <==>
      && ('a' <= first <= 'z' || 'A' <= first <= 'Z' || '0' <= first <= '9')
      && |rest| <= 99
      && forall c :: c in rest ==> 'a' <= c <= 'z' || 'A' <= c <= 'Z' || '0' <= c <= '9' || c == '_' || c == '-'
  {
    var s := [first] + rest;
    assert forall c :: c in "_-" <==> c == '_' || c == '-';
    forall i | 0 <= i < |s| ensures s[i] == if i == 0 then first else rest[i - 1] {
    }
    if VariationKey(s) {
      forall c | c in rest ensures Alphanumeric(c) || c in "_-" {
        var i :| 0 <= i < |rest| && rest[i] == c;
        assert s[i + 1] == c;
      }
    }
    if Alphanumeric(first) && forall c :: c in rest ==> Alphanumeric(c) || c in "_-" {
      forall i | 0 <= i < |s| ensures Alphanumeric(s[i]) || s[i] in "_-" {
        assert i > 0 ==> rest[i - 1] in rest;
      }
    }
  }

  /** The limits of the request fields, at their edges. */
  lemma {:induction false} RequestLimits(name: string, basisPoints: int)
    ensures ValidName(name) <==> name != "" && |name| <= 200
    ensures ValidShare(basisPoints) <==> 1 <= basisPoints <= 10000
  {
  }

  // ----- `_build_configuration` -----

  predicate DistinctVariationKeys(vs: seq<VariationInput>) {
    forall i, j :: 0 <= i < j < |vs| ==> vs[i].key != vs[j].key
  }

  predicate DistinctInputPriorities(rules: seq<RuleInput>) {
    forall i, j :: 0 <= i < j < |rules| ==> rules[i].priority != rules[j].priority
  }

  /** `{item.key: item.value for item in variations}`. */
  function DictOf(vs: seq<VariationInput>): map<string, Json> {
    if vs == [] then map[] else DictOf(vs[..|vs| - 1])[vs[|vs| - 1].key := vs[|vs| - 1].value]
  }

  /** The constraints of the engine's `TargetingRule`, checked outside any `try`. */
  predicate RuleFields(r: Rule) {
    && OneAction(r.variation, r.rollout != [], r.stages != [])
    && (forall s :: s in r.stages ==> ValidStage(s))
    && (forall d :: d in r.conditions ==> ValidCondition(d))
  }

  function BuildRule(r: RuleInput): Result<Rule, WriteError> {
    match Cumulate(r.rollout)
    case Err(NotTotal) => Err(InvalidRollout)
    case Err(OutOfRange) => Err(UnhandledValidation)
    case Ok(rollout) =>
      var rule := Rule(r.name, r.priority, r.conditions, r.variation, rollout, r.stages);
      if RuleFields(rule) then Ok(rule) else Err(UnhandledValidation)
  }

  /** The list comprehension over the rules, which ends at the first rule that fails. */
  function BuildRules(rules: seq<RuleInput>): Result<seq<Rule>, WriteError> {
    if rules == [] then Ok([])
    else
      var first :- BuildRule(rules[0]);
      var rest :- BuildRules(rules[1..]);
      Ok([first] + rest)
  }

  function Build(id: Identity, p: FlagUpdate, version: int): Result<FlagConfiguration, WriteError> {
    if !DistinctVariationKeys(p.variations) then Err(DuplicateVariation)
    else if !DistinctInputPriorities(p.rules) then Err(DuplicateRulePriority)
    else if p.rollout != [] && p.stages != [] then Err(InvalidFlagAction)
    else
      var rules :- BuildRules(p.rules);
      match Cumulate(p.rollout)
      case Err(NotTotal) => Err(InvalidRollout)
      case Err(OutOfRange) => Err(InvalidFlagConfiguration)
      case Ok(rollout) =>
        var c := FlagConfiguration(id, p.enabled, p.defaultVariation, DictOf(p.variations), version, rules, rollout,
          p.stages);
        if Valid(c) then Ok(c) else Err(InvalidFlagConfiguration)
  }

  // ----- which payloads are accepted -----

  predicate Complete(inputs: seq<RolloutInput>) {
    inputs == [] || Total(inputs) == BUCKET_COUNT
  }

  predicate SharesDeclared(keys: set<string>, inputs: seq<RolloutInput>) {
    forall x :: x in inputs ==> x.variation in keys
  }

  /** Read off the payload: what the service demands of it beyond its schema. */
  ghost predicate Acceptable(id: Identity, p: FlagUpdate) {
    var keys := set v | v in p.variations :: v.key;
    && DistinctVariationKeys(p.variations) && DistinctInputPriorities(p.rules)
    && (p.rollout == [] || p.stages == [])
    && Complete(p.rollout) && SharesDeclared(keys, p.rollout) && StagesDeclared(keys, p.stages)
    && p.defaultVariation in keys
    && (forall v :: v in p.variations ==> ValueHasType(id.flagType, v.value))
    && (forall r :: r in p.rules ==>
          && Complete(r.rollout) && SharesDeclared(keys, r.rollout) && StagesDeclared(keys, r.stages)
          && (Truthy(r.variation) ==> r.variation.value in keys))
  }

  /** The marks a configuration keeps of the schemas its payload passed. */
  predicate SchemaMarks(c: FlagConfiguration) {
    && c.variations.Keys != {} && (forall k :: k in c.variations ==> VariationKey(k))
    && (forall r :: r in c.rules ==>
          ValidName(r.name) && r.priority >= 0 && forall d :: d in r.conditions ==> KnownCondition(d))
  }

  /** A configuration that some write has accepted. */
  ghost predicate Accepted(c: FlagConfiguration) {
    Valid(c) && DistinctPriorities(c) && (c.rollout == [] || c.stages == []) && SchemaMarks(c)
  }

  /** Of several entries with one key the last one counts, and the others' keys keep their values. */
  lemma {:induction false} LastEntryCounts(vs: seq<VariationInput>, last: VariationInput)
    ensures DictOf(vs + [last]).Keys == DictOf(vs).Keys + {last.key} && DictOf(vs + [last])[last.key] == last.value
    ensures forall k :: k in DictOf(vs) && k != last.key ==> DictOf(vs + [last])[k] == DictOf(vs)[k]
  {
    assert (vs + [last])[..|vs|] == vs;
  }

  /** A rule the request schema would have refused does not get past the engine's own constraints either. */
  lemma {:induction false} EngineRefusesToo(r: RuleInput)
    requires Cumulate(r.rollout).Ok?
    requires || !OneAction(r.variation, r.rollout != [], r.stages != [])
             || (exists s :: s in r.stages && !ValidStage(s))
             || exists d :: d in r.conditions && !ValidCondition(d)
    ensures BuildRule(r) == Err(UnhandledValidation)
  {
    assert Cumulate(r.rollout).value == [] <==> r.rollout == [];
    hide Cumulate, OneAction, ValidStage, ValidCondition;
  }

  lemma {:induction false} DictOfMembers(vs: seq<VariationInput>)
    requires DistinctVariationKeys(vs)
    ensures DictOf(vs).Keys == set v | v in vs :: v.key
    ensures forall v :: v in vs ==> v.key in DictOf(vs) && DictOf(vs)[v.key] == v.value
  {
    if vs != [] {
      var front, last := vs[..|vs| - 1], vs[|vs| - 1];
      DictOfMembers(front);
      assert vs == front + [last];
      assert forall v :: v in vs <==> v in front || v == last;
    }
  }

  lemma {:induction false} BuiltShares(keys: set<string>, inputs: seq<RolloutInput>)
    requires ValidInputs(inputs) && Cumulate(inputs).Ok?
    ensures RolloutDeclared(keys, Cumulate(inputs).value) <==> SharesDeclared(keys, inputs)
  {
    var rollout := Cumulate(inputs).value;
    forall i | 0 <= i < |inputs| ensures rollout[i].variation == inputs[i].variation {
      SumAt(inputs, i);
    }
    forall i | 0 <= i < |inputs| ensures rollout[i] in rollout && inputs[i] in inputs {
    }
  }

  lemma {:induction false} BuildRuleExactly(r: RuleInput)
    requires SchemaRule(r)
    ensures BuildRule(r).Ok? <==> Complete(r.rollout)
    ensures BuildRule(r).Ok? ==>
      var rule := BuildRule(r).value;
      && ValidRule(rule) && Cumulate(r.rollout) == Ok(rule.rollout)
      && rule == Rule(r.name, r.priority, r.conditions, r.variation, rule.rollout, r.stages)
  {
    CumulateExactly(r.rollout);
  }

  lemma {:induction false} BuildRulesExactly(rules: seq<RuleInput>)
    requires forall r :: r in rules ==> SchemaRule(r)
    ensures BuildRules(rules).Ok? <==> forall r :: r in rules ==> Complete(r.rollout)
    ensures BuildRules(rules).Ok? ==>
      && |BuildRules(rules).value| == |rules|
      && forall i :: 0 <= i < |rules| ==> BuildRule(rules[i]) == Ok(BuildRules(rules).value[i])
  {
    if rules != [] {
      BuildRuleExactly(rules[0]);
      BuildRulesExactly(rules[1..]);
      assert rules == [rules[0]] + rules[1..];
    }
  }

  /**
   * Which error a bad rule rollout ends in: the first incomplete list decides, and one that runs
   * past 10000 escapes as an unhandled error instead of the 422 answer a short one gets.
   */
  lemma {:induction false} RuleRolloutErrors(rules: seq<RuleInput>, i: nat)
    requires forall r :: r in rules ==> SchemaRule(r)
    requires i < |rules| && !Complete(rules[i].rollout)
    requires forall j :: 0 <= j < i ==> Complete(rules[j].rollout)
    ensures BuildRules(rules)
      == Err(if Total(rules[i].rollout) > BUCKET_COUNT then UnhandledValidation else InvalidRollout)
  {
    BuildRuleExactly(rules[0]);
    CumulateExactly(rules[0].rollout);
    if i > 0 {
      RuleRolloutErrors(rules[1..], i - 1);
    }
  }

  lemma {:induction false} BuiltRuleDeclared(keys: set<string>, r: RuleInput)
    requires SchemaRule(r) && BuildRule(r).Ok?
    ensures RuleDeclared(keys, BuildRule(r).value) <==>
            && SharesDeclared(keys, r.rollout) && StagesDeclared(keys, r.stages)
            && (Truthy(r.variation) ==> r.variation.value in keys)
  {
    BuildRuleExactly(r);
    BuiltShares(keys, r.rollout);
  }

  lemma {:induction false} BuiltRulesDeclared(keys: set<string>, rules: seq<RuleInput>)
    requires (forall r :: r in rules ==> SchemaRule(r)) && BuildRules(rules).Ok?
    ensures (forall r :: r in BuildRules(rules).value ==> RuleDeclared(keys, r) && ValidRule(r)) <==>
            forall r :: r in rules ==>
              && SharesDeclared(keys, r.rollout) && StagesDeclared(keys, r.stages)
              && (Truthy(r.variation) ==> r.variation.value in keys)
  {
    BuildRulesExactly(rules);
    var built := BuildRules(rules).value;
    forall i | 0 <= i < |rules|
      ensures ValidRule(built[i]) && built[i] in built && rules[i] in rules
      ensures RuleDeclared(keys, built[i]) <==>
              && SharesDeclared(keys, rules[i].rollout) && StagesDeclared(keys, rules[i].stages)
              && (Truthy(rules[i].variation) ==> rules[i].variation.value in keys)
    {
      assert SchemaRule(rules[i]);
      BuildRuleExactly(rules[i]);
      BuiltRuleDeclared(keys, rules[i]);
    }
  }

  lemma {:induction false} BuiltValues(id: Identity, vs: seq<VariationInput>)
    requires DistinctVariationKeys(vs)
    ensures (forall k :: k in DictOf(vs) ==> ValueHasType(id.flagType, DictOf(vs)[k])) <==>
            forall v :: v in vs ==> ValueHasType(id.flagType, v.value)
  {
    DictOfMembers(vs);
    forall k | k in DictOf(vs) ensures exists v :: v in vs && v.key == k && v.value == DictOf(vs)[k] {
      var v :| v in vs && v.key == k;
    }
  }

  lemma {:induction false} BuiltValid(id: Identity, p: FlagUpdate, c: FlagConfiguration)
    requires SchemaUpdate(p) && DistinctVariationKeys(p.variations)
    requires BuildRules(p.rules) == Ok(c.rules) && Cumulate(p.rollout) == Ok(c.rollout)
    requires c == FlagConfiguration(
      id, p.enabled, p.defaultVariation, DictOf(p.variations), c.configVersion, c.rules, c.rollout, p.stages)
    requires c.configVersion >= 1
    ensures Valid(c) <==>
            var keys := set v | v in p.variations :: v.key;
            && SharesDeclared(keys, p.rollout) && StagesDeclared(keys, p.stages)
            && p.defaultVariation in keys
            && (forall v :: v in p.variations ==> ValueHasType(id.flagType, v.value))
            && (forall r :: r in p.rules ==>
                  && SharesDeclared(keys, r.rollout) && StagesDeclared(keys, r.stages)
                  && (Truthy(r.variation) ==> r.variation.value in keys))
  {
    hide BuildRules, Cumulate, DictOf, ValidRule, RuleDeclared, StagesDeclared, RolloutDeclared, SharesDeclared,
      ValidRollout;
    DictOfMembers(p.variations);
    BuiltValues(id, p.variations);
    BuiltRulesDeclared(c.variations.Keys, p.rules);
    BuiltShares(c.variations.Keys, p.rollout);
    CumulateExactly(p.rollout);
  }

  /** A payload the schemas let through is built if and only if it is acceptable. */
  lemma {:induction false} BuildExactly(id: Identity, p: FlagUpdate, version: int)
    requires SchemaUpdate(p) && version >= 1
    ensures Build(id, p, version).Ok? <==> Acceptable(id, p)
  {
    BuildRulesExactly(p.rules);
    CumulateExactly(p.rollout);
    var rules, rollout := BuildRules(p.rules), Cumulate(p.rollout);
    if DistinctVariationKeys(p.variations) && rules.Ok? && rollout.Ok? {
      BuiltValid(id, p, FlagConfiguration(
        id, p.enabled, p.defaultVariation, DictOf(p.variations), version, rules.value, rollout.value, p.stages));
    }
  }

  /** Two entries of the list carry one key. */
  ghost predicate KeyTwice(vs: seq<VariationInput>) {
    exists i, j :: 0 <= i < j < |vs| && vs[i].key == vs[j].key
  }

  ghost predicate PriorityTwice(rules: seq<RuleInput>) {
    exists i, j :: 0 <= i < j < |rules| && rules[i].priority == rules[j].priority
  }

  ghost predicate FirstIncomplete(rules: seq<RuleInput>, i: nat) {
    i < |rules| && !Complete(rules[i].rollout) && forall j :: 0 <= j < i ==> Complete(rules[j].rollout)
  }

  /** Which error a payload ends in: the checks in their order, each read off the payload. */
  lemma {:induction false} BuildErrors(id: Identity, p: FlagUpdate, version: int)
    requires SchemaUpdate(p) && version >= 1
    ensures KeyTwice(p.variations) ==> Build(id, p, version) == Err(DuplicateVariation)
    ensures !KeyTwice(p.variations) && PriorityTwice(p.rules) ==> Build(id, p, version) == Err(DuplicateRulePriority)
    ensures !KeyTwice(p.variations) && !PriorityTwice(p.rules) && p.rollout != [] && p.stages != [] ==>
      Build(id, p, version) == Err(InvalidFlagAction)
    ensures !KeyTwice(p.variations) && !PriorityTwice(p.rules) && (p.rollout == [] || p.stages == []) ==>
      && (forall i: nat :: FirstIncomplete(p.rules, i) ==>
            Build(id, p, version)
            == Err(if Total(p.rules[i].rollout) > 10000 then UnhandledValidation else InvalidRollout))
      && ((forall r :: r in p.rules ==> Complete(r.rollout)) ==>
            if Complete(p.rollout) then Build(id, p, version).Ok?
              || Build(id, p, version) == Err(InvalidFlagConfiguration)
            else Build(id, p, version)
                 == Err(if Total(p.rollout) > 10000 then InvalidFlagConfiguration else InvalidRollout))
  {
    hide Valid, DictOf, SchemaRule;
    BuildRulesExactly(p.rules);
    CumulateExactly(p.rollout);
    forall i: nat | FirstIncomplete(p.rules, i)
      ensures BuildRules(p.rules)
           == Err(if Total(p.rules[i].rollout) > BUCKET_COUNT then UnhandledValidation else InvalidRollout)
    {
      RuleRolloutErrors(p.rules, i);
    }
    hide BuildRules, Cumulate;
  }

  /** Building knows nothing of other flags, environments or versions. */
  lemma {:induction false} BuildErrorsAreLocal(id: Identity, p: FlagUpdate, version: int)
    requires Build(id, p, version).Err?
    ensures Build(id, p, version).error in {
      DuplicateVariation, DuplicateRulePriority, InvalidFlagAction, InvalidRollout, InvalidFlagConfiguration,
        UnhandledValidation}
  {
    hide Valid, DictOf, BuildRule, Cumulate;
    RuleErrorsAreLocal(p.rules);
  }

  lemma {:induction false} RuleErrorsAreLocal(rules: seq<RuleInput>)
    ensures BuildRules(rules).Err? ==> BuildRules(rules).error in {InvalidRollout, UnhandledValidation}
  {
    if rules != [] {
      RuleErrorsAreLocal(rules[1..]);
      hide Cumulate, RuleFields;
    }
  }

  lemma {:induction false} BuiltRulesKeepMarks(rules: seq<RuleInput>)
    requires (forall r :: r in rules ==> SchemaRule(r)) && BuildRules(rules).Ok?
    ensures var built := BuildRules(rules).value;
      && |built| == |rules|
      && forall i :: 0 <= i < |rules| ==>
           && built[i].priority == rules[i].priority && built[i].name == rules[i].name
             && built[i].conditions == rules[i].conditions
           && SchemaRule(rules[i])
  {
    hide BuildRules, BuildRule;
    BuildRulesExactly(rules);
    var built := BuildRules(rules).value;
    forall i | 0 <= i < |rules|
      ensures built[i].priority == rules[i].priority && built[i].name == rules[i].name
        && built[i].conditions == rules[i].conditions
      ensures SchemaRule(rules[i])
    {
      assert rules[i] in rules;
      BuildRuleExactly(rules[i]);
    }
  }

  /** What a built configuration is. */
  lemma {:induction false} BuiltIsAccepted(id: Identity, p: FlagUpdate, version: int)
    requires SchemaUpdate(p) && version >= 1 && Build(id, p, version).Ok?
    ensures var c := Build(id, p, version).value;
            && Accepted(c) && c.identity == id && c.configVersion == version
            && c.enabled == p.enabled && c.defaultVariation == p.defaultVariation
  {
    var c := Build(id, p, version).value;
    hide Cumulate, DictOf, BuildRules, Valid, OneAction, ValidInputs;
    DictOfMembers(p.variations);
    BuiltRulesKeepMarks(p.rules);
    assert p.variations[0].key in c.variations.Keys;
  }

  // ----- `_update_from_configuration` -----

  /** The items of a dictionary in some order. */
  ghost predicate Lists(vs: seq<VariationInput>, m: map<string, Json>) {
    DistinctVariationKeys(vs) && DictOf(vs) == m
  }

  function RuleInputOf(r: Rule): RuleInput {
    RuleInput(r.name, r.priority, r.conditions, r.variation, Differences(r.rollout), r.stages)
  }

  ghost predicate Copies(c: FlagConfiguration, expectedVersion: int, p: FlagUpdate) {
    && p.expectedVersion == expectedVersion && p.enabled == c.enabled && p.defaultVariation == c.defaultVariation
    && Lists(p.variations, c.variations)
    && p.rules == MapSeq(RuleInputOf, c.rules)
    && p.rollout == Differences(c.rollout)
    && p.stages == c.stages
  }

  method VariationInputs(m: map<string, Json>) returns (vs: seq<VariationInput>)
    ensures Lists(vs, m)
  {
    vs := [];
    var rest := m.Keys;
    while rest != {}
      invariant rest <= m.Keys && DistinctVariationKeys(vs)
      invariant DictOf(vs) == map k | k in m.Keys && k !in rest :: m[k]
      invariant forall v :: v in vs ==> v.key in m && v.key !in rest
      decreases |rest|
    {
      var key :| key in rest;
      assert (vs + [VariationInput(key, m[key])])[..|vs|] == vs;
      vs := vs + [VariationInput(key, m[key])];
      rest := rest - {key};
    }
  }

  /** Raises when a part is no valid request model, which for an accepted configuration it never does. */
  method UpdateFromConfiguration(c: FlagConfiguration, expectedVersion: int) returns (r: Outcome<FlagUpdate>)
    ensures r.Returned? ==> Copies(c, expectedVersion, r.value) && SchemaUpdate(r.value)
    ensures Accepted(c) && expectedVersion >= 1 ==> r.Returned?
  {
    var vs := VariationInputs(c.variations);
    var rollout := RolloutInputs(c.rollout);
    if rollout.Raised? {
      if ValidRollout(c.rollout) {
        RolloutRoundTrip(c.rollout);
      }
      return Raised;
    }
    var p := FlagUpdate(expectedVersion, c.enabled, c.defaultVariation, vs, MapSeq(RuleInputOf, c.rules), rollout.value,
      c.stages);
    if Accepted(c) && expectedVersion >= 1 {
      CopyPassesSchemas(c, expectedVersion, p);
    }
    if SchemaUpdate(p) {
      return Returned(p);
    }
    return Raised;
  }

  lemma {:induction false} CopyPassesSchemas(c: FlagConfiguration, expectedVersion: int, p: FlagUpdate)
    requires Accepted(c) && Copies(c, expectedVersion, p) && expectedVersion >= 1
    ensures SchemaUpdate(p)
  {
    DictOfMembers(p.variations);
    RolloutRoundTrip(c.rollout);
    forall r | r in p.rules ensures SchemaRule(r) {
      var rule := InMapped(RuleInputOf, c.rules, r);
      RolloutRoundTrip(rule.rollout);
    }
    assert DictOf([]) == map[];
  }

  lemma {:induction false} RuleRoundTrip(r: Rule)
    requires ValidRule(r)
    ensures BuildRule(RuleInputOf(r)) == Ok(r)
  {
    RolloutRoundTrip(r.rollout);
  }

  lemma {:induction false} RulesRoundTrip(rules: seq<Rule>)
    requires forall r :: r in rules ==> ValidRule(r)
    ensures BuildRules(MapSeq(RuleInputOf, rules)) == Ok(rules)
  {
    if rules != [] {
      RuleRoundTrip(rules[0]);
      RulesRoundTrip(rules[1..]);
      assert MapSeq(RuleInputOf, rules)[1..] == MapSeq(RuleInputOf, rules[1..]);
      assert rules == [rules[0]] + rules[1..];
    }
  }

  /** Copying an accepted configuration into a payload and building that gives it back, under a new version. */
  lemma {:induction false} CopyBuilds(c: FlagConfiguration, expectedVersion: int, p: FlagUpdate, version: int)
    requires Accepted(c) && Copies(c, expectedVersion, p) && version >= 1
    ensures Build(c.identity, p, version) == Ok(c.(configVersion := version))
  {
    RulesRoundTrip(c.rules);
    RolloutRoundTrip(c.rollout);
    forall i, j | 0 <= i < j < |p.rules| ensures p.rules[i].priority != p.rules[j].priority {
      assert Priority(c.rules[i]) != Priority(c.rules[j]);
    }
    assert Valid(c.(configVersion := version));
  }

  // ----- `append_rule_update` -----

  /** The payload of an added rule: a copy, then `payload.rules.append(rule)`. */
  ghost predicate CopiesWithRule(c: FlagConfiguration, expectedVersion: int, rule: RuleInput, p: FlagUpdate) {
    |p.rules| > 0 && p.rules[|p.rules| - 1] == rule
    && Copies(c, expectedVersion, p.(rules := p.rules[..|p.rules| - 1]))
  }

  function WithRule(c: FlagConfiguration, rule: Rule): FlagConfiguration {
    c.(rules := c.rules + [rule])
  }

  lemma {:induction false} BuildRulesAppend(front: seq<RuleInput>, last: RuleInput)
    requires BuildRules(front).Ok?
    ensures BuildRules(front + [last])
         == match BuildRule(last) case Err(e) => Err(e) case Ok(r) => Ok(BuildRules(front).value + [r])
  {
    if front == [] {
      assert front + [last] == [last] && [last][1..] == [];
      assert BuildRules([last][1..]) == Ok([]);
      if BuildRule(last).Ok? {
        assert [BuildRule(last).value] + [] == [] + [BuildRule(last).value];
      }
    } else {
      BuildRulesAppend(front[1..], last);
      assert (front + [last])[1..] == front[1..] + [last];
      var first, rest := BuildRule(front[0]).value, BuildRules(front[1..]).value;
      assert BuildRules(front).value == [first] + rest;
      if BuildRule(last).Ok? {
        assert [first] + (rest + [BuildRule(last).value]) == [first] + rest + [BuildRule(last).value];
      }
    }
  }

  /** What the parts of an added rule's payload are built to. */
  lemma {:induction false} AppendedParts(c: FlagConfiguration, expectedVersion: int, rule: RuleInput, p: FlagUpdate)
    requires Accepted(c) && CopiesWithRule(c, expectedVersion, rule, p)
    ensures p.rules == MapSeq(RuleInputOf, c.rules) + [rule]
    ensures BuildRules(p.rules) == match BuildRule(rule) case Err(e) => Err(e) case Ok(r) => Ok(c.rules + [r])
    ensures Cumulate(p.rollout) == Ok(c.rollout) && (p.rollout == [] || p.stages == [])
    ensures DistinctVariationKeys(p.variations) && DictOf(p.variations) == c.variations
    ensures p.enabled == c.enabled && p.defaultVariation == c.defaultVariation && p.stages == c.stages
  {
    hide Cumulate, BuildRule, BuildRules, RuleInputOf, SchemaMarks;
    RulesRoundTrip(c.rules);
    RolloutRoundTrip(c.rollout);
    assert p.rules == MapSeq(RuleInputOf, c.rules) + [rule];
    BuildRulesAppend(MapSeq(RuleInputOf, c.rules), rule);
  }

  /** If the payload of an added rule is built at all, the result is the configuration with that rule added. */
  lemma {:induction false} AppendBuilds(
    c: FlagConfiguration, expectedVersion: int, rule: RuleInput, p: FlagUpdate, version: int)
    requires Accepted(c) && CopiesWithRule(c, expectedVersion, rule, p) && version >= 1
    requires Build(c.identity, p, version).Ok?
    ensures BuildRule(rule).Ok?
    ensures Build(c.identity, p, version).value == WithRule(c, BuildRule(rule).value).(configVersion := version)
  {
    hide Accepted, CopiesWithRule, Cumulate, BuildRule, BuildRules, Valid, DistinctInputPriorities;
    AppendedParts(c, expectedVersion, rule, p);
  }

  /** What the service demands of an added rule beyond its schema. */
  ghost predicate Fits(c: FlagConfiguration, rule: RuleInput) {
    && (forall r :: r in c.rules ==> r.priority != rule.priority)
    && Complete(rule.rollout)
    && SharesDeclared(c.variations.Keys, rule.rollout) && StagesDeclared(c.variations.Keys, rule.stages)
    && (Truthy(rule.variation) ==> rule.variation.value in c.variations)
  }

  lemma {:induction false} AppendedPriorities(c: FlagConfiguration, rule: RuleInput, p: FlagUpdate)
    requires DistinctPriorities(c) && p.rules == MapSeq(RuleInputOf, c.rules) + [rule]
    ensures DistinctInputPriorities(p.rules) <==> forall r :: r in c.rules ==> r.priority != rule.priority
  {
    assert forall i :: 0 <= i < |c.rules| ==> p.rules[i].priority == Priority(c.rules[i]);
    assert p.rules[|c.rules|] == rule;
    if exists r :: r in c.rules && r.priority == rule.priority {
      var i :| 0 <= i < |c.rules| && c.rules[i].priority == rule.priority;
      assert p.rules[i].priority == p.rules[|c.rules|].priority;
    }
  }

  lemma {:induction false} AppendedValid(c: FlagConfiguration, rule: RuleInput, version: int)
    requires Accepted(c) && SchemaRule(rule) && BuildRule(rule).Ok? && version >= 1
    ensures Valid(WithRule(c, BuildRule(rule).value).(configVersion := version)) <==>
      && SharesDeclared(c.variations.Keys, rule.rollout) && StagesDeclared(c.variations.Keys, rule.stages)
      && (Truthy(rule.variation) ==> rule.variation.value in c.variations)
  {
    BuildRuleExactly(rule);
    BuiltRuleDeclared(c.variations.Keys, rule);
    hide BuildRule, ValidRule, RuleDeclared, SharesDeclared, StagesDeclared, RolloutDeclared, ValidRollout;
    var built := BuildRule(rule).value;
    assert forall r :: r in c.rules + [built] <==> r in c.rules || r == built;
  }

  /** With the copied parts settled, three things are left that can go wrong. */
  lemma {:induction false} AppendBuildsWhen(
    c: FlagConfiguration, expectedVersion: int, rule: RuleInput, p: FlagUpdate, version: int)
    requires Accepted(c) && CopiesWithRule(c, expectedVersion, rule, p) && version >= 1
    ensures p.rules == MapSeq(RuleInputOf, c.rules) + [rule]
    ensures Build(c.identity, p, version).Ok? <==>
      && DistinctInputPriorities(p.rules) && BuildRule(rule).Ok?
      && Valid(WithRule(c, BuildRule(rule).value).(configVersion := version))
  {
    hide Accepted, CopiesWithRule, Cumulate, BuildRule, BuildRules, Valid, DistinctInputPriorities;
    AppendedParts(c, expectedVersion, rule, p);
  }

  /** The payload of an added rule is built if and only if the rule fits. */
  lemma {:induction false} AppendBuildsExactly(
    c: FlagConfiguration, expectedVersion: int, rule: RuleInput, p: FlagUpdate, version: int)
    requires Accepted(c) && SchemaRule(rule) && CopiesWithRule(c, expectedVersion, rule, p) && version >= 1
    ensures Build(c.identity, p, version).Ok? <==> Fits(c, rule)
  {
    AppendBuildsWhen(c, expectedVersion, rule, p, version);
    BuildRuleExactly(rule);
    AppendedPriorities(c, rule, p);
    hide Build, BuildRule, Valid, CopiesWithRule, RuleInputOf, DistinctInputPriorities, SchemaRule, SharesDeclared,
      StagesDeclared, Complete;
    if BuildRule(rule).Ok? {
      AppendedValid(c, rule, version);
    }
  }
}
