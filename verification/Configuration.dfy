/** The engine's view of one flag in one environment (backend/app/evaluation/models.py). */
module Configuration {
  import opened Prelude
  import opened Operators

  const BUCKET_COUNT := 10_000

  datatype FlagType = BooleanFlag | StringFlag | IntegerFlag | JsonFlag

  datatype Condition = Condition(attribute: string, operator: string, value: Json)

  datatype Allocation = Allocation(variation: string, endBucket: int)

  /** `activateAt` is an instant; the source converts every one of them to UTC. */
  datatype Stage = Stage(percentage: int, variation: string, fallback: string, activateAt: int)

  datatype Rule = Rule(
    name: string, priority: int, conditions: seq<Condition>,
    variation: Option<string>, rollout: seq<Allocation>, stages: seq<Stage>)

  /** The columns no write ever changes. The salt and the keys below are what the bucket is made of. */
  datatype Identity = Identity(
    projectId: string, environmentId: string, environmentKey: string,
    flagId: string, flagKey: string, flagType: FlagType, salt: string)

  datatype FlagConfiguration = FlagConfiguration(
    identity: Identity, enabled: bool, defaultVariation: string, variations: map<string, Json>,
    configVersion: int, rules: seq<Rule>, rollout: seq<Allocation>, stages: seq<Stage>)

  function EndBucket(a: Allocation): int { a.endBucket }

  function Priority(r: Rule): int { r.priority }

  /** `if rule.variation:` is false for the empty string as well as for None. */
  predicate Truthy(variation: Option<string>) {
    variation.Some? && variation.value != ""
  }

  /** `TargetingRule.require_action`. */
  predicate OneAction(variation: Option<string>, hasRollout: bool, hasStages: bool) {
    (if Truthy(variation) then 1 else 0) + (if hasRollout then 1 else 0) + (if hasStages then 1 else 0) == 1
  }

  predicate ValueHasType(t: FlagType, value: Json) {
    match t
    case BooleanFlag => value.Bool?
    case StringFlag => value.Str?
    case IntegerFlag => value.Int?
    case JsonFlag => value.Obj? || value.Arr? || value.Null?
  }

  /** `_validate_rollout`, with the field bound on `end_bucket`. */
  predicate ValidRollout(rollout: seq<Allocation>) {
    rollout != [] ==>
      && (forall i, j :: 0 <= i < j < |rollout| ==> rollout[i].endBucket < rollout[j].endBucket)
      && 0 < rollout[0].endBucket
      && rollout[|rollout| - 1].endBucket == BUCKET_COUNT
  }

  predicate ValidStage(s: Stage) {
    0 <= s.percentage <= BUCKET_COUNT
  }

  predicate ValidCondition(c: Condition) {
    1 <= |c.attribute| <= 200
  }

  predicate ValidRule(r: Rule) {
    && OneAction(r.variation, r.rollout != [], r.stages != [])
    && ValidRollout(r.rollout)
    && (forall s :: s in r.stages ==> ValidStage(s))
    && (forall c :: c in r.conditions ==> ValidCondition(c))
  }

  predicate RolloutDeclared(keys: set<string>, rollout: seq<Allocation>) {
    forall a :: a in rollout ==> a.variation in keys
  }

  predicate StagesDeclared(keys: set<string>, stages: seq<Stage>) {
    forall s :: s in stages ==> s.variation in keys && s.fallback in keys
  }

  predicate RuleDeclared(keys: set<string>, r: Rule) {
    && (Truthy(r.variation) ==> r.variation.value in keys)
    && RolloutDeclared(keys, r.rollout)
    && StagesDeclared(keys, r.stages)
  }

  /** The value types the four kinds of flag allow, and that they leave no value to two kinds. */
  lemma {:induction false} TypesOfValues(value: Json)
    ensures ValueHasType(BooleanFlag, value) <==> value == Bool(true) || value == Bool(false)
    ensures ValueHasType(StringFlag, value) <==> exists text :: value == Str(text)
    ensures ValueHasType(IntegerFlag, value) <==> exists number :: value == Int(number)
    ensures ValueHasType(JsonFlag, value) <==>
      value == Null || (exists items :: value == Arr(items)) || exists fields :: value == Obj(fields)
  {
    match value {
      case Str(text) => assert value == Str(text);
      case Int(number) => assert value == Int(number);
      case Arr(items) => assert value == Arr(items);
      case Obj(fields) => assert value == Obj(fields);
      case _ =>
    }
  }

  /** A rule has exactly one action: a variation that is not empty, a rollout, or stages. */
  lemma {:induction false} ActionsExclude(variation: Option<string>, hasRollout: bool, hasStages: bool)
    ensures OneAction(variation, hasRollout, hasStages) <==>
      var hasVariation := variation != None && variation != Some("");
      || (hasVariation && !hasRollout && !hasStages)
      || (!hasVariation && hasRollout && !hasStages)
      || (!hasVariation && !hasRollout && hasStages)
  {
  }

  /** A rollout of n entries passes if its boundaries rise from above 0 to exactly 10000, and only then. */
  lemma {:induction false} RolloutBoundaries(rollout: seq<Allocation>)
    requires rollout != []
    ensures ValidRollout(rollout) <==>
      && rollout[0].endBucket > 0 && rollout[|rollout| - 1].endBucket == 10000
      && forall i :: 0 < i < |rollout| ==> rollout[i - 1].endBucket < rollout[i].endBucket
  {
    if forall i :: 0 < i < |rollout| ==> rollout[i - 1].endBucket < rollout[i].endBucket {
      forall i, j | 0 <= i < j < |rollout| ensures rollout[i].endBucket < rollout[j].endBucket {
        StepsRise(rollout, i, j);
      }
    }
  }

  lemma {:induction false} StepsRise(rollout: seq<Allocation>, i: nat, j: nat)
    requires i < j < |rollout|
    requires forall k :: 0 < k < |rollout| ==> rollout[k - 1].endBucket < rollout[k].endBucket
    ensures rollout[i].endBucket < rollout[j].endBucket
  {
    if i < j - 1 {
      StepsRise(rollout, i, j - 1);
    }
  }

  /** The limits of the fields, at their edges. */
  lemma {:induction false} FieldLimits(s: Stage, c: Condition)
    ensures ValidStage(s) <==> 0 <= s.percentage && s.percentage <= 10000
    ensures ValidCondition(c) <==> c.attribute != "" && |c.attribute| <= 200
  {
  }

  /** What constructing a `FlagConfiguration` accepts: the field constraints and the model validator. */
  predicate Valid(c: FlagConfiguration) {
    && c.configVersion >= 1
    && c.defaultVariation in c.variations
    && (forall k :: k in c.variations ==> ValueHasType(c.identity.flagType, c.variations[k]))
    && RolloutDeclared(c.variations.Keys, c.rollout)
    && StagesDeclared(c.variations.Keys, c.stages)
    && (forall r :: r in c.rules ==> RuleDeclared(c.variations.Keys, r) && ValidRule(r))
    && ValidRollout(c.rollout)
    && (forall s :: s in c.stages ==> ValidStage(s))
  }

  /** What nobody gets past validation. */
  lemma {:induction false} ValidIsComplete(c: FlagConfiguration)
    requires Valid(c)
    ensures c.configVersion >= 1 && c.defaultVariation in c.variations
    ensures forall r :: r in c.rules ==>
      && (Truthy(r.variation) ==> r.variation.value in c.variations)
      && (forall a :: a in r.rollout ==> a.variation in c.variations)
      && (forall s :: s in r.stages ==> s.variation in c.variations && s.fallback in c.variations)
    ensures forall a :: a in c.rollout ==> a.variation in c.variations
    ensures forall s :: s in c.stages ==> s.variation in c.variations && s.fallback in c.variations
  {
  }

  // ----- `validate_configuration` as the loops the source runs -----

  method StageReferences(stages: seq<Stage>) returns (references: set<string>)
    ensures forall keys: set<string> :: references <= keys <==> StagesDeclared(keys, stages)
  {
    references := {};
    for i := 0 to |stages|
      invariant forall keys: set<string> :: references <= keys <==> StagesDeclared(keys, stages[..i])
    {
      ghost var before := references;
      references := references + {stages[i].variation, stages[i].fallback};
      assert stages[..i + 1] == stages[..i] + [stages[i]];
      forall keys: set<string> ensures references <= keys <==> StagesDeclared(keys, stages[..i + 1]) {
        assert references <= keys <==> before <= keys && stages[i].variation in keys && stages[i].fallback in keys;
      }
    }
    assert stages[..|stages|] == stages;
  }

  method RolloutReferences(rollout: seq<Allocation>) returns (references: set<string>)
    ensures forall keys: set<string> :: references <= keys <==> RolloutDeclared(keys, rollout)
  {
    references := {};
    for i := 0 to |rollout|
      invariant forall keys: set<string> :: references <= keys <==> RolloutDeclared(keys, rollout[..i])
    {
      ghost var before := references;
      references := references + {rollout[i].variation};
      assert rollout[..i + 1] == rollout[..i] + [rollout[i]];
      forall keys: set<string> ensures references <= keys <==> RolloutDeclared(keys, rollout[..i + 1]) {
        assert references <= keys <==> before <= keys && rollout[i].variation in keys;
      }
    }
    assert rollout[..|rollout|] == rollout;
  }

  predicate RulesDeclared(keys: set<string>, rules: seq<Rule>) {
    forall r :: r in rules ==> RuleDeclared(keys, r)
  }

  method VariationReferences(c: FlagConfiguration) returns (references: set<string>)
    ensures forall keys: set<string> :: references <= keys <==>
              RolloutDeclared(keys, c.rollout) && RulesDeclared(keys, c.rules) && StagesDeclared(keys, c.stages)
  {
    references := RolloutReferences(c.rollout);
    for i := 0 to |c.rules|
      invariant forall keys: set<string> :: references <= keys <==>
                  RolloutDeclared(keys, c.rollout) && RulesDeclared(keys, c.rules[..i])
    {
      var rule := c.rules[i];
      var direct := if Truthy(rule.variation) then {rule.variation.value} else {};
      var served := RolloutReferences(rule.rollout);
      var staged := StageReferences(rule.stages);
      ghost var before := references;
      references := references + direct + served + staged;
      assert c.rules[..i + 1] == c.rules[..i] + [rule];
      forall keys: set<string>
        ensures references <= keys <==> RolloutDeclared(keys, c.rollout) && RulesDeclared(keys, c.rules[..i + 1])
      {
        assert references <= keys <==> before <= keys && direct <= keys && served <= keys && staged <= keys;
        assert direct <= keys && served <= keys && staged <= keys <==> RuleDeclared(keys, rule);
      }
    }
    assert c.rules[..|c.rules|] == c.rules;
    var staged := StageReferences(c.stages);
    forall keys: set<string> ensures references + staged <= keys <==> references <= keys && staged <= keys {
    }
    references := references + staged;
  }

  /** Field constraints that the constructors of the parts check before the model validator runs. */
  ghost predicate FieldsHold(c: FlagConfiguration) {
    && c.configVersion >= 1
    && (forall a :: a in c.rollout ==> 0 < a.endBucket <= BUCKET_COUNT)
    && (forall s :: s in c.stages ==> ValidStage(s))
    && (forall r :: r in c.rules ==>
          && OneAction(r.variation, r.rollout != [], r.stages != [])
          && (forall a :: a in r.rollout ==> 0 < a.endBucket <= BUCKET_COUNT)
          && (forall s :: s in r.stages ==> ValidStage(s))
          && (forall d :: d in r.conditions ==> ValidCondition(d)))
  }

  /** The model validator answers exactly `Valid` on parts whose fields hold. */
  method ValidateConfiguration(c: FlagConfiguration) returns (ok: bool)
    requires FieldsHold(c)
    ensures ok <==> Valid(c)
  {
    if c.defaultVariation !in c.variations {
      return false;
    }
    var keys := c.variations.Keys;
    while keys != {}
      invariant keys <= c.variations.Keys
      invariant forall k :: k in c.variations.Keys - keys ==> ValueHasType(c.identity.flagType, c.variations[k])
      decreases |keys|
    {
      var key :| key in keys;
      if !ValueHasType(c.identity.flagType, c.variations[key]) {
        return false;
      }
      keys := keys - {key};
    }
    var references := VariationReferences(c);
    if references - c.variations.Keys != {} {
      assert !(references <= c.variations.Keys);
      return false;
    }
    assert references <= c.variations.Keys;
    if !ValidRollout(c.rollout) {
      return false;
    }
    for i := 0 to |c.rules|
      invariant forall j :: 0 <= j < i ==> ValidRollout(c.rules[j].rollout)
    {
      if !ValidRollout(c.rules[i].rollout) {
        assert !ValidRule(c.rules[i]) && c.rules[i] in c.rules;
        return false;
      }
    }
    ok := true;
  }
}
