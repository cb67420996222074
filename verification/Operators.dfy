/** Condition operators over JSON values (backend/app/evaluation/operators.py). */
module Operators {
  import opened Prelude

  /**
   * A Python float; the JSON decoder and `float(text)` can produce the special values. A NaN is
   * told apart by its object, because Python's containers ask for identity before equality.
   */
  datatype Float = Finite(value: real) | Infinite(negative: bool) | NotANumber(object: int)

  datatype Json =
    | Null
    | Bool(truth: bool)
    | Int(number: int)
    | Decimal(float: Float)
    | Str(text: string)
    | Arr(items: seq<Json>)
    | Obj(fields: map<string, Json>)

  /** How comparing two version strings ends; only InvalidVersion is caught by the operators. */
  datatype VersionOrder = Ordered(sign: int) | InvalidVersion | OtherError

  /** The library functions the operators call, whose inner workings are not modelled. */
  datatype Library = Library(
    parseFloat: string -> Option<Float>,                  // float(text); None for ValueError
    floatOfInt: int -> Option<Float>,                     // float(number); None for OverflowError
    compareVersions: (string, string) -> VersionOrder)

  const NAMES: set<string> := {
    "equals", "not_equals", "in", "not_in", "contains", "starts_with", "ends_with", "exists",
    "not_exists", "greater_than", "greater_or_equal", "less_than", "less_or_equal",
    "semver_equal", "semver_greater", "semver_less"
  }

  const VERSIONS: set<string> := {"semver_equal", "semver_greater", "semver_less"}

  const NUMERIC: set<string> := {"greater_than", "greater_or_equal", "less_than", "less_or_equal"}

  predicate FloatLess(a: Float, b: Float) {
    match (a, b)
    case (Finite(x), Finite(y)) => x < y
    case (Finite(_), Infinite(negative)) => !negative
    case (Infinite(negative), Finite(_)) => negative
    case (Infinite(m), Infinite(n)) => m && !n
    case (_, _) => false
  }

  predicate FloatEqual(a: Float, b: Float) {
    a == b && !a.NotANumber?
  }

  /** The number a JSON value is for `==`, where True is 1 and integers compare exactly. */
  function Exactly(j: Json): Option<Float> {
    match j
    case Bool(b) => Some(Finite(if b then 1.0 else 0.0))
    case Int(n) => Some(Finite(n as real))
    case Decimal(f) => Some(f)
    case _ => None
  }

  /** The same NaN, which is not equal to itself but is found in a container that holds it. */
  predicate SameNaN(a: Json, b: Json) {
    a == b && a.Decimal? && a.float.NotANumber?
  }

  predicate PyEqual(a: Json, b: Json) {
    match (a, b)
    case (Null, Null) => true
    case (Str(s), Str(t)) => s == t
    case (Arr(xs), Arr(ys)) => |xs| == |ys| && forall i :: 0 <= i < |xs| ==>
      SameNaN(xs[i], ys[i]) || PyEqual(xs[i], ys[i])
    case (Obj(f), Obj(g)) => f.Keys == g.Keys && forall k :: k in f ==> SameNaN(f[k], g[k]) || PyEqual(f[k], g[k])
    case (_, _) => Exactly(a).Some? && Exactly(b).Some? && FloatEqual(Exactly(a).value, Exactly(b).value)
  }

  predicate Substring(inner: string, outer: string) {
    exists i :: 0 <= i <= |outer| && inner <= outer[i..]
  }

  predicate EndsWith(s: string, suffix: string) {
    |suffix| <= |s| && s[|s| - |suffix|..] == suffix
  }

  /** `isinstance(value, Container)`. */
  predicate IsContainer(j: Json) {
    j.Str? || j.Arr? || j.Obj?
  }

  /** The pairs on which `item in container` is a TypeError. */
  predicate Clash(item: Json, container: Json) {
    (container.Str? && !item.Str?) || (container.Obj? && (item.Arr? || item.Obj?))
  }

  function Membership(item: Json, container: Json): Outcome<bool>
    requires IsContainer(container)
  {
    match container
    case Str(s) => if item.Str? then Returned(Substring(item.text, s)) else Raised
    case Arr(items) => Returned(exists i :: 0 <= i < |items| && (SameNaN(item, items[i]) || PyEqual(item, items[i])))
    case Obj(fields) =>
      if item.Arr? || item.Obj? then Raised else Returned(item.Str? && item.text in fields)
    case _ => Returned(false)
  }

  function Negated(m: Outcome<bool>): Outcome<bool> {
    match m
    case Returned(b) => Returned(!b)
    case Raised => Raised
  }

  datatype Conversion = Converted(float: Float) | Rejected | Overflow

  /** `float(value)`: TypeError and ValueError are caught by the comparison, OverflowError is not. */
  function ToFloat(lib: Library, j: Json): Conversion {
    match j
    case Int(n) => (match lib.floatOfInt(n) case Some(f) => Converted(f) case None => Overflow)
    case Decimal(f) => Converted(f)
    case Str(s) => (match lib.parseFloat(s) case Some(f) => Converted(f) case None => Rejected)
    case _ => Rejected
  }

  predicate Compare(operator: string, left: Float, right: Float) {
    match operator
    case "greater_than" => FloatLess(right, left)
    case "greater_or_equal" => FloatLess(right, left) || FloatEqual(left, right)
    case "less_than" => FloatLess(left, right)
    case _ => FloatLess(left, right) || FloatEqual(left, right)
  }

  function NumericCompare(lib: Library, operator: string, actual: Option<Json>, expected: Json): Outcome<bool> {
    if actual.None? || actual.value.Bool? || expected.Bool? then Returned(false)
    else
      match ToFloat(lib, actual.value)
      case Rejected => Returned(false)
      case Overflow => Raised
      case Converted(left) =>
        match ToFloat(lib, expected)
        case Rejected => Returned(false)
        case Overflow => Raised
        case Converted(right) => Returned(Compare(operator, left, right))
  }

  function SemverCompare(lib: Library, operator: string, actual: Option<Json>, expected: Json): Outcome<bool> {
    if actual.None? || !actual.value.Str? || !expected.Str? then Returned(false)
    else
      match lib.compareVersions(actual.value.text, expected.text)
      case InvalidVersion => Returned(false)
      case OtherError => Raised
      case Ordered(sign) =>
        match operator
        case "semver_equal" => Returned(sign == 0)
        case "semver_greater" => Returned(sign > 0)
        case _ => Returned(sign < 0)
  }

  /** `actual` is None for the MISSING marker, which is not the JSON null. */
  function ConditionMatches(lib: Library, operator: string, actual: Option<Json>, expected: Json): Outcome<bool> {
    match operator
    case "equals" => Returned(actual.Some? && PyEqual(actual.value, expected))
    case "not_equals" => Returned(actual.Some? && !PyEqual(actual.value, expected))
    case "in" =>
      if actual.Some? && IsContainer(expected) then Membership(actual.value, expected) else Returned(false)
    case "not_in" =>
      if actual.Some? && IsContainer(expected) then Negated(Membership(actual.value, expected)) else Returned(false)
    case "contains" =>
      if actual.Some? && IsContainer(actual.value) then Membership(expected, actual.value) else Returned(false)
    case "starts_with" =>
      Returned(actual.Some? && actual.value.Str? && expected.Str? && expected.text <= actual.value.text)
    case "ends_with" =>
      Returned(actual.Some? && actual.value.Str? && expected.Str? && EndsWith(actual.value.text, expected.text))
    case "exists" => Returned(actual.Some?)
    case "not_exists" => Returned(actual.None?)
    case "greater_than" => NumericCompare(lib, operator, actual, expected)
    case "greater_or_equal" => NumericCompare(lib, operator, actual, expected)
    case "less_than" => NumericCompare(lib, operator, actual, expected)
    case "less_or_equal" => NumericCompare(lib, operator, actual, expected)
    case "semver_equal" => SemverCompare(lib, operator, actual, expected)
    case "semver_greater" => SemverCompare(lib, operator, actual, expected)
    case "semver_less" => SemverCompare(lib, operator, actual, expected)
    case _ => Raised
  }

  /** The exact inputs on which matching a condition escapes with an exception. */
  predicate Escapes(lib: Library, operator: string, actual: Option<Json>, expected: Json) {
    || operator !in NAMES
    || (operator in {"in", "not_in"} && actual.Some? && Clash(actual.value, expected))
    || (operator == "contains" && actual.Some? && Clash(expected, actual.value))
    || (operator in NUMERIC && actual.Some? && !actual.value.Bool? && !expected.Bool?
        && (|| ToFloat(lib, actual.value).Overflow?
            || (ToFloat(lib, actual.value).Converted? && ToFloat(lib, expected).Overflow?)))
    || (operator in VERSIONS && actual.Some? && actual.value.Str? && expected.Str?
        && lib.compareVersions(actual.value.text, expected.text).OtherError?)
  }

  lemma {:induction false} RaisesExactly(lib: Library, operator: string, actual: Option<Json>, expected: Json)
    ensures ConditionMatches(lib, operator, actual, expected).Raised? <==> Escapes(lib, operator, actual, expected)
  {
  }

  /** A missing attribute satisfies no operator but `not_exists`, and never raises. */
  lemma {:induction false} MissingAttribute(lib: Library, operator: string, expected: Json)
    requires operator in NAMES
    ensures ConditionMatches(lib, operator, None, expected) == Returned(operator == "not_exists")
  {
  }

  // ----- what the comparisons mean -----

  predicate IsNaN(j: Json) {
    j.Decimal? && j.float.NotANumber?
  }

  /** Nothing but a bare NaN differs from itself; a container holding one does not. */
  lemma {:induction false} EqualToItself(j: Json)
    ensures PyEqual(j, j) <==> !IsNaN(j)
  {
    match j {
      case Arr(items) =>
        forall i | 0 <= i < |items| ensures SameNaN(items[i], items[i]) || PyEqual(items[i], items[i]) {
          EqualToItself(items[i]);
        }
      case Obj(fields) =>
        forall k | k in fields ensures SameNaN(fields[k], fields[k]) || PyEqual(fields[k], fields[k]) {
          EqualToItself(fields[k]);
        }
      case _ =>
    }
  }

  lemma {:induction false} EqualBothWays(a: Json, b: Json)
    ensures PyEqual(a, b) <==> PyEqual(b, a)
  {
    match (a, b) {
      case (Arr(xs), Arr(ys)) =>
        if |xs| == |ys| {
          forall i | 0 <= i < |xs| ensures PyEqual(xs[i], ys[i]) <==> PyEqual(ys[i], xs[i]) {
            EqualBothWays(xs[i], ys[i]);
          }
        }
      case (Obj(f), Obj(g)) =>
        if f.Keys == g.Keys {
          forall k | k in f ensures PyEqual(f[k], g[k]) <==> PyEqual(g[k], f[k]) {
            EqualBothWays(f[k], g[k]);
          }
        }
      case (_, _) =>
    }
  }

  /** Equality carries over, through 1 == 1.0 == True and any nesting. */
  lemma {:induction false} EqualCarriesOver(a: Json, b: Json, c: Json)
    requires PyEqual(a, b) && PyEqual(b, c)
    ensures PyEqual(a, c)
  {
    match (a, b, c) {
      case (Arr(xs), Arr(ys), Arr(zs)) =>
        forall i | 0 <= i < |xs| ensures SameNaN(xs[i], zs[i]) || PyEqual(xs[i], zs[i]) {
          if PyEqual(xs[i], ys[i]) && PyEqual(ys[i], zs[i]) {
            EqualCarriesOver(xs[i], ys[i], zs[i]);
          }
        }
      case (Obj(f), Obj(g), Obj(h)) =>
        forall k | k in f ensures SameNaN(f[k], h[k]) || PyEqual(f[k], h[k]) {
          if PyEqual(f[k], g[k]) && PyEqual(g[k], h[k]) {
            EqualCarriesOver(f[k], g[k], h[k]);
          }
        }
      case (_, _, _) =>
    }
  }

  /** A value against itself: only a bare NaN is not equal to it, and any value is found in a list that holds it. */
  lemma {:induction false} EqualsOnItself(lib: Library, j: Json)
    ensures ConditionMatches(lib, "equals", Some(j), j) == Returned(!IsNaN(j))
    ensures ConditionMatches(lib, "not_equals", Some(j), j) == Returned(IsNaN(j))
    ensures ConditionMatches(lib, "in", Some(j), Arr([j])) == Returned(true)
  {
    EqualToItself(j);
    assert [j][0] == j;
  }

  predicate Splits(text: string, before: string, part: string, after: string) {
    text == before + part + after
  }

  lemma {:induction false} SubstringSplits(text: string, part: string)
    ensures Substring(part, text) <==> exists before, after :: Splits(text, before, part, after)
  {
    if Substring(part, text) {
      var i :| 0 <= i <= |text| && part <= text[i..];
      assert Splits(text, text[..i], part, text[i + |part|..]);
    }
    if exists before, after :: Splits(text, before, part, after) {
      var before, after :| Splits(text, before, part, after);
      assert text[|before|..] == part + after;
    }
  }

  lemma {:induction false} PrefixSplits(text: string, part: string)
    ensures part <= text <==> exists after :: Splits(text, [], part, after)
  {
    if part <= text {
      assert Splits(text, [], part, text[|part|..]);
    }
    if exists after :: Splits(text, [], part, after) {
      var after :| Splits(text, [], part, after);
      assert text == part + after;
    }
  }

  lemma {:induction false} SuffixSplits(text: string, part: string)
    ensures EndsWith(text, part) <==> exists before :: Splits(text, before, part, [])
  {
    if EndsWith(text, part) {
      assert Splits(text, text[..|text| - |part|], part, []);
    }
    if exists before :: Splits(text, before, part, []) {
      var before :| Splits(text, before, part, []);
      assert text == before + part;
    }
  }

  /** The string operators say that the text can be cut around the expected part. */
  lemma {:induction false} TextOperators(lib: Library, text: string, part: string)
    ensures ConditionMatches(lib, "contains", Some(Str(text)), Str(part))
         == Returned(exists before, after :: Splits(text, before, part, after))
    ensures ConditionMatches(lib, "starts_with", Some(Str(text)), Str(part))
         == Returned(exists after :: Splits(text, [], part, after))
    ensures ConditionMatches(lib, "ends_with", Some(Str(text)), Str(part))
         == Returned(exists before :: Splits(text, before, part, []))
  {
    SubstringSplits(text, part);
    PrefixSplits(text, part);
    SuffixSplits(text, part);
    hide Substring, EndsWith, Splits, PyEqual, NumericCompare, SemverCompare;
  }

  predicate IsNumber(lib: Library, j: Json) {
    !j.Bool? && ToFloat(lib, j).Converted? && !ToFloat(lib, j).float.NotANumber?
  }

  /**
   * Of two values that convert to numbers exactly one of less, equal and greater holds, and each
   * comparison with its bound is the one without, or equality.
   */
  lemma {:induction false} NumericOperators(lib: Library, a: Json, b: Json)
    requires IsNumber(lib, a) && IsNumber(lib, b)
    ensures var less := ConditionMatches(lib, "less_than", Some(a), b);
      var greater := ConditionMatches(lib, "greater_than", Some(a), b);
      var atMost := ConditionMatches(lib, "less_or_equal", Some(a), b);
      var atLeast := ConditionMatches(lib, "greater_or_equal", Some(a), b);
      && less.Returned? && greater.Returned? && !(less.value && greater.value)
      && atMost == Returned(!greater.value) && atLeast == Returned(!less.value)
      && greater == ConditionMatches(lib, "less_than", Some(b), a)
  {
    hide PyEqual, Membership;
  }

  // ----- what the answers are, case by case -----

  /** The value is a number on the extended line: a finite one, or one of the two ends. */
  ghost predicate Reads(lib: Library, j: Json, f: Float) {
    !j.Bool? && ToFloat(lib, j) == Converted(f)
  }

  function Compared(lib: Library, operator: string, a: Json, b: Json): Outcome<bool> {
    ConditionMatches(lib, operator, Some(a), b)
  }

  /** The four comparisons are those of the numbers the two values convert to. */
  lemma {:induction false} ComparisonsOfNumbers(lib: Library, a: Json, b: Json, x: real, y: real)
    requires Reads(lib, a, Finite(x)) && Reads(lib, b, Finite(y))
    ensures Compared(lib, "greater_than", a, b) == Returned(x > y)
    ensures Compared(lib, "greater_or_equal", a, b) == Returned(x >= y)
    ensures Compared(lib, "less_than", a, b) == Returned(x < y)
    ensures Compared(lib, "less_or_equal", a, b) == Returned(x <= y)
  {
    hide PyEqual, Membership;
  }

  /** Every finite number lies between the two infinities, which equal themselves; a NaN compares with nothing. */
  lemma {:induction false} ComparisonsAtTheEnds(lib: Library, a: Json, b: Json, f: Float)
    requires Reads(lib, b, f) && !f.NotANumber?
    ensures Reads(lib, a, Infinite(false)) ==>
      && Compared(lib, "greater_than", a, b) == Returned(f != Infinite(false))
      && Compared(lib, "greater_or_equal", a, b) == Returned(true)
      && Compared(lib, "less_than", a, b) == Returned(false)
      && Compared(lib, "less_or_equal", a, b) == Returned(f == Infinite(false))
    ensures Reads(lib, a, Infinite(true)) ==>
      && Compared(lib, "greater_than", a, b) == Returned(false)
      && Compared(lib, "greater_or_equal", a, b) == Returned(f == Infinite(true))
      && Compared(lib, "less_than", a, b) == Returned(f != Infinite(true))
      && Compared(lib, "less_or_equal", a, b) == Returned(true)
  {
    hide PyEqual, Membership;
  }

  lemma {:induction false} ComparisonsWithNaN(lib: Library, operator: string, a: Json, b: Json, f: Float, g: Float)
    requires operator in NUMERIC && Reads(lib, a, f) && Reads(lib, b, g) && (f.NotANumber? || g.NotANumber?)
    ensures Compared(lib, operator, a, b) == Returned(false)
  {
    hide PyEqual, Membership;
  }

  /** Which values are numbers: all integers and floats, the texts the library parses, and nothing else. */
  lemma {:induction false} NumbersAre(lib: Library, j: Json, f: Float)
    ensures Reads(lib, j, f) <==>
      || (j.Int? && lib.floatOfInt(j.number) == Some(f))
      || (j.Decimal? && j.float == f)
      || (j.Str? && lib.parseFloat(j.text) == Some(f))
  {
  }

  /** A comparison with what is no number, or with a truth value, fails without raising. */
  lemma {:induction false} NoNumberNeverCompares(lib: Library, operator: string, a: Json, b: Json)
    requires operator in NUMERIC
    requires a.Bool? || b.Bool? || ToFloat(lib, a).Rejected?
      || (ToFloat(lib, a).Converted? && ToFloat(lib, b).Rejected?)
    ensures Compared(lib, operator, a, b) == Returned(false)
  {
    hide PyEqual, Membership;
  }

  /** Versions compare as the library orders them; other values, and texts that are no versions, do not match. */
  lemma {:induction false} VersionOperators(lib: Library, a: Json, b: Json)
    ensures a.Str? && b.Str? && lib.compareVersions(a.text, b.text).Ordered? ==>
      var sign := lib.compareVersions(a.text, b.text).sign;
      && Compared(lib, "semver_equal", a, b) == Returned(sign == 0)
      && Compared(lib, "semver_greater", a, b) == Returned(sign > 0)
      && Compared(lib, "semver_less", a, b) == Returned(sign < 0)
    ensures !a.Str? || !b.Str? || lib.compareVersions(a.text, b.text).InvalidVersion? ==>
      forall operator :: operator in VERSIONS ==> Compared(lib, operator, a, b) == Returned(false)
  {
    hide PyEqual, Membership, NumericCompare;
  }

  lemma {:induction false} PresenceOperators(lib: Library, actual: Option<Json>, expected: Json)
    ensures ConditionMatches(lib, "exists", actual, expected) == Returned(actual != None)
    ensures ConditionMatches(lib, "not_exists", actual, expected) == Returned(actual == None)
  {
  }

  /** Identity before equality, as a list looks for an item. */
  predicate Finds(item: Json, x: Json) {
    PyEqual(item, x) || (IsNaN(item) && item == x)
  }

  lemma {:induction false} ListMembership(item: Json, items: seq<Json>)
    ensures Membership(item, Arr(items)) == Returned(exists x :: x in items && Finds(item, x))
  {
    hide PyEqual;
    if exists x :: x in items && Finds(item, x) {
      var x :| x in items && Finds(item, x);
      var i :| 0 <= i < |items| && items[i] == x;
      assert SameNaN(item, items[i]) || PyEqual(item, items[i]);
    }
    if i :| 0 <= i < |items| && (SameNaN(item, items[i]) || PyEqual(item, items[i])) {
      assert items[i] in items && Finds(item, items[i]);
    }
  }

  /** `item in container`, and the three operators that ask for it, for lists and objects. */
  lemma {:induction false} MembershipOperators(lib: Library, item: Json, items: seq<Json>, fields: map<string, Json>)
    ensures Compared(lib, "in", item, Arr(items)) == Compared(lib, "contains", Arr(items), item)
         == Returned(exists x :: x in items && Finds(item, x))
    ensures Compared(lib, "not_in", item, Arr(items)) == Returned(forall x :: x in items ==> !Finds(item, x))
    ensures item.Str? ==>
      && Compared(lib, "in", item, Obj(fields)) == Returned(item.text in fields.Keys)
      && Compared(lib, "contains", Obj(fields), item) == Returned(item.text in fields.Keys)
      && Compared(lib, "not_in", item, Obj(fields)) == Returned(item.text !in fields.Keys)
    ensures !item.Str? && !item.Arr? && !item.Obj? ==> Compared(lib, "in", item, Obj(fields)) == Returned(false)
  {
    ListMembership(item, items);
    hide PyEqual, NumericCompare, SemverCompare, Finds, SameNaN;
  }

  /** Nothing that is no text, list or object contains anything, and no value is outside of it either. */
  lemma {:induction false} NoContainerHoldsNothing(lib: Library, item: Json, other: Json)
    requires !IsContainer(other)
    ensures Compared(lib, "in", item, other) == Returned(false)
    ensures Compared(lib, "not_in", item, other) == Returned(false)
    ensures Compared(lib, "contains", other, item) == Returned(false)
  {
    hide PyEqual, NumericCompare, SemverCompare;
  }

  /** The text operators on texts are TextOperators; `in` is `contains` the other way round. */
  lemma {:induction false} TextMembership(lib: Library, text: string, part: string)
    ensures Compared(lib, "in", Str(part), Str(text)) == Compared(lib, "contains", Str(text), Str(part))
    ensures Compared(lib, "not_in", Str(part), Str(text)) == Returned(!Substring(part, text))
  {
    hide PyEqual, NumericCompare, SemverCompare, Substring;
  }

  /** Equality on single values: by kind, with numbers and truth values compared exactly. */
  lemma {:induction false} EqualValues(a: Json, b: Json)
    ensures a.Str? && b.Str? ==> (PyEqual(a, b) <==> a.text == b.text)
    ensures a.Int? && b.Int? ==> (PyEqual(a, b) <==> a.number == b.number)
    ensures a.Bool? && b.Bool? ==> (PyEqual(a, b) <==> a.truth == b.truth)
    ensures a.Bool? && b.Int? ==> (PyEqual(a, b) <==> b.number == if a.truth then 1 else 0)
    ensures a.Int? && b.Decimal? && b.float.Finite? ==> (PyEqual(a, b) <==> a.number as real == b.float.value)
    ensures a.Decimal? && b.Decimal? && a.float.Finite? && b.float.Finite? ==>
      (PyEqual(a, b) <==> a.float.value == b.float.value)
    ensures a.Null? ==> (PyEqual(a, b) <==> b.Null?)
    ensures a.Str? ==> (PyEqual(a, b) ==> b.Str?)
    ensures a.Arr? ==> (PyEqual(a, b) <==>
      b.Arr? && |a.items| == |b.items| && forall i :: 0 <= i < |a.items| ==> Finds(a.items[i], b.items[i]))
    ensures a.Obj? ==> (PyEqual(a, b) <==>
      b.Obj? && a.fields.Keys == b.fields.Keys && forall k :: k in a.fields ==> Finds(a.fields[k], b.fields[k]))
    ensures a.Decimal? && b.Decimal? && a.float.Infinite? ==> (PyEqual(a, b) <==> a.float == b.float)
  {
  }

  /** The operators for the ends of texts fail on everything that is no text. */
  lemma {:induction false} OnlyTextsHaveEnds(lib: Library, a: Json, b: Json)
    requires !a.Str? || !b.Str?
    ensures Compared(lib, "starts_with", a, b) == Returned(false)
    ensures Compared(lib, "ends_with", a, b) == Returned(false)
  {
    hide PyEqual, Membership, NumericCompare, SemverCompare;
  }

  /** `equals` and `not_equals` are equality of a present value with the expected one. */
  lemma {:induction false} EqualityOperators(lib: Library, a: Json, b: Json)
    ensures Compared(lib, "equals", a, b) == Returned(PyEqual(a, b))
    ensures Compared(lib, "not_equals", a, b) == Returned(!PyEqual(a, b))
  {
    hide PyEqual;
  }
}
