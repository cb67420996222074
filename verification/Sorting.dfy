/** Python's `sorted(values, key=...)`: ascending by key, equal keys left in their order. */
module Sorting {
  import opened Prelude

  function Insert<T>(x: T, s: seq<T>, key: T -> int): seq<T> {
    if s == [] || key(x) <= key(s[0]) then [x] + s else [s[0]] + Insert(x, s[1..], key)
  }

  function SortBy<T>(s: seq<T>, key: T -> int): seq<T> {
    if s == [] then [] else Insert(s[0], SortBy(s[1..], key), key)
  }

  ghost predicate Ascending<T>(s: seq<T>, key: T -> int) {
    forall i, j :: 0 <= i < j < |s| ==> key(s[i]) <= key(s[j])
  }

  ghost predicate StrictlyAscending<T>(s: seq<T>, key: T -> int) {
    forall i, j :: 0 <= i < j < |s| ==> key(s[i]) < key(s[j])
  }

  ghost predicate DistinctKeys<T>(s: seq<T>, key: T -> int) {
    forall i, j :: 0 <= i < j < |s| ==> key(s[i]) != key(s[j])
  }

  lemma {:induction false} InsertPermutes<T>(x: T, s: seq<T>, key: T -> int)
    ensures multiset(Insert(x, s, key)) == multiset{x} + multiset(s)
  {
    if s == [] || key(x) <= key(s[0]) {
    } else {
      InsertPermutes(x, s[1..], key);
      MultisetOfRest(s);
    }
  }

  lemma {:induction false} InsertKeepsOrder<T>(x: T, s: seq<T>, key: T -> int)
    requires Ascending(s, key)
    ensures Ascending(Insert(x, s, key), key)
    ensures Insert(x, s, key)[0] == if s == [] || key(x) <= key(s[0]) then x else s[0]
  {
    if s != [] && key(x) > key(s[0]) {
      InsertKeepsOrder(x, s[1..], key);
    }
  }

  lemma {:induction false} SortedPermutation<T>(s: seq<T>, key: T -> int)
    ensures multiset(SortBy(s, key)) == multiset(s)
    ensures Ascending(SortBy(s, key), key)
    ensures |SortBy(s, key)| == |s|
  {
    if s != [] {
      SortedPermutation(s[1..], key);
      InsertPermutes(s[0], SortBy(s[1..], key), key);
      InsertKeepsOrder(s[0], SortBy(s[1..], key), key);
      MultisetOfRest(s);
    }
    SameLength(SortBy(s, key), s);
  }

  lemma {:induction false} SortedStrictly<T>(s: seq<T>, key: T -> int)
    requires DistinctKeys(s, key)
    ensures StrictlyAscending(SortBy(s, key), key)
  {
    SortedPermutation(s, key);
    DistinctKeysOfPermutation(s, SortBy(s, key), key);
  }

  /** A list that is already in order comes back unchanged: sorting twice is sorting once. */
  lemma {:induction false} SortOfAscending<T>(s: seq<T>, key: T -> int)
    requires Ascending(s, key)
    ensures SortBy(s, key) == s
  {
    if s != [] {
      SortOfAscending(s[1..], key);
      assert s == [s[0]] + s[1..];
    }
  }

  lemma {:induction false} DistinctKeysOfPermutation<T>(a: seq<T>, b: seq<T>, key: T -> int)
    requires multiset(a) == multiset(b) && DistinctKeys(a, key)
    ensures DistinctKeys(b, key)
    decreases |b|
  {
    if b != [] {
      var i := Matching(b, a);
      DistinctKeysOfPermutation(Without(a, i), b[1..], key);
      forall j | 1 <= j < |b| ensures key(b[0]) != key(b[j]) {
        assert b[1..][j - 1] == b[j];
        InBoth(Without(a, i), b[1..], b[j]);
        var k :| 0 <= k < |a| - 1 && Without(a, i)[k] == b[j];
      }
    }
  }

  lemma {:induction false} StrictOrderIsUnique<T>(a: seq<T>, b: seq<T>, key: T -> int)
    requires multiset(a) == multiset(b)
    requires StrictlyAscending(a, key) && StrictlyAscending(b, key)
    ensures a == b
  {
    SameLength(a, b);
    if a != [] {
      var i := Matching(a, b);
      var j := Matching(b, a);
      assert i == 0;
      assert Without(b, 0) == b[1..];
      StrictOrderIsUnique(a[1..], b[1..], key);
      assert a == [a[0]] + a[1..] && b == [b[0]] + b[1..];
    }
  }

  /** With distinct keys the order the database returned the rows in does not matter. */
  lemma {:induction false} SortIgnoresOrder<T>(a: seq<T>, b: seq<T>, key: T -> int)
    requires multiset(a) == multiset(b) && DistinctKeys(a, key)
    ensures SortBy(a, key) == SortBy(b, key)
  {
    SortedPermutation(a, key);
    SortedPermutation(b, key);
    DistinctKeysOfPermutation(a, b, key);
    SortedStrictly(a, key);
    SortedStrictly(b, key);
    StrictOrderIsUnique(SortBy(a, key), SortBy(b, key), key);
  }

  lemma {:induction false} InsertMap<T, U>(f: T -> U, x: T, s: seq<T>, key: T -> int, keyU: U -> int)
    requires keyU(f(x)) == key(x) && forall y :: y in s ==> keyU(f(y)) == key(y)
    ensures MapSeq(f, Insert(x, s, key)) == Insert(f(x), MapSeq(f, s), keyU)
  {
    if s != [] && key(x) > key(s[0]) {
      InsertMap(f, x, s[1..], key, keyU);
      assert MapSeq(f, s)[1..] == MapSeq(f, s[1..]);
    }
  }

  /** Converting the elements first and sorting afterwards is sorting first. */
  lemma {:induction false} SortMap<T, U>(f: T -> U, s: seq<T>, key: T -> int, keyU: U -> int)
    requires forall y :: y in s ==> keyU(f(y)) == key(y)
    ensures MapSeq(f, SortBy(s, key)) == SortBy(MapSeq(f, s), keyU)
  {
    if s != [] {
      SortMap(f, s[1..], key, keyU);
      SortedPermutation(s[1..], key);
      forall y | y in SortBy(s[1..], key) ensures keyU(f(y)) == key(y) {
        InBoth(SortBy(s[1..], key), s[1..], y);
      }
      InsertMap(f, s[0], SortBy(s[1..], key), key, keyU);
      assert MapSeq(f, s)[1..] == MapSeq(f, s[1..]);
    }
  }

  // ----- texts, in the order Python gives them -----

  predicate Precedes(a: string, b: string) {
    b != "" && (a == "" || a[0] < b[0] || (a[0] == b[0] && Precedes(a[1..], b[1..])))
  }

  /** The texts part at one place, where the first has ended or has the smaller character. */
  ghost predicate PartsAt(a: string, b: string, n: nat) {
    && n <= |a| && n < |b| && a[..n] == b[..n]
    && (n == |a| || a[n] < b[n])
  }

  lemma {:induction false} PrecedesExactly(a: string, b: string)
    ensures Precedes(a, b) <==> exists n: nat :: PartsAt(a, b, n)
  {
    if b != "" && a != "" && a[0] == b[0] {
      PrecedesExactly(a[1..], b[1..]);
      forall n: nat ensures PartsAt(a[1..], b[1..], n) <==> PartsAt(a, b, n + 1) {
        if n <= |a[1..]| && n < |b[1..]| {
          assert a[..n + 1] == [a[0]] + a[1..][..n] && b[..n + 1] == [b[0]] + b[1..][..n];
        }
      }
      if exists n: nat :: PartsAt(a, b, n) {
        var n: nat :| PartsAt(a, b, n);
        assert PartsAt(a[1..], b[1..], n - 1);
      }
    } else {
      if Precedes(a, b) {
        assert PartsAt(a, b, 0);
      }
      if exists n: nat :: PartsAt(a, b, n) {
        var n: nat :| PartsAt(a, b, n);
        assert n > 0 ==> a[..n][0] == b[..n][0];
      }
    }
  }

  lemma {:induction false} PrecedesCarriesOver(a: string, b: string, c: string)
    requires Precedes(a, b) && Precedes(b, c)
    ensures Precedes(a, c)
  {
    if a != "" && a[0] == b[0] == c[0] {
      PrecedesCarriesOver(a[1..], b[1..], c[1..]);
    }
  }

  lemma {:induction false} OnePrecedes(a: string, b: string)
    requires a != b
    ensures Precedes(a, b) || Precedes(b, a)
  {
    if a != "" && b != "" && a[0] == b[0] {
      assert a == [a[0]] + a[1..] && b == [b[0]] + b[1..];
      OnePrecedes(a[1..], b[1..]);
    }
  }

  ghost predicate Alphabetical(texts: seq<string>) {
    forall i, j :: 0 <= i < j < |texts| ==> Precedes(texts[i], texts[j])
  }

  method InsertText(text: string, sorted: seq<string>) returns (r: seq<string>)
    requires Alphabetical(sorted) && text !in sorted
    ensures Alphabetical(r) && forall t :: t in r <==> t == text || t in sorted
  {
    var i := 0;
    while i < |sorted| && Precedes(sorted[i], text)
      invariant 0 <= i <= |sorted| && forall j :: 0 <= j < i ==> Precedes(sorted[j], text)
    {
      i := i + 1;
    }
    forall j | i <= j < |sorted| ensures Precedes(text, sorted[j]) {
      OnePrecedes(text, sorted[i]);
      if i < j {
        PrecedesCarriesOver(text, sorted[i], sorted[j]);
      }
    }
    r := sorted[..i] + [text] + sorted[i..];
  }

  /** `sorted(texts)` of a set. */
  method SortTexts(texts: set<string>) returns (r: seq<string>)
    ensures Alphabetical(r) && forall t :: t in r <==> t in texts
  {
    r := [];
    var rest := texts;
    while rest != {}
      invariant rest <= texts && Alphabetical(r)
      invariant forall t :: t in r <==> t in texts && t !in rest
      decreases |rest|
    {
      var text := Pick(rest);
      r := InsertText(text, r);
      rest := rest - {text};
    }
  }
}
