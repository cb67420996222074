/** The stable bucket of a subject (backend/app/evaluation/hashing.py). */
module Hashing {
  import opened Prelude
  import opened Configuration
  import Utf8

  type Byte = Utf8.Byte

  /** UTF-8 text whose length fits the four-byte prefix. */
  type Component = s: seq<Byte> | |s| < 0x1_0000_0000 witness []

  /** A BLAKE2b digest of 16 bytes. */
  type Digest = s: seq<Byte> | |s| == 16 witness [0, 0, 0, 0, 0, 0, 0, 0, 0, 0, 0, 0, 0, 0, 0, 0]

  const PREFIXES := 0x1_0000_0000_0000_0000

  function Power256(width: nat): (r: nat)
    ensures r > 0
  {
    if width == 0 then 1 else 256 * Power256(width - 1)
  }

  /** `number.to_bytes(width, "big")`. */
  function BigEndian(number: nat, width: nat): (r: seq<Byte>)
    ensures |r| == width
  {
    if width == 0 then [] else BigEndian(number / 256, width - 1) + [number % 256]
  }

  /** `int.from_bytes(bytes, "big")`. */
  function FromBigEndian(bytes: seq<Byte>): nat {
    if bytes == [] then 0 else 256 * FromBigEndian(bytes[..|bytes| - 1]) + bytes[|bytes| - 1]
  }

  lemma {:induction false} NumberRoundTrip(number: nat, width: nat)
    requires number < Power256(width)
    ensures FromBigEndian(BigEndian(number, width)) == number
  {
    if width > 0 {
      NumberRoundTrip(number / 256, width - 1);
      assert BigEndian(number, width)[..width - 1] == BigEndian(number / 256, width - 1);
    }
  }

  lemma {:induction false} BytesRoundTrip(bytes: seq<Byte>)
    ensures FromBigEndian(bytes) < Power256(|bytes|)
    ensures BigEndian(FromBigEndian(bytes), |bytes|) == bytes
  {
    if bytes != [] {
      BytesRoundTrip(bytes[..|bytes| - 1]);
      assert bytes == bytes[..|bytes| - 1] + [bytes[|bytes| - 1]];
    }
  }

  /** One component with its length before it. */
  function Frame(part: Component): seq<Byte> {
    BigEndian(|part|, 4) + part
  }

  /** The bytes fed to the digest. */
  function Encode(parts: seq<Component>): seq<Byte> {
    if parts == [] then [] else Encode(parts[..|parts| - 1]) + Frame(parts[|parts| - 1])
  }

  function Bucket(hash: seq<Byte> -> Digest, parts: seq<Component>): (r: int)
    ensures 0 <= r < BUCKET_COUNT
  {
    FromBigEndian(hash(Encode(parts))[..8]) % BUCKET_COUNT
  }

  /** `stable_bucket`: one length and one component at a time into the digest. */
  method StableBucket(hash: seq<Byte> -> Digest, parts: seq<Component>) returns (r: int)
    ensures r == Bucket(hash, parts)
  {
    var fed: seq<Byte> := [];
    for i := 0 to |parts|
      invariant fed == Encode(parts[..i])
    {
      var encoded := parts[i];
      assert parts[..i + 1][..i] == parts[..i];
      ghost var before := fed;
      fed := fed + BigEndian(|encoded|, 4);
      fed := fed + encoded;
      assert fed == before + Frame(encoded);
    }
    assert parts[..|parts|] == parts;
    r := FromBigEndian(hash(fed)[..8]) % BUCKET_COUNT;
  }

  // ----- the encoding is decodable -----

  function Decode(bytes: seq<Byte>): Option<seq<Component>> {
    if bytes == [] then Some([])
    else if |bytes| < 4 then None
    else
      var length := FromBigEndian(bytes[..4]);
      if |bytes| < 4 + length || length >= 0x1_0000_0000 then None
      else
        match Decode(bytes[4 + length..])
        case None => None
        case Some(rest) => Some([bytes[4..4 + length]] + rest)
  }

  lemma {:induction false} Associative(a: seq<Byte>, b: seq<Byte>, c: seq<Byte>)
    ensures a + b + c == a + (b + c)
  {
  }

  lemma {:induction false} EncodeFirst(parts: seq<Component>)
    requires parts != []
    ensures Encode(parts) == Frame(parts[0]) + Encode(parts[1..])
  {
    var front, last := parts[..|parts| - 1], parts[|parts| - 1];
    if |parts| > 1 {
      EncodeFirst(front);
      assert front[1..] == parts[1..][..|parts| - 2];
      assert Encode(parts[1..]) == Encode(front[1..]) + Frame(last);
      Associative(Frame(parts[0]), Encode(front[1..]), Frame(last));
    } else {
      assert Encode(front) == [];
    }
  }

  lemma {:induction false} DecodeOne(part: Component, rest: seq<Byte>)
    ensures Decode(Frame(part) + rest)
         == match Decode(rest) case None => None case Some(parts) => Some([part] + parts)
  {
    var bytes := Frame(part) + rest;
    assert Power256(4) == 0x1_0000_0000;
    NumberRoundTrip(|part|, 4);
    assert bytes[..4] == BigEndian(|part|, 4);
    assert bytes[4..4 + |part|] == part;
    assert bytes[4 + |part|..] == rest;
  }

  lemma {:induction false} EncodingRoundTrip(parts: seq<Component>)
    ensures Decode(Encode(parts)) == Some(parts)
  {
    if parts != [] {
      EncodeFirst(parts);
      EncodingRoundTrip(parts[1..]);
      DecodeOne(parts[0], Encode(parts[1..]));
      assert parts == [parts[0]] + parts[1..];
    }
  }

  /** Distinct tuples never feed the same bytes to the digest. */
  lemma {:induction false} EncodingIsInjective(a: seq<Component>, b: seq<Component>)
    requires Encode(a) == Encode(b)
    ensures a == b
  {
    EncodingRoundTrip(a);
    EncodingRoundTrip(b);
  }

  predicate FitsPrefix(text: string) {
    |Utf8.Encode(text)| < 0x1_0000_0000
  }

  function BytesOf(text: string): Component
    requires FitsPrefix(text)
  {
    Utf8.Encode(text)
  }

  function Components(texts: seq<string>): seq<Component>
    requires forall t :: t in texts ==> FitsPrefix(t)
  {
    seq(|texts|, i requires 0 <= i < |texts| => BytesOf(texts[i]))
  }

  /** Different project, environment, flag, subject or salt: different bytes for the digest. */
  lemma {:induction false} InputsStayApart(a: seq<string>, b: seq<string>)
    requires (forall t :: t in a ==> FitsPrefix(t)) && (forall t :: t in b ==> FitsPrefix(t))
    ensures Encode(Components(a)) == Encode(Components(b)) <==> a == b
  {
    if Encode(Components(a)) == Encode(Components(b)) {
      EncodingIsInjective(Components(a), Components(b));
      assert |a| == |Components(a)| == |b|;
      forall i | 0 <= i < |a| ensures a[i] == b[i] {
        assert Components(a)[i] == Components(b)[i];
        Utf8.TextsStayApart(a[i], b[i]);
      }
    }
  }

  // ----- how even the buckets are -----

  predicate FallsBelow(prefix: int, boundary: int) {
    prefix % BUCKET_COUNT < boundary
  }

  ghost function Below(n: int, boundary: int): set<int> {
    set x | 0 <= x < n && FallsBelow(x, boundary)
  }

  function Least(a: int, b: int): int {
    if a <= b then a else b
  }

  lemma {:induction false} CountBelow(n: nat, boundary: int)
    requires 0 <= boundary <= BUCKET_COUNT
    ensures |Below(n, boundary)| == n / BUCKET_COUNT * boundary + Least(n % BUCKET_COUNT, boundary)
  {
    if n == 0 {
      assert Below(n, boundary) == {};
    } else {
      CountBelow(n - 1, boundary);
      if FallsBelow(n - 1, boundary) {
        assert Below(n, boundary) == Below(n - 1, boundary) + {n - 1};
      } else {
        assert Below(n, boundary) == Below(n - 1, boundary);
      }
      CountStep(n, boundary);
    }
  }

  lemma {:induction false} CountStep(n: int, boundary: int)
    requires n > 0 && 0 <= boundary <= BUCKET_COUNT
    ensures n / BUCKET_COUNT * boundary + Least(n % BUCKET_COUNT, boundary)
         == (n - 1) / BUCKET_COUNT * boundary + Least((n - 1) % BUCKET_COUNT, boundary)
          + (if FallsBelow(n - 1, boundary) then 1 else 0)
  {
    var q, r := (n - 1) / BUCKET_COUNT, (n - 1) % BUCKET_COUNT;
    if r == BUCKET_COUNT - 1 {
      assert n / BUCKET_COUNT == q + 1 && n % BUCKET_COUNT == 0;
      assert (q + 1) * boundary == q * boundary + boundary;
    } else {
      assert n / BUCKET_COUNT == q && n % BUCKET_COUNT == r + 1;
    }
  }

  /**
   * Of the 2^64 eight-byte prefixes, which are the numbers below 2^64, exactly this many fall
   * below a boundary: buckets 0 to 1615 receive one prefix more than the others.
   */
  lemma {:induction false} BucketsAreNearlyUniform(boundary: int)
    requires 0 <= boundary <= BUCKET_COUNT
    ensures |Below(PREFIXES, boundary)| == 1844674407370955 * boundary + Least(1616, boundary)
  {
    CountBelow(PREFIXES, boundary);
    assert PREFIXES / BUCKET_COUNT == 1844674407370955 && PREFIXES % BUCKET_COUNT == 1616;
  }

  lemma {:induction false} PrefixesAreNumbers(bytes: seq<Byte>)
    requires |bytes| == 8
    ensures 0 <= FromBigEndian(bytes) < PREFIXES && BigEndian(FromBigEndian(bytes), 8) == bytes
  {
    BytesRoundTrip(bytes);
    assert Power256(8) == PREFIXES by {
      assert Power256(4) == 0x1_0000_0000;
      assert Power256(6) == 0x1_0000_0000_0000;
    }
  }

  /** The first byte counts most. */
  lemma {:induction false} FirstByteCountsMost(first: Byte, rest: seq<Byte>)
    ensures FromBigEndian([first] + rest) == first * Power256(|rest|) + FromBigEndian(rest)
  {
    var all := [first] + rest;
    if rest == [] {
      assert all[..0] == [];
    } else {
      assert all[..|all| - 1] == [first] + rest[..|rest| - 1];
      FirstByteCountsMost(first, rest[..|rest| - 1]);
      assert first * Power256(|rest|) == 256 * (first * Power256(|rest| - 1));
    }
  }

  // ----- a digest for every bucket -----

  function Zeros(n: nat): seq<Byte> {
    if n == 0 then [] else Zeros(n - 1) + [0]
  }

  function DigestOf(bucket: nat): seq<Byte> {
    BigEndian(bucket, 8) + Zeros(8)
  }

  lemma {:induction false} DigestFits(bucket: nat)
    requires bucket < BUCKET_COUNT
    ensures |DigestOf(bucket)| == 16 && FromBigEndian(DigestOf(bucket)[..8]) == bucket
  {
    assert |Zeros(8)| == 8;
    assert Power256(8) > BUCKET_COUNT by {
      assert Power256(2) == 65536 && Power256(5) >= Power256(2);
    }
    NumberRoundTrip(bucket, 8);
    assert DigestOf(bucket)[..8] == BigEndian(bucket, 8);
  }
}
