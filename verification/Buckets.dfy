/** What a subject's bucket depends on, and what it does not. */
module Buckets {
  import opened Operators
  import opened Configuration
  import opened Hashing
  import opened Engine
  import opened Schedule

  /** The five inputs, behind the mark of the scheme. */
  function Inputs(id: Identity, subjectKey: string): seq<string> {
    ["fv9", id.projectId, id.environmentId, id.flagKey, subjectKey, id.salt]
  }

  /** The runtime encodes these texts as UTF-8, and they fit the four-byte length. */
  ghost predicate Writes(rt: Runtime, texts: seq<string>) {
    forall t :: t in texts ==> FitsPrefix(t) && rt.utf8(t) == Utf8.Encode(t)
  }

  lemma {:induction false} BucketHashesInputs(rt: Runtime, id: Identity, subjectKey: string)
    requires Writes(rt, Inputs(id, subjectKey))
    ensures SubjectBucket(rt, id, subjectKey)
         == FromBigEndian(rt.hash(Encode(Components(Inputs(id, subjectKey))))[..8]) % 10000
  {
    hide Encode, FromBigEndian, FitsPrefix;
    var texts := Inputs(id, subjectKey);
    assert texts[0] in texts && texts[1] in texts && texts[2] in texts;
    assert texts[3] in texts && texts[4] in texts && texts[5] in texts;
    hide Inputs;
    var parts := Components(texts);
    assert |parts| == 6 && forall i :: 0 <= i < 6 ==> parts[i] == BytesOf(texts[i]);
    hide Components;
    assert parts == [
      rt.utf8(texts[0]), rt.utf8(texts[1]), rt.utf8(texts[2]), rt.utf8(texts[3]), rt.utf8(texts[4]), rt.utf8(texts[5])];
  }

  /** A hash that sends one input to one bucket and every other input to another. */
  lemma {:induction false} HashFor(first: seq<Byte>, p: nat, q: nat) returns (hash: seq<Byte> -> Digest)
    requires p < BUCKET_COUNT && q < BUCKET_COUNT
    ensures forall bytes :: FromBigEndian(hash(bytes)[..8]) % BUCKET_COUNT == if bytes == first then p else q
  {
    DigestFits(p);
    DigestFits(q);
    var a: Digest, b: Digest := DigestOf(p), DigestOf(q);
    hash := (bytes: seq<Byte>) => if bytes == first then a else b;
  }

  /** For any two different inputs and any two buckets there is a hash that puts one into each. */
  lemma {:induction false} AnyTwoBuckets(
    rt: Runtime, id: Identity, s: string, other: Identity, t: string, p: nat, q: nat)
    returns (hash: seq<Byte> -> Digest)
    requires Writes(rt, Inputs(id, s)) && Writes(rt, Inputs(other, t)) && Inputs(id, s) != Inputs(other, t)
    requires p < BUCKET_COUNT && q < BUCKET_COUNT
    ensures SubjectBucket(rt.(hash := hash), id, s) == p && SubjectBucket(rt.(hash := hash), other, t) == q
  {
    InputsStayApart(Inputs(id, s), Inputs(other, t));
    hash := HashFor(Encode(Components(Inputs(id, s))), p, q);
    BucketHashesInputs(rt.(hash := hash), id, s);
    BucketHashesInputs(rt.(hash := hash), other, t);
  }

  /** What decides a bucket, column by column. */
  predicate SameBucketInputs(id: Identity, s: string, other: Identity, t: string) {
    && id.projectId == other.projectId && id.environmentId == other.environmentId && id.flagKey == other.flagKey
    && id.salt == other.salt && s == t
  }

  ghost predicate AlwaysTogether(rt: Runtime, id: Identity, s: string, other: Identity, t: string) {
    forall hash: seq<Byte> -> Digest ::
      SubjectBucket(rt.(hash := hash), id, s) == SubjectBucket(rt.(hash := hash), other, t)
  }

  /**
   * Two subjects share a bucket under every hash if and only if project, environment, flag key, salt
   * and subject are the same. The other columns play no part.
   */
  lemma {:induction false} BucketInputsExactly(rt: Runtime, id: Identity, s: string, other: Identity, t: string)
    requires Writes(rt, Inputs(id, s)) && Writes(rt, Inputs(other, t))
    ensures AlwaysTogether(rt, id, s, other, t) <==> SameBucketInputs(id, s, other, t)
  {
    var a, b := Inputs(id, s), Inputs(other, t);
    assert a[1] == id.projectId && a[2] == id.environmentId && a[3] == id.flagKey && a[4] == s && a[5] == id.salt;
    assert b[1] == other.projectId && b[2] == other.environmentId && b[3] == other.flagKey && b[4] == t
      && b[5] == other.salt;
    hide SubjectBucket;
    if !SameBucketInputs(id, s, other, t) {
      var hash := AnyTwoBuckets(rt, id, s, other, t, 0, 1);
      assert SubjectBucket(rt.(hash := hash), id, s) != SubjectBucket(rt.(hash := hash), other, t);
    } else {
      forall hash: seq<Byte> -> Digest
        ensures SubjectBucket(rt.(hash := hash), id, s) == SubjectBucket(rt.(hash := hash), other, t)
      {
        BucketHashesInputs(rt.(hash := hash), id, s);
        BucketHashesInputs(rt.(hash := hash), other, t);
      }
    }
  }

  /** Under some hash a partial percentage answers two different subjects, whom no rule concerns, differently. */
  lemma {:induction false} RolloutTellsSubjectsApart(
    rt: Runtime, c: FlagConfiguration, attributes: map<string, Json>, s: string, t: string, now: int,
    percentage: int, variation: string, fallback: string)
    returns (hash: seq<Byte> -> Digest)
    requires Valid(c) && c.enabled && NoRuleApplies(rt.lib, c, attributes) && c.stages == []
    requires 0 < percentage < BUCKET_COUNT
    requires c.rollout == [Allocation(variation, percentage), Allocation(fallback, BUCKET_COUNT)]
    requires s != t && Writes(rt, Inputs(c.identity, s)) && Writes(rt, Inputs(c.identity, t))
    ensures var runtime := rt.(hash := hash);
      && Evaluate(runtime, c, Context(s, attributes), now).Returned?
      && Evaluate(runtime, c, Context(s, attributes), now).value.variation == variation
      && Evaluate(runtime, c, Context(t, attributes), now).Returned?
      && Evaluate(runtime, c, Context(t, attributes), now).value.variation == fallback
  {
    hide Valid, Evaluate, NoRuleApplies, SubjectBucket, Writes;
    assert Inputs(c.identity, s)[4] == s && Inputs(c.identity, t)[4] == t;
    hash := AnyTwoBuckets(rt, c.identity, s, c.identity, t, 0, percentage);
    var runtime := rt.(hash := hash);
    assert Schedule.PercentageRollout(percentage, variation, fallback) == c.rollout;
    ScheduledPercentageServes(runtime, c, Context(s, attributes), now, percentage, variation, fallback);
    ScheduledPercentageServes(runtime, c, Context(t, attributes), now, percentage, variation, fallback);
  }
}
