/** Percentage rollouts: basis points in, cumulative bucket boundaries stored, one scan to decide. */
module Rollout {
  import opened Prelude
  import opened Configuration

  datatype RolloutInput = RolloutInput(variation: string, basisPoints: int)

  /** `NotTotal` is the 422 answer; `OutOfRange` is the ValidationError of `RolloutAllocation`. */
  datatype RolloutError = NotTotal | OutOfRange

  /** The field constraint of `RolloutInput`. */
  predicate ValidShare(basisPoints: int) {
    0 < basisPoints <= BUCKET_COUNT
  }

  predicate ValidInputs(inputs: seq<RolloutInput>) {
    forall i :: 0 <= i < |inputs| ==> ValidShare(inputs[i].basisPoints)
  }

  function Total(inputs: seq<RolloutInput>): int {
    if inputs == [] then 0 else Total(inputs[..|inputs| - 1]) + inputs[|inputs| - 1].basisPoints
  }

  function RunningSums(inputs: seq<RolloutInput>): (r: seq<Allocation>)
    ensures |r| == |inputs|
  {
    if inputs == [] then []
    else
      var front := inputs[..|inputs| - 1];
      RunningSums(front) + [Allocation(inputs[|inputs| - 1].variation, Total(inputs))]
  }

  predicate InRange(rollout: seq<Allocation>) {
    forall i :: 0 <= i < |rollout| ==> 0 < rollout[i].endBucket <= BUCKET_COUNT
  }

  function Cumulate(inputs: seq<RolloutInput>): Result<seq<Allocation>, RolloutError> {
    if !InRange(RunningSums(inputs)) then Err(OutOfRange)
    else if inputs != [] && Total(inputs) != BUCKET_COUNT then Err(NotTotal)
    else Ok(RunningSums(inputs))
  }

  /** `_rollout_allocations`. */
  method RolloutAllocations(inputs: seq<RolloutInput>) returns (r: Result<seq<Allocation>, RolloutError>)
    ensures r == Cumulate(inputs)
  {
    var boundary := 0;
    var allocations: seq<Allocation> := [];
    for i := 0 to |inputs|
      invariant boundary == Total(inputs[..i])
      invariant allocations == RunningSums(inputs[..i])
      invariant InRange(allocations)
    {
      var item := inputs[i];
      boundary := boundary + item.basisPoints;
      assert inputs[..i + 1][..i] == inputs[..i];
      assert boundary == Total(inputs[..i + 1]);
      if !(0 < boundary <= BUCKET_COUNT) {
        SumsOfPrefix(inputs, i + 1);
        assert RunningSums(inputs)[i].endBucket == boundary;
        return Err(OutOfRange);
      }
      allocations := allocations + [Allocation(item.variation, boundary)];
    }
    assert inputs[..|inputs|] == inputs;
    if allocations != [] && boundary != BUCKET_COUNT {
      return Err(NotTotal);
    }
    return Ok(allocations);
  }

  function ShareAt(rollout: seq<Allocation>, i: nat): int
    requires i < |rollout|
  {
    rollout[i].endBucket - (if i == 0 then 0 else rollout[i - 1].endBucket)
  }

  function Differences(rollout: seq<Allocation>): (r: seq<RolloutInput>)
    ensures |r| == |rollout|
  {
    if rollout == [] then []
    else
      Differences(rollout[..|rollout| - 1])
      + [RolloutInput(rollout[|rollout| - 1].variation, ShareAt(rollout, |rollout| - 1))]
  }

  /** `_rollout_inputs`; it raises when a difference is no valid `RolloutInput`. */
  method RolloutInputs(rollout: seq<Allocation>) returns (r: Outcome<seq<RolloutInput>>)
    ensures r == if ValidInputs(Differences(rollout)) then Returned(Differences(rollout)) else Raised
  {
    var previous := 0;
    var values: seq<RolloutInput> := [];
    for i := 0 to |rollout|
      invariant previous == if i == 0 then 0 else rollout[i - 1].endBucket
      invariant values == Differences(rollout[..i])
      invariant ValidInputs(values)
    {
      var share := rollout[i].endBucket - previous;
      assert rollout[..i + 1][..i] == rollout[..i];
      assert Differences(rollout[..i + 1]) == values + [RolloutInput(rollout[i].variation, share)];
      if !ValidShare(share) {
        DifferencesOfPrefix(rollout, i + 1);
        assert Differences(rollout)[i].basisPoints == share;
        return Raised;
      }
      values := values + [RolloutInput(rollout[i].variation, share)];
      previous := rollout[i].endBucket;
    }
    assert rollout[..|rollout|] == rollout;
    return Returned(values);
  }

  lemma {:induction false} SumsOfPrefix(inputs: seq<RolloutInput>, n: nat)
    requires n <= |inputs|
    ensures RunningSums(inputs[..n]) == RunningSums(inputs)[..n]
    decreases |inputs|
  {
    if n == |inputs| {
      assert inputs[..n] == inputs;
    } else {
      SumsOfPrefix(inputs[..|inputs| - 1], n);
      assert inputs[..|inputs| - 1][..n] == inputs[..n];
    }
  }

  lemma {:induction false} DifferencesOfPrefix(rollout: seq<Allocation>, n: nat)
    requires n <= |rollout|
    ensures Differences(rollout[..n]) == Differences(rollout)[..n]
    decreases |rollout|
  {
    if n == |rollout| {
      assert rollout[..n] == rollout;
    } else {
      DifferencesOfPrefix(rollout[..|rollout| - 1], n);
      assert rollout[..|rollout| - 1][..n] == rollout[..n];
    }
  }

  lemma {:induction false} SumAt(inputs: seq<RolloutInput>, i: nat)
    requires i < |inputs|
    ensures RunningSums(inputs)[i] == Allocation(inputs[i].variation, Total(inputs[..i + 1]))
    ensures Total(inputs[..i + 1]) == Total(inputs[..i]) + inputs[i].basisPoints
  {
    SumsOfPrefix(inputs, i + 1);
    assert inputs[..i + 1][..i] == inputs[..i];
    assert RunningSums(inputs)[i] == RunningSums(inputs)[..i + 1][i];
  }

  lemma {:induction false} DifferenceAt(rollout: seq<Allocation>, i: nat)
    requires i < |rollout|
    ensures Differences(rollout)[i] == RolloutInput(rollout[i].variation, ShareAt(rollout, i))
  {
    DifferencesOfPrefix(rollout, i + 1);
    assert rollout[..i + 1][..i] == rollout[..i];
    assert Differences(rollout)[i] == Differences(rollout)[..i + 1][i];
    assert ShareAt(rollout[..i + 1], i) == ShareAt(rollout, i);
  }

  // ----- sums and differences undo each other -----

  lemma {:induction false} TotalOfDifferences(rollout: seq<Allocation>)
    ensures Total(Differences(rollout)) == if rollout == [] then 0 else rollout[|rollout| - 1].endBucket
  {
    if rollout != [] {
      var front := rollout[..|rollout| - 1];
      TotalOfDifferences(front);
      assert Differences(rollout)[..|front|] == Differences(front);
    }
  }

  lemma {:induction false} SumsOfDifferences(rollout: seq<Allocation>)
    ensures RunningSums(Differences(rollout)) == rollout
  {
    if rollout != [] {
      var front := rollout[..|rollout| - 1];
      SumsOfDifferences(front);
      TotalOfDifferences(rollout);
      assert Differences(rollout)[..|front|] == Differences(front);
      assert rollout == front + [rollout[|rollout| - 1]];
    }
  }

  lemma {:induction false} DifferencesOfSums(inputs: seq<RolloutInput>)
    ensures Differences(RunningSums(inputs)) == inputs
  {
    forall i | 0 <= i < |inputs| ensures Differences(RunningSums(inputs))[i] == inputs[i] {
      DifferenceAt(RunningSums(inputs), i);
      SumAt(inputs, i);
      if i == 0 {
        assert Total(inputs[..0]) == 0;
      } else {
        SumAt(inputs, i - 1);
      }
    }
  }

  lemma {:induction false} TotalIncreases(inputs: seq<RolloutInput>, i: nat, j: nat)
    requires ValidInputs(inputs) && i < j <= |inputs|
    ensures 0 <= Total(inputs[..i]) < Total(inputs[..j])
    decreases j
  {
    assert inputs[..j][..j - 1] == inputs[..j - 1];
    if i < j - 1 {
      TotalIncreases(inputs, i, j - 1);
    } else if i == 0 {
      assert Total(inputs[..0]) == 0;
    } else {
      TotalIncreases(inputs, i - 1, i);
    }
  }

  lemma {:induction false} SumsIncrease(inputs: seq<RolloutInput>, i: nat, j: nat)
    requires ValidInputs(inputs) && i < j < |inputs|
    ensures 0 < RunningSums(inputs)[i].endBucket < RunningSums(inputs)[j].endBucket <= Total(inputs)
  {
    SumAt(inputs, i);
    SumAt(inputs, j);
    TotalIncreases(inputs, 0, i + 1);
    TotalIncreases(inputs, i + 1, j + 1);
    assert inputs[..|inputs|] == inputs;
    if j + 1 < |inputs| {
      TotalIncreases(inputs, j + 1, |inputs|);
    }
  }

  lemma {:induction false} LastSum(inputs: seq<RolloutInput>)
    requires ValidInputs(inputs) && inputs != []
    ensures RunningSums(inputs)[|inputs| - 1].endBucket == Total(inputs) > 0
  {
    SumAt(inputs, |inputs| - 1);
    assert inputs[..|inputs|] == inputs;
    TotalIncreases(inputs, 0, |inputs|);
  }

  /** Which of the three endings a list of positive shares gets, exactly; and what success means. */
  lemma {:induction false} CumulateExactly(inputs: seq<RolloutInput>)
    requires ValidInputs(inputs)
    ensures Cumulate(inputs).Ok? <==> inputs == [] || Total(inputs) == BUCKET_COUNT
    ensures Cumulate(inputs) == Err(OutOfRange) <==> Total(inputs) > BUCKET_COUNT
    ensures Cumulate(inputs).Ok? ==> ValidRollout(Cumulate(inputs).value) && |Cumulate(inputs).value| == |inputs|
    ensures Cumulate(inputs).Ok? ==> Differences(Cumulate(inputs).value) == inputs
  {
    if inputs != [] {
      var sums := RunningSums(inputs);
      LastSum(inputs);
      forall i, j | 0 <= i < j < |sums| ensures 0 < sums[i].endBucket < sums[j].endBucket <= Total(inputs) {
        SumsIncrease(inputs, i, j);
      }
      assert InRange(sums) <==> Total(inputs) <= BUCKET_COUNT;
      DifferencesOfSums(inputs);
    }
  }

  /** A stored rollout turns into an accepted input list, and that list into the same rollout. */
  lemma {:induction false} RolloutRoundTrip(rollout: seq<Allocation>)
    requires ValidRollout(rollout)
    ensures ValidInputs(Differences(rollout))
    ensures Cumulate(Differences(rollout)) == Ok(rollout)
  {
    SumsOfDifferences(rollout);
    TotalOfDifferences(rollout);
    forall i | 0 <= i < |rollout|
      ensures ValidShare(Differences(rollout)[i].basisPoints) && 0 < rollout[i].endBucket <= BUCKET_COUNT
    {
      DifferenceAt(rollout, i);
      assert rollout[i].endBucket <= rollout[|rollout| - 1].endBucket;
    }
  }

  // ----- the scan -----

  /** The first entry whose boundary lies above the bucket; |rollout| when there is none. */
  function ServingEntry(rollout: seq<Allocation>, bucket: int): (i: nat)
    ensures i <= |rollout|
    ensures forall j :: 0 <= j < i ==> bucket >= rollout[j].endBucket
    ensures i < |rollout| ==> bucket < rollout[i].endBucket
  {
    if rollout == [] || bucket < rollout[0].endBucket then 0 else 1 + ServingEntry(rollout[1..], bucket)
  }

  function Scan(rollout: seq<Allocation>, bucket: int): Outcome<string> {
    var i := ServingEntry(rollout, bucket);
    if i < |rollout| then Returned(rollout[i].variation) else Raised
  }

  /** `_rollout_variation`. */
  method RolloutVariation(rollout: seq<Allocation>, bucket: int) returns (r: Outcome<string>)
    ensures r == Scan(rollout, bucket)
  {
    for i := 0 to |rollout|
      invariant forall j :: 0 <= j < i ==> bucket >= rollout[j].endBucket
    {
      if bucket < rollout[i].endBucket {
        return Returned(rollout[i].variation);
      }
    }
    return Raised;
  }

  /** On every bucket of a valid rollout the scan ends at a declared entry. */
  lemma {:induction false} ScanSucceeds(rollout: seq<Allocation>, bucket: int)
    requires ValidRollout(rollout) && rollout != [] && 0 <= bucket < BUCKET_COUNT
    ensures ServingEntry(rollout, bucket) < |rollout|
    ensures Scan(rollout, bucket).Returned?
  {
    assert bucket < rollout[|rollout| - 1].endBucket;
  }

  predicate Within(low: int, b: int, high: int) {
    low <= b < high
  }

  ghost function Interval(low: int, high: int): set<int> {
    set b | low <= b < high && Within(low, b, high)
  }

  lemma {:induction false} IntervalSize(low: int, high: int)
    requires low <= high
    ensures |Interval(low, high)| == high - low
    decreases high - low
  {
    if low < high {
      IntervalSize(low, high - 1);
      assert Interval(low, high) == Interval(low, high - 1) + {high - 1};
    } else {
      assert Interval(low, high) == {};
    }
  }

  ghost function BucketsOf(rollout: seq<Allocation>, i: nat): set<int> {
    set b | 0 <= b < BUCKET_COUNT && ServingEntry(rollout, b) == i
  }

  lemma {:induction false} EntryOwnsInterval(rollout: seq<Allocation>, i: nat, b: int)
    requires ValidRollout(rollout) && i < |rollout|
    ensures ServingEntry(rollout, b) == i <==>
      Within(if i == 0 then b else rollout[i - 1].endBucket, b, rollout[i].endBucket)
  {
  }

  /**
   * The i-th entry of an accepted list receives exactly its number of basis points, counted in
   * buckets, and between them the entries receive every bucket once.
   */
  lemma {:induction false} RolloutPartition(inputs: seq<RolloutInput>, i: nat)
    requires ValidInputs(inputs) && Cumulate(inputs).Ok? && i < |inputs|
    ensures |BucketsOf(Cumulate(inputs).value, i)| == inputs[i].basisPoints
    ensures forall b :: 0 <= b < BUCKET_COUNT ==> ServingEntry(Cumulate(inputs).value, b) < |inputs|
  {
    CumulateExactly(inputs);
    var rollout := Cumulate(inputs).value;
    var low := if i == 0 then 0 else rollout[i - 1].endBucket;
    var high := rollout[i].endBucket;
    DifferenceAt(rollout, i);
    assert 0 <= low < high <= BUCKET_COUNT;
    forall b | 0 <= b < BUCKET_COUNT ensures ServingEntry(rollout, b) == i <==> Within(low, b, high) {
      EntryOwnsInterval(rollout, i, b);
    }
    assert BucketsOf(rollout, i) == Interval(low, high);
    IntervalSize(low, high);
    forall b | 0 <= b < BUCKET_COUNT ensures ServingEntry(rollout, b) < |inputs| {
      ScanSucceeds(rollout, b);
    }
  }
}
