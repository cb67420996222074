/** Progressive rollouts: the latest active stage decides (backend/app/evaluation/engine.py:112). */
module Stages {
  import opened Prelude
  import opened Configuration

  /** `max(stages, key=activate_at)`: the first of the latest ones. */
  function Latest(stages: seq<Stage>): (r: Stage)
    requires stages != []
    ensures r in stages
    ensures forall s :: s in stages ==> s.activateAt <= r.activateAt
  {
    if |stages| == 1 then stages[0]
    else
      var later := Latest(stages[1..]);
      if later.activateAt > stages[0].activateAt then later else stages[0]
  }

  /** `min(stages, key=activate_at)`: the first of the earliest ones. */
  function Earliest(stages: seq<Stage>): (r: Stage)
    requires stages != []
    ensures r in stages
    ensures forall s :: s in stages ==> r.activateAt <= s.activateAt
  {
    if |stages| == 1 then stages[0]
    else
      var other := Earliest(stages[1..]);
      if other.activateAt < stages[0].activateAt then other else stages[0]
  }

  function Active(stages: seq<Stage>, now: int): (r: seq<Stage>)
    ensures forall s :: s in r <==> s in stages && s.activateAt <= now
    ensures r == [] <==> forall s :: s in stages ==> s.activateAt > now
  {
    if stages == [] then []
    else (if stages[0].activateAt <= now then [stages[0]] else []) + Active(stages[1..], now)
  }

  function Decide(s: Stage, bucket: int): string {
    if bucket < s.percentage then s.variation else s.fallback
  }

  /** `_progressive_variation`. */
  function Progressive(stages: seq<Stage>, bucket: int, now: int): string
    requires stages != []
  {
    var active := Active(stages, now);
    if active == [] then Earliest(stages).fallback else Decide(Latest(active), bucket)
  }

  // ----- when the order of the rows cannot be seen -----

  datatype Verdict = Always(variation: string) | Split(percentage: int, below: string, above: string)

  /** What a stage does to the buckets 0..9999, with the parts that decide nothing dropped. */
  function Normal(s: Stage): Verdict {
    if s.percentage <= 0 || s.variation == s.fallback then Always(s.fallback)
    else if s.percentage >= BUCKET_COUNT then Always(s.variation)
    else Split(s.percentage, s.variation, s.fallback)
  }

  ghost predicate DecideAlike(s: Stage, t: Stage) {
    forall b :: 0 <= b < BUCKET_COUNT ==> Decide(s, b) == Decide(t, b)
  }

  lemma {:induction false} NormalFormIsExact(s: Stage, t: Stage)
    ensures Normal(s) == Normal(t) <==> DecideAlike(s, t)
  {
    if DecideAlike(s, t) {
      var least := if s.percentage <= t.percentage then s.percentage else t.percentage;
      assert Decide(s, 0) == Decide(t, 0);
      assert Decide(s, BUCKET_COUNT - 1) == Decide(t, BUCKET_COUNT - 1);
      if 0 <= least < BUCKET_COUNT {
        assert Decide(s, least) == Decide(t, least);
      }
    }
  }

  ghost predicate IsEarliest(stages: seq<Stage>, s: Stage) {
    forall u :: u in stages ==> s.activateAt <= u.activateAt
  }

  /** Stages that start at the same instant do the same; the earliest ones also fall back alike. */
  ghost predicate Unambiguous(stages: seq<Stage>) {
    forall s, t :: s in stages && t in stages && s.activateAt == t.activateAt ==>
      && Normal(s) == Normal(t)
      && (IsEarliest(stages, s) ==> s.fallback == t.fallback)
  }

  ghost predicate OrderFree(stages: seq<Stage>)
    requires stages != []
  {
    forall order: seq<Stage>, bucket, now ::
      multiset(order) == multiset(stages) && order != [] && 0 <= bucket < BUCKET_COUNT ==>
        Progressive(order, bucket, now) == Progressive(stages, bucket, now)
  }

  lemma {:induction false} OrderCannotBeSeen(stages: seq<Stage>, order: seq<Stage>, bucket: int, now: int)
    requires multiset(order) == multiset(stages) && stages != [] && order != []
    requires Unambiguous(stages) && 0 <= bucket < BUCKET_COUNT
    ensures Progressive(order, bucket, now) == Progressive(stages, bucket, now)
  {
    forall s ensures s in order <==> s in stages {
      InBoth(order, stages, s);
    }
    hide Normal, Decide;
    if Active(stages, now) == [] {
      assert IsEarliest(stages, Earliest(stages));
      assert Earliest(order).activateAt == Earliest(stages).activateAt;
    } else {
      assert Active(stages, now)[0] in Active(order, now);
      var s, t := Latest(Active(order, now)), Latest(Active(stages, now));
      assert s.activateAt == t.activateAt;
      NormalFormIsExact(s, t);
    }
  }

  lemma {:induction false} ReadFirst(stages: seq<Stage>, s: Stage) returns (order: seq<Stage>)
    requires s in stages
    ensures multiset(order) == multiset(stages) && order != [] && order[0] == s
  {
    var i :| 0 <= i < |stages| && stages[i] == s;
    order := [s] + Without(stages, i);
    MultisetWithout(stages, i);
  }

  lemma {:induction false} FirstOfTheTiedDecides(order: seq<Stage>, bucket: int)
    requires order != []
    ensures Progressive(order, bucket, order[0].activateAt) == Decide(order[0], bucket)
  {
    var now := order[0].activateAt;
    var active := Active(order, now);
    assert active == [order[0]] + Active(order[1..], now);
    assert active[0] == order[0];
    assert Latest(active) == order[0] by {
      if |active| > 1 {
        assert Latest(active[1..]) in active;
      }
    }
  }

  lemma {:induction false} FirstOfTheEarliestFallsBack(order: seq<Stage>, bucket: int)
    requires order != [] && IsEarliest(order, order[0])
    ensures Progressive(order, bucket, order[0].activateAt - 1) == order[0].fallback
  {
    var now := order[0].activateAt - 1;
    assert Active(order, now) == [];
    if |order| > 1 {
      assert Earliest(order[1..]) in order;
    }
  }

  /**
   * Exactly when a stage list gives one answer whatever order the database returns it in: for
   * every bucket and every instant, the answer is the same under all orders if and only if stages
   * tied on `activate_at` are interchangeable.
   */
  lemma {:induction false} OrderFreeExactly(stages: seq<Stage>)
    requires stages != []
    ensures OrderFree(stages) <==> Unambiguous(stages)
  {
    if Unambiguous(stages) {
      forall order: seq<Stage>, bucket, now |
        multiset(order) == multiset(stages) && order != [] && 0 <= bucket < BUCKET_COUNT
        ensures Progressive(order, bucket, now) == Progressive(stages, bucket, now)
      {
        OrderCannotBeSeen(stages, order, bucket, now);
      }
    }
    if OrderFree(stages) {
      forall s, t | s in stages && t in stages && s.activateAt == t.activateAt
        ensures Normal(s) == Normal(t) && (IsEarliest(stages, s) ==> s.fallback == t.fallback)
      {
        TiedStagesAgree(stages, s, t);
      }
    }
  }

  lemma {:induction false} TiedStagesAgree(stages: seq<Stage>, s: Stage, t: Stage)
    requires stages != [] && OrderFree(stages)
    requires s in stages && t in stages && s.activateAt == t.activateAt
    ensures Normal(s) == Normal(t)
    ensures IsEarliest(stages, s) ==> s.fallback == t.fallback
  {
    var sFirst := ReadFirst(stages, s);
    var tFirst := ReadFirst(stages, t);
    forall b | 0 <= b < BUCKET_COUNT ensures Decide(s, b) == Decide(t, b) {
      FirstOfTheTiedDecides(sFirst, b);
      FirstOfTheTiedDecides(tFirst, b);
      assert Progressive(sFirst, b, s.activateAt) == Progressive(tFirst, b, s.activateAt);
    }
    NormalFormIsExact(s, t);
    if IsEarliest(stages, s) {
      forall u ensures (u in sFirst <==> u in stages) && (u in tFirst <==> u in stages) {
        InBoth(sFirst, stages, u);
        InBoth(tFirst, stages, u);
      }
      FirstOfTheEarliestFallsBack(sFirst, 0);
      FirstOfTheEarliestFallsBack(tFirst, 0);
    }
  }

  /** Two stages at one instant: the subject's variation depends on the order of the rows. */
  lemma {:induction false} TiedStagesAreOrdered()
    ensures var on := Stage(BUCKET_COUNT, "on", "off", 0);
            var off := Stage(0, "on", "off", 0);
            && multiset([on, off]) == multiset([off, on])
            && Progressive([on, off], 0, 0) == "on"
            && Progressive([off, on], 0, 0) == "off"
  {
    var on := Stage(BUCKET_COUNT, "on", "off", 0);
    var off := Stage(0, "on", "off", 0);
    FirstOfTheTiedDecides([on, off], 0);
    FirstOfTheTiedDecides([off, on], 0);
  }

  // ----- a ramp only ever adds subjects -----

  /** One pair of variations throughout, and percentages that never fall as time goes on. */
  ghost predicate Ramp(stages: seq<Stage>, variation: string, fallback: string) {
    && variation != fallback
    && (forall s :: s in stages ==> s.variation == variation && s.fallback == fallback)
    && (forall s, t :: s in stages && t in stages && s.activateAt <= t.activateAt ==> s.percentage <= t.percentage)
  }

  /**
   * A subject let in at one instant is still in at every later one, in whatever order each read returned
   * the stages.
   */
  lemma {:induction false} RampKeepsSubjects(
    early: seq<Stage>, late: seq<Stage>, variation: string, fallback: string, bucket: int, earlier: int, now: int)
    requires multiset(early) == multiset(late) && early != [] && late != []
    requires Ramp(early, variation, fallback) && earlier <= now
    requires Progressive(early, bucket, earlier) == variation
    ensures Progressive(late, bucket, now) == variation
  {
    forall s ensures s in early <==> s in late {
      InBoth(early, late, s);
    }
    assert Active(early, earlier) != [];
    var s := Latest(Active(early, earlier));
    assert s in Active(late, now);
    var t := Latest(Active(late, now));
    assert s.percentage <= t.percentage;
  }
}
