/** Tenor buckets (`EXPIRY_BUCKET_THRESHOLDS`, `classify_expiry`). */
module Buckets {

  /** A bucket's upper bound in days to expiry; the last bucket has none
      (`float("inf")`). */
  datatype Limit = AtMostDays(days: int) | NoLimit

  /** The thresholds, tried in order. */
  const ExpiryBucketThresholds: seq<(Limit, string)> := [
    (AtMostDays(30), "0-1M"),
    (AtMostDays(90), "1-3M"),
    (AtMostDays(180), "3-6M"),
    (AtMostDays(365), "6-12M"),
    (AtMostDays(730), "1-2Y"),
    (NoLimit, "2Y+")
  ]

  /** The label returned when no threshold matches. */
  const FallbackLabel: string := "2Y+"

  /** `days <= threshold`. */
  predicate Within(days: int, limit: Limit)
  {
    limit.NoLimit? || days <= limit.days
  }

  /** The first-match scan over a threshold table. */
  function FirstBucket(table: seq<(Limit, string)>, days: int): (b: string)
    ensures b == FallbackLabel || exists k :: 0 <= k < |table| && b == table[k].1
  {
    if |table| == 0 then FallbackLabel
    else if Within(days, table[0].0) then table[0].1
    else FirstBucket(table[1..], days)
  }

  /** The scan returns the label of the first threshold that admits `days`. */
  lemma {:induction false} FirstBucketFirst(table: seq<(Limit, string)>, days: int, k: nat)
    requires k < |table| && Within(days, table[k].0)
    requires forall l :: 0 <= l < k ==> !Within(days, table[l].0)
    ensures FirstBucket(table, days) == table[k].1
  {
    if k > 0 {
      assert !Within(days, table[0].0);
      forall l | 0 <= l < k - 1 ensures !Within(days, table[1..][l].0) {
        assert table[1..][l] == table[l + 1];
      }
      FirstBucketFirst(table[1..], days, k - 1);
    }
  }

  /** `classify_expiry`, on the day count between the reference date and the expiry. */
  function ClassifyDays(days: int): (b: string)
    ensures b in {"0-1M", "1-3M", "3-6M", "6-12M", "1-2Y", "2Y+"}
  {
    FirstBucket(ExpiryBucketThresholds, days)
  }

  /** Each label covers one interval of day counts: the buckets are (-inf, 30],
      (30, 90], (90, 180], (180, 365], (365, 730] and (730, inf). There is no
      separate bucket for an expiry on or before the reference date. */
  lemma ClassifyDaysIntervals(days: int)
    ensures ClassifyDays(days) == "0-1M" <==> days <= 30
    ensures ClassifyDays(days) == "1-3M" <==> 30 < days <= 90
    ensures ClassifyDays(days) == "3-6M" <==> 90 < days <= 180
    ensures ClassifyDays(days) == "6-12M" <==> 180 < days <= 365
    ensures ClassifyDays(days) == "1-2Y" <==> 365 < days <= 730
    ensures ClassifyDays(days) == "2Y+" <==> 730 < days
  {
    var t := ExpiryBucketThresholds;
    var k := if days <= 30 then 0 else if days <= 90 then 1 else if days <= 180 then 2
      else if days <= 365 then 3 else if days <= 730 then 4 else 5;
    FirstBucketFirst(t, days, k);
  }

  /** The position of a label in the table (the tenor order of the buckets). */
  function LabelRank(name: string): (rank: nat)
    ensures rank < |ExpiryBucketThresholds|
    ensures forall k :: 0 <= k < |ExpiryBucketThresholds| && ExpiryBucketThresholds[k].1 == name ==> rank == k
  {
    if name == "0-1M" then 0
    else if name == "1-3M" then 1
    else if name == "3-6M" then 2
    else if name == "6-12M" then 3
    else if name == "1-2Y" then 4
    else 5
  }

  /** A later expiry never lands in an earlier bucket. */
  lemma ClassifyMonotone(days1: int, days2: int)
    requires days1 <= days2
    ensures LabelRank(ClassifyDays(days1)) <= LabelRank(ClassifyDays(days2))
    ensures ExpiryBucketThresholds[LabelRank(ClassifyDays(days1))].1 == ClassifyDays(days1)
  {
    ClassifyDaysIntervals(days1);
    ClassifyDaysIntervals(days2);
  }
}
