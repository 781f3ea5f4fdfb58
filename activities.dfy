/** File models.go of package `main`: activities of laps rolled up into one
    activity per calendar bucket by appending the laps of the later
    activities of a bucket to its first one, and the distance chart's XY
    points. */
module Activities {
  import opened Reduce
  import opened Buckets
  import Models

  /** What the engine reads of a `tcx.Lap`: its distance. */
  datatype Lap = Lap(dist: real)

  /** What the engine reads of a `tcx.Activity`: its start time and its
      laps. */
  datatype Activity = Activity(start: Models.Time, laps: seq<Lap>)

  /** `TimeKey`: the key of `Rows.RollUp` at the precision the string
      names ("year", "month", "day"), and 0 for any other string, as `None`
      would give if it reached the key switch. */
  function TimeKey(t: Models.Time, precision: string): (k: int)
    ensures precision == "year" ==> k == Models.Key(t, Models.Years)
    ensures precision == "month" ==> k == Models.Key(t, Models.Months)
    ensures precision == "day" ==> k == Models.Key(t, Models.Days)
    ensures precision !in {"year", "month", "day"} ==> k == Models.Key(t, Models.None) == 0
  {
    if precision == "year" then t.year
    else if precision == "month" then t.year * 12 + t.month
    else if precision == "day" then t.year * 12 + t.month * 31 + t.day
    else 0
  }

  /** 13 January 2000 and 1 January 2001 share the "day" key, so their
      activities are merged into one. */
  lemma TimeKeyCollides()
    ensures TimeKey(Models.Time(2000, 1, 13, 947721600), "day")
            == TimeKey(Models.Time(2001, 1, 1, 978307200), "day") == 24044
  {
  }

  /** The key as intended: `TimeKey` with the day key replaced by
      `Models.DayKey`, which separates dates. */
  function FixedTimeKey(t: Models.Time, precision: string): (k: int)
    ensures precision == "year" ==> k == Models.FixedKey(t, Models.Years)
    ensures precision == "month" ==> k == Models.FixedKey(t, Models.Months)
    ensures precision == "day" ==> k == Models.FixedKey(t, Models.Days)
    ensures precision !in {"year", "month", "day"} ==> k == 0
  {
    if precision == "day" then Models.DayKey(t) else TimeKey(t, precision)
  }

  /** By day, the intended key puts two activities in one bucket exactly
      when they start on the same date. */
  lemma FixedTimeKeySeparates(a: Models.Time, b: Models.Time)
    requires Models.Calendar(a) && Models.Calendar(b)
    ensures FixedTimeKey(a, "day") == FixedTimeKey(b, "day") <==> a.year == b.year && a.month == b.month && a.day == b.day
  {
    Models.DayKeySeparates(a, b);
  }

  /** The key of each activity's start. */
  function Keys(acts: seq<Activity>, precision: string): (ks: seq<int>)
    ensures |ks| == |acts|
    ensures forall b | 0 <= b < |acts| :: ks[b] == TimeKey(acts[b].start, precision)
  {
    seq(|acts|, b requires 0 <= b < |acts| => TimeKey(acts[b].start, precision))
  }

  /** The distance of some laps, added up in order: never negative when no
      lap is. */
  function Distance(laps: seq<Lap>): (d: real)
    ensures (forall k | 0 <= k < |laps| :: laps[k].dist >= 0.0) ==> d >= 0.0
  {
    if |laps| == 0 then 0.0 else Distance(laps[..|laps| - 1]) + laps[|laps| - 1].dist
  }

  /** A measure of laps, lap by lap: their distance, or their number. */
  function Weight(laps: seq<Lap>, byDist: bool): (w: real)
    ensures byDist ==> w == Distance(laps)
  {
    if |laps| == 0 then 0.0
    else Weight(laps[..|laps| - 1], byDist) + (if byDist then laps[|laps| - 1].dist else 1.0)
  }

  /** Counted lap by lap, the weight is the number of laps. */
  lemma {:induction false} WeightCounts(laps: seq<Lap>)
    ensures Weight(laps, false) == |laps| as real
  {
    if |laps| > 0 {
      WeightCounts(laps[..|laps| - 1]);
    }
  }

  /** The weight of laps joined end to end is the sum of their weights. */
  lemma {:induction false} WeightAppend(a: seq<Lap>, b: seq<Lap>, byDist: bool)
    ensures Weight(a + b, byDist) == Weight(a, byDist) + Weight(b, byDist)
    decreases |b|
  {
    if |b| > 0 {
      var n := |b| - 1;
      assert (a + b)[..|a + b| - 1] == a + b[..n];
      assert (a + b)[|a + b| - 1] == b[n];
      WeightAppend(a, b[..n], byDist);
    } else {
      assert a + b == a;
    }
  }

  /** The laps of the activities, joined in order. */
  function Concat(acts: seq<Activity>): (laps: seq<Lap>)
    ensures |acts| == 0 ==> laps == []
  {
    if |acts| == 0 then [] else Concat(acts[..|acts| - 1]) + acts[|acts| - 1].laps
  }

  /** The weight of the joined laps is the sum of the activities' weights. */
  lemma {:induction false} ConcatWeight(acts: seq<Activity>, byDist: bool)
    ensures Weight(Concat(acts), byDist) == Total(seq(|acts|, b requires 0 <= b < |acts| => Weight(acts[b].laps, byDist)))
  {
    if |acts| > 0 {
      var n := |acts| - 1;
      ConcatWeight(acts[..n], byDist);
      WeightAppend(Concat(acts[..n]), acts[n].laps, byDist);
      var all := seq(|acts|, b requires 0 <= b < |acts| => Weight(acts[b].laps, byDist));
      assert all[..n] == seq(n, b requires 0 <= b < n => Weight(acts[..n][b].laps, byDist));
    }
  }

  /** The activity a bucket rolls up into: its first activity, with the laps
      of the later activities appended in order. */
  function Merge(bucket: seq<Activity>): (a: Activity)
    requires |bucket| > 0
    ensures a.start == bucket[0].start
    ensures |a.laps| >= |bucket[0].laps| && a.laps[..|bucket[0].laps|] == bucket[0].laps
  {
    bucket[0].(laps := bucket[0].laps + Concat(bucket[1..]))
  }

  /** A merged bucket weighs what its activities weigh together. */
  lemma MergeWeight(bucket: seq<Activity>, byDist: bool)
    requires |bucket| > 0
    ensures Weight(Merge(bucket).laps, byDist) ==
            Total(seq(|bucket|, t requires 0 <= t < |bucket| => Weight(bucket[t].laps, byDist)))
  {
    var rest := bucket[1..];
    WeightAppend(bucket[0].laps, Concat(rest), byDist);
    ConcatWeight(rest, byDist);
    var all := seq(|bucket|, t requires 0 <= t < |bucket| => Weight(bucket[t].laps, byDist));
    assert all == [Weight(bucket[0].laps, byDist)] + seq(|rest|, t requires 0 <= t < |rest| => Weight(rest[t].laps, byDist));
    TotalCons(Weight(bucket[0].laps, byDist), seq(|rest|, t requires 0 <= t < |rest| => Weight(rest[t].laps, byDist)));
  }

  /** The merged bucket of each key of `d`. */
  function Merges(acts: seq<Activity>, keys: seq<int>, d: seq<int>): (out: seq<Activity>)
    requires |keys| == |acts| && forall m | 0 <= m < |d| :: d[m] in keys
    ensures |out| == |d|
  {
    seq(|d|, m requires 0 <= m < |d| =>
      PositionsFirst(keys, d[m]);
      Merge(Pick(acts, Positions(keys, d[m]))))
  }

  /** One more key: its merged bucket at the end. */
  lemma MergesSnoc(acts: seq<Activity>, keys: seq<int>, d: seq<int>, k: int)
    requires |keys| == |acts| && k in keys && forall m | 0 <= m < |d| :: d[m] in keys
    ensures |Positions(keys, k)| > 0
    ensures Merges(acts, keys, d + [k]) == Merges(acts, keys, d) + [Merge(Pick(acts, Positions(keys, k)))]
  {
    PositionsFirst(keys, k);
  }

  /** What `RollUpActivities` returns, before its final sort: the
      activities themselves for "none"; otherwise one merged activity per
      distinct key, in order of first appearance. */
  function RolledUp(acts: seq<Activity>, precision: string): (out: seq<Activity>)
  {
    if precision == "none" then acts else Merges(acts, Keys(acts, precision), Distinct(Keys(acts, precision)))
  }

  /** One activity per key: the rolled-up activities have pairwise different
      keys. */
  lemma RolledUpDistinct(acts: seq<Activity>, precision: string)
    requires precision != "none"
    ensures |RolledUp(acts, precision)| == |Distinct(Keys(acts, precision))|
    ensures forall n | 0 <= n < |RolledUp(acts, precision)| ::
              TimeKey(RolledUp(acts, precision)[n].start, precision) == Distinct(Keys(acts, precision))[n]
    ensures forall n, m | 0 <= n < m < |RolledUp(acts, precision)| ::
              TimeKey(RolledUp(acts, precision)[n].start, precision) != TimeKey(RolledUp(acts, precision)[m].start, precision)
  {
    var d := Distinct(Keys(acts, precision));
    forall n | 0 <= n < |d| ensures TimeKey(RolledUp(acts, precision)[n].start, precision) == d[n] {
      Starts(acts, precision, n);
    }
  }

  /** Every key among the activities has its rolled-up activity. */
  lemma RolledUpCovers(acts: seq<Activity>, precision: string, b: nat)
    requires precision != "none" && b < |acts|
    ensures exists n | 0 <= n < |RolledUp(acts, precision)| ::
              TimeKey(RolledUp(acts, precision)[n].start, precision) == TimeKey(acts[b].start, precision)
  {
    var keys := Keys(acts, precision);
    var d := Distinct(keys);
    RolledUpDistinct(acts, precision);
    assert keys[b] in d;
    var n :| 0 <= n < |d| && d[n] == keys[b];
  }

  /** Each rolled-up activity starts when the first activity of its bucket
      does: an activity no earlier activity shares a key with. */
  lemma RolledUpStarts(acts: seq<Activity>, precision: string, n: nat)
    requires precision != "none" && n < |RolledUp(acts, precision)|
    ensures exists b | 0 <= b < |acts| :: (RolledUp(acts, precision)[n].start == acts[b].start &&
              forall c | 0 <= c < b :: TimeKey(acts[c].start, precision) != TimeKey(acts[b].start, precision))
  {
    var keys := Keys(acts, precision);
    var b := FirstIndex(keys, Distinct(keys)[n]);
    Starts(acts, precision, n);
    forall c | 0 <= c < b ensures TimeKey(acts[c].start, precision) != TimeKey(acts[b].start, precision) {
      assert keys[c] == keys[..b][c];
    }
  }

  /** The rolled-up activity `n` starts when the first activity of its
      bucket does, and has that bucket's key. */
  lemma Starts(acts: seq<Activity>, precision: string, n: nat)
    requires precision != "none" && n < |Distinct(Keys(acts, precision))|
    ensures RolledUp(acts, precision)[n].start ==
            acts[FirstIndex(Keys(acts, precision), Distinct(Keys(acts, precision))[n])].start
  {
    PositionsFirst(Keys(acts, precision), Distinct(Keys(acts, precision))[n]);
  }

  /** Rolling up keeps the laps: the rolled-up activities weigh, lap by lap,
      what the activities weigh together. */
  lemma {:induction false} RolledUpWeight(acts: seq<Activity>, precision: string, byDist: bool)
    ensures Weight(Concat(RolledUp(acts, precision)), byDist) == Weight(Concat(acts), byDist)
  {
    if precision != "none" {
      var keys := Keys(acts, precision);
      var d := Distinct(keys);
      var out := RolledUp(acts, precision);
      var w := seq(|acts|, b requires 0 <= b < |acts| => Weight(acts[b].laps, byDist));
      forall n | 0 <= n < |d| ensures Weight(out[n].laps, byDist) == Where(keys, w, d[n]) {
        BucketWeight(acts, keys, d[n], byDist);
      }
      ConcatWeight(out, byDist);
      ConcatWeight(acts, byDist);
      assert seq(|out|, n requires 0 <= n < |out| => Weight(out[n].laps, byDist)) ==
             seq(|d|, n requires 0 <= n < |d| => Where(keys, w, d[n]));
      OverTotal(d, keys, w);
      PartitionSum(keys, w);
    }
  }

  /** The merged bucket of `k` weighs the bucket sum of `k`. */
  lemma BucketWeight(acts: seq<Activity>, keys: seq<int>, k: int, byDist: bool)
    requires |keys| == |acts| && k in keys
    ensures |Positions(keys, k)| > 0
    ensures Weight(Merge(Pick(acts, Positions(keys, k))).laps, byDist) ==
            Where(keys, seq(|acts|, b requires 0 <= b < |acts| => Weight(acts[b].laps, byDist)), k)
  {
    PositionsFirst(keys, k);
    var p := Positions(keys, k);
    var bucket := Pick(acts, p);
    var w := seq(|acts|, b requires 0 <= b < |acts| => Weight(acts[b].laps, byDist));
    MergeWeight(bucket, byDist);
    WherePositions(keys, w, k);
    assert Pick(w, p) == seq(|bucket|, t requires 0 <= t < |bucket| => Weight(bucket[t].laps, byDist));
  }

  /** Rolling up keeps the number of laps and the distance covered. */
  lemma LapsKept(acts: seq<Activity>, precision: string)
    ensures |Concat(RolledUp(acts, precision))| == |Concat(acts)|
    ensures Distance(Concat(RolledUp(acts, precision))) == Distance(Concat(acts))
  {
    RolledUpWeight(acts, precision, false);
    RolledUpWeight(acts, precision, true);
    WeightCounts(Concat(RolledUp(acts, precision)));
    WeightCounts(Concat(acts));
  }

  /** The inner loops of `RollUpActivities`: the laps of each later activity
      of the bucket, one by one, appended to a copy of its first activity. */
  method MergeBucket(bucket: seq<Activity>) returns (first: Activity)
    requires |bucket| > 0
    ensures first == Merge(bucket)
  {
    first := bucket[0];
    if |bucket| > 1 {
      var rest := bucket[1..];
      for t := 0 to |rest|
        invariant first == bucket[0].(laps := bucket[0].laps + Concat(rest[..t]))
      {
        for l := 0 to |rest[t].laps|
          invariant first == bucket[0].(laps := bucket[0].laps + Concat(rest[..t]) + rest[t].laps[..l])
        {
          assert rest[t].laps[..l + 1] == rest[t].laps[..l] + [rest[t].laps[l]];
          first := first.(laps := first.laps + [rest[t].laps[l]]);
        }
        assert rest[t].laps[..|rest[t].laps|] == rest[t].laps;
        TakeSnoc(rest, t);
      }
      assert rest[..|rest|] == rest;
    }
  }

  /** The first loop of `RollUpActivities`: each activity appended to the
      bucket of its key, a new bucket made for a key not seen before. */
  method Bucket(acts: seq<Activity>, precision: string) returns (buckets: map<int, seq<Activity>>, order: seq<int>)
    ensures order == Distinct(Keys(acts, precision))
    ensures forall k | k in order :: k in buckets && buckets[k] == Pick(acts, Positions(Keys(acts, precision), k))
  {
    ghost var keys := Keys(acts, precision);
    buckets, order := map[], [];
    for b := 0 to |acts|
      invariant Bucketed(acts, keys, b, buckets, order)
    {
      var key := TimeKey(acts[b].start, precision);
      ghost var before, known := buckets, order;
      if key !in buckets {
        buckets := buckets[key := []];
        order := order + [key];
      }
      buckets := buckets[key := buckets[key] + [acts[b]]];
      BucketedStep(acts, keys, b, before, known, buckets, order);
    }
    assert keys[..|acts|] == keys;
  }

  /** `RollUpActivities`, up to its final `sort.Sort`: for "none" the
      activities as they are; otherwise the activities put in buckets by
      key and each bucket, in order of first appearance (Go leaves the
      order of a map to chance), merged into one activity. */
  method RollUpActivities(acts: seq<Activity>, precision: string) returns (out: seq<Activity>)
    ensures out == RolledUp(acts, precision)
  {
    if precision == "none" {
      return acts;
    }
    ghost var keys := Keys(acts, precision);
    var buckets, order := Bucket(acts, precision);
    out := [];
    for n := 0 to |order|
      invariant out == Merges(acts, keys, order[..n])
    {
      TakeSnoc(order, n);
      MergesSnoc(acts, keys, order[..n], order[n]);
      var first := MergeBucket(buckets[order[n]]);
      out := out + [first];
    }
    assert order[..|order|] == order;
  }

  /** `ActivityByDist`: one point per activity, in order, X its start in
      Unix seconds and Y its laps' distances added up. */
  method ActivityByDist(acts: seq<Activity>) returns (dps: array<Models.Datapoint>)
    ensures fresh(dps) && dps.Length == |acts|
    ensures forall i | 0 <= i < |acts| :: dps[i] == Models.Datapoint(acts[i].start.unix as real, Distance(acts[i].laps))
  {
    dps := new Models.Datapoint[|acts|](_ => Models.Datapoint(0.0, 0.0));
    for i := 0 to |acts|
      invariant forall j | 0 <= j < i :: dps[j] == Models.Datapoint(acts[j].start.unix as real, Distance(acts[j].laps))
    {
      dps[i] := Models.Datapoint(acts[i].start.unix as real, 0.0);
      var laps := acts[i].laps;
      for l := 0 to |laps|
        invariant forall j | 0 <= j < i :: dps[j] == Models.Datapoint(acts[j].start.unix as real, Distance(acts[j].laps))
        invariant dps[i] == Models.Datapoint(acts[i].start.unix as real, Distance(laps[..l]))
      {
        assert laps[..l + 1][..l] == laps[..l];
        dps[i] := dps[i].(y := dps[i].y + laps[l].dist);
      }
      assert laps[..|laps|] == laps;
    }
  }

  /** `Datapoints.Less` of package `main`: the smaller X first. */
  predicate Less(dps: seq<Models.Datapoint>, i: nat, j: nat)
    requires i < |dps| && j < |dps|
  {
    dps[i].x < dps[j].x
  }

  /** `Less` is the strict weak order `sort.Sort` needs. */
  lemma LessOrders(dps: seq<Models.Datapoint>, i: nat, j: nat, k: nat)
    requires i < |dps| && j < |dps| && k < |dps|
    ensures !Less(dps, i, i)
    ensures Less(dps, i, j) && Less(dps, j, k) ==> Less(dps, i, k)
    ensures !Less(dps, i, j) && !Less(dps, j, i) && !Less(dps, j, k) && !Less(dps, k, j) ==>
              !Less(dps, i, k) && !Less(dps, k, i)
  {
  }

  /** `Datapoints.Swap` of package `main`: the two positions exchange their
      points; nothing else moves. */
  method Swap(dps: array<Models.Datapoint>, i: nat, j: nat)
    requires i < dps.Length && j < dps.Length
    modifies dps
    ensures dps[..] == old(dps[..])[i := old(dps[j])][j := old(dps[i])]
    ensures multiset(dps[..]) == multiset(old(dps[..]))
  {
    dps[i], dps[j] := dps[j], dps[i];
  }
}
