/** Package `models`, file models/models.go: rows of values stamped with a
    time, rolled up into one row per calendar bucket by adding their values
    into the bucket's first row in place, and the XY points a chart reads. */
module Models {
  import opened Reduce
  import opened Buckets

  /** `Precision`, Go's `iota` constants. Any other integer is a precision
      as well; the key switch has no case for it. */
  const Days: int := 0
  const Months: int := 1
  const Years: int := 2
  const None: int := 3

  /** What the engine reads of a `time.Time`: `Year()`, `Month()` (1 to 12),
      `Day()` and `Unix()`. */
  datatype Time = Time(year: int, month: int, day: int, unix: int)

  /** A time whose month and day are in the calendar's range. */
  predicate Calendar(t: Time)
  {
    1 <= t.month <= 12 && 1 <= t.day <= 31
  }

  /** The bucket key of a time, as `Rows.RollUp` computes it: the year by
      year; by month the months counted from year 0, from which year and
      month can be read back; `year*12 + month*31 + day` by day (which does
      not separate days, see `DayKeyCollides`); 0 at any other precision. */
  function Key(t: Time, precision: int): (k: int)
    ensures precision == Years ==> k == t.year
    ensures precision == Months && 1 <= t.month <= 12 ==> (k - 1) / 12 == t.year && (k - 1) % 12 + 1 == t.month
    ensures precision != Years && precision != Months && precision != Days ==> k == 0
  {
    if precision == Years then t.year
    else if precision == Months then t.year * 12 + t.month
    else if precision == Days then t.year * 12 + t.month * 31 + t.day
    else 0
  }

  /** By month, two times share a key exactly when they share year and
      month. */
  lemma MonthKeySeparates(a: Time, b: Time)
    requires 1 <= a.month <= 12 && 1 <= b.month <= 12
    ensures Key(a, Months) == Key(b, Months) <==> a.year == b.year && a.month == b.month
  {
  }

  /** By day, the key does not separate days: 13 January 2000 and 1 January
      2001 both have key 24044, so their rows are rolled up together. */
  lemma DayKeyCollides()
    ensures Key(Time(2000, 1, 13, 947721600), Days) == Key(Time(2001, 1, 1, 978307200), Days) == 24044
    ensures |Distinct([Key(Time(2000, 1, 13, 947721600), Days), Key(Time(2001, 1, 1, 978307200), Days)])| == 1
  {
    assert Distinct([24044, 24044][..1]) == [24044] by {
      assert [24044, 24044][..1][..0] == [];
    }
  }

  /** The day key as intended: days counted from year 0, 31 to a month,
      from which year, month and day can be read back. */
  function DayKey(t: Time): (k: int)
    ensures Calendar(t) ==> k / 31 == t.year * 12 + t.month - 1 && k % 31 + 1 == t.day
  {
    (t.year * 12 + t.month - 1) * 31 + t.day - 1
  }

  /** The intended day key separates days: two dates share it exactly when
      they share year, month and day. */
  lemma DayKeySeparates(a: Time, b: Time)
    requires Calendar(a) && Calendar(b)
    ensures DayKey(a) == DayKey(b) <==> a.year == b.year && a.month == b.month && a.day == b.day
  {
    var ma, mb := a.year * 12 + a.month - 1, b.year * 12 + b.month - 1;
    if DayKey(a) == DayKey(b) {
      assert (ma - mb) * 31 == b.day - a.day;
      assert ma == mb;
    }
  }

  /** What the keys of `Rows.RollUp` separate: rows of one year, and rows
      of one month, exactly; by day, rows of one date share a key, but rows
      of different dates may share one too (`DayKeyCollides`); any other
      precision puts every row in one bucket. */
  lemma KeySeparates(a: Time, b: Time, precision: int)
    requires Calendar(a) && Calendar(b)
    ensures precision == Years ==> (Key(a, precision) == Key(b, precision) <==> a.year == b.year)
    ensures precision == Months ==>
              (Key(a, precision) == Key(b, precision) <==> a.year == b.year && a.month == b.month)
    ensures precision == Days && a.year == b.year && a.month == b.month && a.day == b.day ==>
              Key(a, precision) == Key(b, precision)
    ensures precision != Years && precision != Months && precision != Days ==> Key(a, precision) == Key(b, precision) == 0
  {
    if precision == Months {
      MonthKeySeparates(a, b);
    }
  }

  /** The key as intended: `Key` with the day key replaced by `DayKey`. */
  function FixedKey(t: Time, precision: int): (k: int)
    ensures precision != Days ==> k == Key(t, precision)
    ensures precision == Days && Calendar(t) ==> k / 31 == t.year * 12 + t.month - 1 && k % 31 + 1 == t.day
  {
    if precision == Days then DayKey(t) else Key(t, precision)
  }

  /** The intended keys group exactly the rows of one calendar year, month
      or day; any other precision puts every row in one bucket. */
  lemma FixedKeySeparates(a: Time, b: Time, precision: int)
    requires Calendar(a) && Calendar(b)
    ensures precision == Years ==> (FixedKey(a, precision) == FixedKey(b, precision) <==> a.year == b.year)
    ensures precision == Months ==>
              (FixedKey(a, precision) == FixedKey(b, precision) <==> a.year == b.year && a.month == b.month)
    ensures precision == Days ==>
              (FixedKey(a, precision) == FixedKey(b, precision) <==> a.year == b.year && a.month == b.month && a.day == b.day)
    ensures precision != Years && precision != Months && precision != Days ==>
              FixedKey(a, precision) == FixedKey(b, precision) == 0
  {
    if precision == Months {
      MonthKeySeparates(a, b);
    } else if precision == Days {
      DayKeySeparates(a, b);
    }
  }

  /** A `Row`: its time and its `Values` slice, which the rollup adds into
      in place. */
  datatype Row = Row(time: Time, values: array<real>)

  /** The key of each row. */
  function Keys(rows: seq<Row>, precision: int): (ks: seq<int>)
    ensures |ks| == |rows|
    ensures forall b | 0 <= b < |rows| :: ks[b] == Key(rows[b].time, precision)
  {
    seq(|rows|, b requires 0 <= b < |rows| => Key(rows[b].time, precision))
  }

  /** The intended key of each row. */
  function FixedKeys(rows: seq<Row>, precision: int): (ks: seq<int>)
    ensures |ks| == |rows|
    ensures forall b | 0 <= b < |rows| :: ks[b] == FixedKey(rows[b].time, precision)
  {
    seq(|rows|, b requires 0 <= b < |rows| => FixedKey(rows[b].time, precision))
  }

  /** With the intended keys, by day, two rows are rolled up into the same
      output row (the row of the first index with their key) exactly when
      they fall on the same date. */
  lemma FixedRollUpDays(rows: seq<Row>, b: nat, c: nat)
    requires b < |rows| && c < |rows| && Calendar(rows[b].time) && Calendar(rows[c].time)
    ensures var keys := FixedKeys(rows, Days);
            FirstIndex(keys, keys[b]) == FirstIndex(keys, keys[c]) <==>
              rows[b].time.year == rows[c].time.year && rows[b].time.month == rows[c].time.month
              && rows[b].time.day == rows[c].time.day
  {
    var keys := FixedKeys(rows, Days);
    FixedKeySeparates(rows[b].time, rows[c].time, Days);
    assert keys[FirstIndex(keys, keys[b])] == keys[b];
    assert keys[FirstIndex(keys, keys[c])] == keys[c];
  }

  /** The values of the rows, as they are now. */
  function Snapshot(rows: seq<Row>): (vals: seq<seq<real>>)
    reads set b | 0 <= b < |rows| :: rows[b].values
    ensures |vals| == |rows|
    ensures forall b | 0 <= b < |rows| :: vals[b] == rows[b].values[..]
  {
    seq(|rows|, b requires 0 <= b < |rows| reads set c | 0 <= c < |rows| :: rows[c].values => rows[b].values[..])
  }

  /** Entry `i` of every row, 0 for a row too short to have one. */
  function Padded(vals: seq<seq<real>>, i: nat): (c: seq<real>)
    ensures |c| == |vals|
  {
    seq(|vals|, b requires 0 <= b < |vals| => if i < |vals[b]| then vals[b][i] else 0.0)
  }

  /** The rolled-up values of the bucket of `k`: as wide as its first row,
      entry `i` the sum of entry `i` over the bucket's rows. */
  function BucketRow(vals: seq<seq<real>>, keys: seq<int>, k: int): (r: seq<real>)
    requires |vals| == |keys| && k in keys
    ensures |r| == |vals[FirstIndex(keys, k)]|
  {
    var w := |vals[FirstIndex(keys, k)]|;
    seq(w, i requires 0 <= i < w => Where(keys, Padded(vals, i), k))
  }

  /** The rolled-up values: one row per distinct key, in order of first
      appearance. */
  function RolledUp(vals: seq<seq<real>>, keys: seq<int>): (r: seq<seq<real>>)
    requires |vals| == |keys|
    ensures |r| == |Distinct(keys)|
  {
    var d := Distinct(keys);
    seq(|d|, n requires 0 <= n < |d| => BucketRow(vals, keys, d[n]))
  }

  /** Rolling up keeps every column total: where every row has an entry `i`,
      the rolled-up entries `i` add up to the same sum as before. */
  lemma RolledUpTotals(vals: seq<seq<real>>, keys: seq<int>, i: nat)
    requires |vals| == |keys|
    requires forall b | 0 <= b < |vals| :: i < |vals[b]|
    ensures Total(Padded(RolledUp(vals, keys), i)) == Total(Padded(vals, i))
  {
    var d := Distinct(keys);
    var w := Padded(vals, i);
    var r := RolledUp(vals, keys);
    forall n | 0 <= n < |d| ensures Padded(r, i)[n] == Where(keys, w, d[n]) {
      assert i < |vals[FirstIndex(keys, d[n])]|;
    }
    assert Padded(r, i) == seq(|d|, n requires 0 <= n < |d| => Where(keys, w, d[n]));
    OverTotal(d, keys, w);
    PartitionSum(keys, w);
  }

  /** No two rows share a `Values` array. */
  predicate Separate(rows: seq<Row>)
  {
    forall a, b | 0 <= a < b < |rows| :: rows[a].values != rows[b].values
  }

  /** No row is longer than the first row of its bucket; a longer one makes
      the addition index past the end of the first row's values, a panic. */
  predicate Fits(rows: seq<Row>, keys: seq<int>)
    requires |keys| == |rows|
  {
    forall b | 0 <= b < |rows| :: rows[b].values.Length <= rows[FirstIndex(keys, keys[b])].values.Length
  }

  /** `for i, value := range row.Values { first.Values[i] += value }`. */
  method AddInto(dst: array<real>, src: array<real>)
    requires dst != src && src.Length <= dst.Length
    modifies dst
    ensures forall i | 0 <= i < dst.Length :: dst[i] == old(dst[i]) + (if i < src.Length then src[i] else 0.0)
  {
    for i := 0 to src.Length
      invariant forall j | 0 <= j < dst.Length :: dst[j] == old(dst[j]) + (if j < i then src[j] else 0.0)
    {
      dst[i] := dst[i] + src[i];
    }
  }

  lemma PaddedSnoc(vals: seq<seq<real>>, x: seq<real>, i: nat)
    ensures Padded(vals + [x], i) == Padded(vals, i) + [if i < |x| then x[i] else 0.0]
  {
  }

  /** One more row adds its entry `i` (or 0) to the total of entries `i`. */
  lemma PaddedTotalSnoc(vals: seq<seq<real>>, x: seq<real>, i: nat)
    ensures Total(Padded(vals + [x], i)) == Total(Padded(vals, i)) + (if i < |x| then x[i] else 0.0)
  {
    PaddedSnoc(vals, x, i);
    var c := Padded(vals + [x], i);
    assert c[..|c| - 1] == Padded(vals, i);
  }

  /** Entry by entry, `x` plus the same entry of every row of `rest` (0 for
      a row too short to have it). */
  function Added(x: seq<real>, rest: seq<seq<real>>): (r: seq<real>)
    ensures |r| == |x|
  {
    seq(|x|, i requires 0 <= i < |x| => x[i] + Total(Padded(rest, i)))
  }

  /** The later rows of a bucket have values arrays of their own, none
      longer than the first row's. */
  predicate Apart(first: Row, rest: seq<Row>)
  {
    forall t | 0 <= t < |rest| :: rest[t].values != first.values && rest[t].values.Length <= first.values.Length
  }

  /** The additions into a bucket's first row: each later row of the bucket
      in turn, entry by entry. */
  method MergeBucket(first: Row, rest: seq<Row>)
    requires Apart(first, rest)
    modifies first.values
    ensures first.values[..] == Added(old(first.values[..]), Snapshot(rest))
  {
    for t := 0 to |rest|
      invariant forall i | 0 <= i < first.values.Length ::
                  first.values[i] == old(first.values[i]) + Total(Padded(Snapshot(rest[..t]), i))
    {
      ghost var before := Snapshot(rest[..t]);
      AddInto(first.values, rest[t].values);
      assert Snapshot(rest[..t + 1]) == before + [rest[t].values[..]];
      forall i | 0 <= i < first.values.Length ensures
        Total(Padded(Snapshot(rest[..t + 1]), i)) == Total(Padded(before, i)) + (if i < rest[t].values.Length then rest[t].values[i] else 0.0)
      {
        PaddedTotalSnoc(before, rest[t].values[..], i);
      }
    }
    assert rest[..|rest|] == rest;
  }

  /** Nothing is added from no rows. */
  lemma AddedNothing(x: seq<real>)
    ensures Added(x, []) == x
  {
  }

  /** The values `cur` of the rows once the buckets of the keys `done` are
      merged: the first row of each such bucket holds the bucket's rolled-up
      values, every other row its values `vals` from before. */
  predicate Merged(cur: seq<seq<real>>, keys: seq<int>, vals: seq<seq<real>>, done: seq<int>)
    requires |cur| == |keys| == |vals|
  {
    forall b | 0 <= b < |cur| ::
      if keys[b] in done && FirstIndex(keys, keys[b]) == b then cur[b] == BucketRow(vals, keys, keys[b])
      else cur[b] == vals[b]
  }

  /** Merging the bucket of one more key changes its first row only. */
  lemma MergedStep(cur: seq<seq<real>>, keys: seq<int>, vals: seq<seq<real>>, done: seq<int>, k: int)
    requires |cur| == |keys| == |vals| && Merged(cur, keys, vals, done) && k in keys && k !in done
    ensures Merged(cur[FirstIndex(keys, k) := BucketRow(vals, keys, k)], keys, vals, done + [k])
  {
  }

  /** Before its bucket is merged, the rows of a bucket hold their values
      from before; the later rows of a bucket always do. */
  lemma Unmerged(cur: seq<seq<real>>, keys: seq<int>, vals: seq<seq<real>>, done: seq<int>, k: int)
    requires |cur| == |keys| == |vals| && Merged(cur, keys, vals, done) && k in keys
    ensures |Positions(keys, k)| > 0 && Positions(keys, k)[0] == FirstIndex(keys, k)
    ensures k !in done ==> cur[FirstIndex(keys, k)] == vals[FirstIndex(keys, k)]
    ensures forall t | 0 < t < |Positions(keys, k)| :: cur[Positions(keys, k)[t]] == vals[Positions(keys, k)[t]]
  {
    PositionsFirst(keys, k);
    var p := Positions(keys, k);
    forall t | 0 < t < |p| ensures cur[p[t]] == vals[p[t]] {
      assert FirstIndex(keys, keys[p[t]]) == p[0] != p[t];
    }
  }

  /** Once every bucket is merged: the first row of the bucket of each
      distinct key holds the rolled-up row, the other rows are as before. */
  lemma MergedAll(cur: seq<seq<real>>, keys: seq<int>, vals: seq<seq<real>>)
    requires |cur| == |keys| == |vals| && Merged(cur, keys, vals, Distinct(keys))
    ensures forall n | 0 <= n < |Distinct(keys)| :: cur[FirstIndex(keys, Distinct(keys)[n])] == RolledUp(vals, keys)[n]
    ensures forall b | 0 <= b < |cur| :: FirstIndex(keys, keys[b]) != b ==> cur[b] == vals[b]
  {
    var d := Distinct(keys);
    forall n | 0 <= n < |d| ensures cur[FirstIndex(keys, d[n])] == RolledUp(vals, keys)[n] {
      var f := FirstIndex(keys, d[n]);
      assert keys[f] == d[n];
    }
  }

  /** The values of the later rows of the bucket at positions `p`. */
  function Rest(vals: seq<seq<real>>, p: seq<nat>): (rest: seq<seq<real>>)
    requires |p| > 0 && forall t | 0 <= t < |p| :: p[t] < |vals|
    ensures |rest| == |p| - 1
  {
    seq(|p| - 1, t requires 0 <= t < |p| - 1 => vals[p[t + 1]])
  }

  /** The first row of a bucket with the later rows' values added in is the
      bucket's rolled-up row. */
  lemma BucketMerge(vals: seq<seq<real>>, keys: seq<int>, k: int)
    requires |vals| == |keys| && k in keys
    ensures |Positions(keys, k)| > 0
    ensures Added(vals[FirstIndex(keys, k)], Rest(vals, Positions(keys, k))) == BucketRow(vals, keys, k)
  {
    PositionsFirst(keys, k);
    var p := Positions(keys, k);
    var first, rest := vals[p[0]], Rest(vals, p);
    forall i | 0 <= i < |first| ensures first[i] + Total(Padded(rest, i)) == BucketRow(vals, keys, k)[i] {
      BucketEntry(vals, keys, k, i);
    }
  }

  /** Entry `i` of `BucketMerge`. */
  lemma BucketEntry(vals: seq<seq<real>>, keys: seq<int>, k: int, i: nat)
    requires |vals| == |keys| && k in keys && i < |vals[FirstIndex(keys, k)]|
    ensures |Positions(keys, k)| > 0
    ensures vals[FirstIndex(keys, k)][i] + Total(Padded(Rest(vals, Positions(keys, k)), i)) == Where(keys, Padded(vals, i), k)
  {
    PositionsFirst(keys, k);
    var p := Positions(keys, k);
    var first, rest := vals[p[0]], Rest(vals, p);
    var w := Padded(vals, i);
    WherePositions(keys, w, k);
    assert Pick(w, p) == [first[i]] + Padded(rest, i);
    TotalCons(first[i], Padded(rest, i));
  }

  /** The rows of a bucket under `Separate` and `Fits` may be added into the
      bucket's first row. */
  lemma BucketApart(rows: seq<Row>, keys: seq<int>, k: int)
    requires |keys| == |rows| && Separate(rows) && Fits(rows, keys) && k in keys
    ensures |Positions(keys, k)| > 0
    ensures Apart(Pick(rows, Positions(keys, k))[0], Pick(rows, Positions(keys, k))[1..])
  {
    PositionsFirst(keys, k);
    var p := Positions(keys, k);
    var bucket := Pick(rows, p);
    forall t | 0 <= t < |bucket| - 1
      ensures bucket[1..][t].values != bucket[0].values && bucket[1..][t].values.Length <= bucket[0].values.Length
    {
      assert p[0] < p[t + 1];
      assert keys[p[t + 1]] == k;
    }
  }

  /** Merging the bucket of one more key into its first row, from the
      values `cur` so far: the values `Merged` describes for one key more. */
  lemma RollStep(cur: seq<seq<real>>, keys: seq<int>, vals: seq<seq<real>>, done: seq<int>, k: int)
    requires |cur| == |keys| == |vals| && Merged(cur, keys, vals, done) && k in keys && k !in done
    ensures |Positions(keys, k)| > 0
    ensures Merged(cur[FirstIndex(keys, k) := Added(cur[FirstIndex(keys, k)], Rest(cur, Positions(keys, k)))],
                   keys, vals, done + [k])
  {
    Unmerged(cur, keys, vals, done, k);
    var p := Positions(keys, k);
    assert Rest(cur, p) == Rest(vals, p);
    BucketMerge(vals, keys, k);
    MergedStep(cur, keys, vals, done, k);
  }

  /** The values of the later rows of a bucket. */
  lemma RestValues(rows: seq<Row>, p: seq<nat>)
    requires |p| > 1 && forall t | 0 <= t < |p| :: p[t] < |rows|
    ensures Snapshot(Pick(rows, p)[1..]) == Rest(Snapshot(rows), p)
  {
  }

  /** The first loop of `Rows.RollUp`: each row appended to the bucket of
      its key, a new bucket made for a key not seen before. */
  method Bucket(rows: seq<Row>, precision: int) returns (buckets: map<int, seq<Row>>, order: seq<int>)
    ensures order == Distinct(Keys(rows, precision))
    ensures forall k | k in order :: k in buckets && buckets[k] == Pick(rows, Positions(Keys(rows, precision), k))
  {
    ghost var keys := Keys(rows, precision);
    buckets, order := map[], [];
    for b := 0 to |rows|
      invariant Bucketed(rows, keys, b, buckets, order)
    {
      var key := Key(rows[b].time, precision);
      ghost var before, known := buckets, order;
      if key !in buckets {
        buckets := buckets[key := []];
        order := order + [key];
      }
      buckets := buckets[key := buckets[key] + [rows[b]]];
      BucketedStep(rows, keys, b, before, known, buckets, order);
    }
    assert keys[..|rows|] == keys;
  }

  /** One bucket of the second loop of `Rows.RollUp`: its later rows'
      values are added into its first row's values; no other row changes,
      so the rows hold the values `Merged` describes for one key more. */
  method Roll(rows: seq<Row>, ghost keys: seq<int>, ghost vals: seq<seq<real>>, ghost done: seq<int>, ghost k: int,
              bucket: seq<Row>) returns (first: Row)
    requires |keys| == |rows| == |vals| && Separate(rows) && Fits(rows, keys) && k in keys && k !in done
    requires bucket == Pick(rows, Positions(keys, k))
    requires Merged(Snapshot(rows), keys, vals, done)
    modifies set b | 0 <= b < |rows| :: rows[b].values
    ensures first == rows[FirstIndex(keys, k)]
    ensures Merged(Snapshot(rows), keys, vals, done + [k])
  {
    PositionsFirst(keys, k);
    BucketApart(rows, keys, k);
    ghost var cur := Snapshot(rows);
    RollStep(cur, keys, vals, done, k);
    first := MergeFirst(rows, Positions(keys, k), bucket);
  }

  /** The additions of `Roll`, on the rows at positions `p`: the later
      rows' values added into the first row's values, and only there. */
  method MergeFirst(rows: seq<Row>, ghost p: seq<nat>, bucket: seq<Row>) returns (first: Row)
    requires |p| > 0 && (forall t | 0 <= t < |p| :: p[t] < |rows|) && bucket == Pick(rows, p)
    requires Separate(rows) && Apart(bucket[0], bucket[1..])
    modifies set b | 0 <= b < |rows| :: rows[b].values
    ensures first == rows[p[0]]
    ensures Snapshot(rows) == old(Snapshot(rows))[p[0] := Added(old(Snapshot(rows))[p[0]], Rest(old(Snapshot(rows)), p))]
  {
    ghost var cur := Snapshot(rows);
    first := bucket[0];
    if |bucket| > 1 {
      RestValues(rows, p);
      MergeBucket(first, bucket[1..]);
    } else {
      AddedNothing(cur[p[0]]);
    }
    assert first.values[..] == Added(cur[p[0]], Rest(cur, p));
    assert Snapshot(rows) == cur[p[0] := first.values[..]];
  }

  /** The first row of the bucket of each key of `d`. */
  function Firsts(rows: seq<Row>, keys: seq<int>, d: seq<int>): (firsts: seq<Row>)
    requires |keys| == |rows| && forall m | 0 <= m < |d| :: d[m] in keys
    ensures |firsts| == |d|
  {
    seq(|d|, m requires 0 <= m < |d| => rows[FirstIndex(keys, d[m])])
  }

  /** One more key: the first row of its bucket at the end. */
  lemma FirstsSnoc(rows: seq<Row>, keys: seq<int>, d: seq<int>, k: int)
    requires |keys| == |rows| && k in keys && forall m | 0 <= m < |d| :: d[m] in keys
    ensures Firsts(rows, keys, d + [k]) == Firsts(rows, keys, d) + [rows[FirstIndex(keys, k)]]
  {
  }

  /** `Rows.RollUp`. Without a precision the rows come back as they are.
      Otherwise the rows are put in buckets by key; for each bucket, in
      order of first appearance (Go leaves the order of a map to chance),
      the later rows' values are added into the first row's values in
      place and the first row is output. */
  method RollUp(rows: seq<Row>, precision: int) returns (out: seq<Row>)
    requires Separate(rows)
    requires precision != None ==> Fits(rows, Keys(rows, precision))
    modifies set b | 0 <= b < |rows| :: rows[b].values
    ensures precision == None ==> out == rows
    ensures precision == None ==> forall b | 0 <= b < |rows| :: rows[b].values[..] == old(rows[b].values[..])
    ensures precision != None ==> |out| == |Distinct(Keys(rows, precision))|
    ensures precision != None ==> forall n | 0 <= n < |out| ::
              out[n] == rows[FirstIndex(Keys(rows, precision), Distinct(Keys(rows, precision))[n])]
    ensures precision != None ==> forall n | 0 <= n < |out| ::
              out[n].values[..] == RolledUp(old(Snapshot(rows)), Keys(rows, precision))[n]
    ensures precision != None ==> forall b | 0 <= b < |rows| ::
              FirstIndex(Keys(rows, precision), Keys(rows, precision)[b]) != b ==> rows[b].values[..] == old(rows[b].values[..])
  {
    if precision == None {
      return rows;
    }
    ghost var vals := Snapshot(rows);
    ghost var keys := Keys(rows, precision);
    var buckets, order := Bucket(rows, precision);
    assert Snapshot(rows) == vals;
    out := MergeAll(rows, keys, buckets, order);
  }

  /** The second loop of `Rows.RollUp`: each bucket, in order, merged into
      its first row, and that row output. */
  method MergeAll(rows: seq<Row>, ghost keys: seq<int>, buckets: map<int, seq<Row>>, order: seq<int>) returns (out: seq<Row>)
    requires |keys| == |rows| && Separate(rows) && Fits(rows, keys)
    requires order == Distinct(keys)
    requires forall k | k in order :: k in buckets && buckets[k] == Pick(rows, Positions(keys, k))
    modifies set b | 0 <= b < |rows| :: rows[b].values
    ensures out == Firsts(rows, keys, order)
    ensures forall n | 0 <= n < |order| :: Snapshot(rows)[FirstIndex(keys, order[n])] == RolledUp(old(Snapshot(rows)), keys)[n]
    ensures forall b | 0 <= b < |rows| :: FirstIndex(keys, keys[b]) != b ==> Snapshot(rows)[b] == old(Snapshot(rows))[b]
  {
    ghost var vals := Snapshot(rows);
    assert order[..0] == [];
    out := [];
    for n := 0 to |order|
      invariant out == Firsts(rows, keys, order[..n])
      invariant Merged(Snapshot(rows), keys, vals, order[..n])
    {
      TakeSnoc(order, n);
      FirstsSnoc(rows, keys, order[..n], order[n]);
      assert order[n] !in order[..n];
      var first := Roll(rows, keys, vals, order[..n], order[n], buckets[order[n]]);
      out := out + [first];
    }
    assert order[..|order|] == order;
    MergedAll(Snapshot(rows), keys, vals);
  }

  /** `Rows.Less`: the earlier Unix second first. */
  predicate Less(rows: seq<Row>, i: nat, j: nat)
    requires i < |rows| && j < |rows|
  {
    rows[i].time.unix < rows[j].time.unix
  }

  /** `Less` is the strict weak order `sort.Sort` needs: irreflexive,
      transitive, and rows it cannot order apart are interchangeable. */
  lemma LessOrders(rows: seq<Row>, i: nat, j: nat, k: nat)
    requires i < |rows| && j < |rows| && k < |rows|
    ensures !Less(rows, i, i)
    ensures Less(rows, i, j) && Less(rows, j, k) ==> Less(rows, i, k)
    ensures !Less(rows, i, j) && !Less(rows, j, i) && !Less(rows, j, k) && !Less(rows, k, j) ==>
              !Less(rows, i, k) && !Less(rows, k, i)
  {
  }

  /** `Rows.Swap`: the two positions exchange their rows; nothing else
      moves. */
  method Swap(rows: array<Row>, i: nat, j: nat)
    requires i < rows.Length && j < rows.Length
    modifies rows
    ensures rows[..] == old(rows[..])[i := old(rows[j])][j := old(rows[i])]
    ensures multiset(rows[..]) == multiset(old(rows[..]))
  {
    rows[i], rows[j] := rows[j], rows[i];
  }

  /** A `Datapoint`: one XY pair. */
  datatype Datapoint = Datapoint(x: real, y: real)

  /** `Datapoints.Value`: the Y of point `i`. */
  function Value(dps: seq<Datapoint>, i: nat): real
    requires i < |dps|
  {
    dps[i].y
  }

  /** `Datapoints.XY`: the X of point `i` and its `Value`. */
  function XY(dps: seq<Datapoint>, i: nat): (xy: (real, real))
    requires i < |dps|
    ensures xy.1 == Value(dps, i) && Datapoint(xy.0, xy.1) == dps[i]
  {
    (dps[i].x, dps[i].y)
  }
}
