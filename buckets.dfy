/** Grouping a sequence by key, as the rollups and the query resolver do with
    Go maps: the distinct keys in order of first appearance, the positions
    that carry a key, and the fact that summing a weight bucket by bucket
    sums it once over the whole sequence. */
module Buckets {
  import opened Reduce

  /** The distinct elements of `s`, each once, in order of first appearance. */
  function Distinct<T(==)>(s: seq<T>): (d: seq<T>)
    ensures forall x | x in d :: x in s
    ensures forall x | x in s :: x in d
    ensures forall a, b | 0 <= a < b < |d| :: d[a] != d[b]
    ensures |d| <= |s|
  {
    if |s| == 0 then []
    else
      var front := Distinct(s[..|s| - 1]);
      assert s == s[..|s| - 1] + [s[|s| - 1]];
      if s[|s| - 1] in front then front else front + [s[|s| - 1]]
  }

  /** A prefix one longer is the prefix and the next element. */
  lemma TakeSnoc<T>(s: seq<T>, n: nat)
    requires n < |s|
    ensures s[..n + 1] == s[..n] + [s[n]]
  {
  }

  /** The position of the first occurrence of `x` in `s`. */
  function FirstIndex<T(==)>(s: seq<T>, x: T): (i: nat)
    requires x in s
    ensures i < |s| && s[i] == x && x !in s[..i]
  {
    if s[0] == x then 0
    else
      var k := FirstIndex(s[1..], x);
      assert s[..k + 1] == [s[0]] + s[1..][..k];
      k + 1
  }

  /** The positions of `ks` that carry the key `k`, in increasing order: the
      bucket of `k`. */
  function Positions<T(==)>(ks: seq<T>, k: T): (p: seq<nat>)
    ensures forall t | 0 <= t < |p| :: p[t] < |ks| && ks[p[t]] == k
    ensures forall a, b | 0 <= a < b < |p| :: p[a] < p[b]
  {
    if |ks| == 0 then []
    else
      var n := |ks| - 1;
      Positions(ks[..n], k) + (if ks[n] == k then [n] else [])
  }

  /** Every position that carries `k` is in its bucket. */
  lemma {:induction false} PositionsComplete<T>(ks: seq<T>, k: T)
    ensures forall b | 0 <= b < |ks| && ks[b] == k :: b in Positions(ks, k)
  {
    if |ks| > 0 {
      var n := |ks| - 1;
      PositionsComplete(ks[..n], k);
      forall b | 0 <= b < n && ks[b] == k ensures b in Positions(ks, k) {
        assert ks[..n][b] == k;
      }
    }
  }

  /** A key that occurs has a bucket, which starts at its first position. */
  lemma PositionsFirst<T>(ks: seq<T>, k: T)
    requires k in ks
    ensures |Positions(ks, k)| > 0 && Positions(ks, k)[0] == FirstIndex(ks, k)
  {
    var p := Positions(ks, k);
    var f := FirstIndex(ks, k);
    PositionsComplete(ks, k);
    assert f in p;
    var t :| 0 <= t < |p| && p[t] == f;
  }

  /** Sum of the weights `w[i]` at the positions where `ks[i] == k`. */
  function Where<T(==)>(ks: seq<T>, w: seq<real>, k: T): real
    requires |ks| == |w|
  {
    if |ks| == 0 then 0.0
    else Where(ks[..|ks| - 1], w[..|w| - 1], k) + (if ks[|ks| - 1] == k then w[|w| - 1] else 0.0)
  }

  /** The bucket sum of `k` is the sum over its positions. */
  lemma {:induction false} WherePositions<T>(ks: seq<T>, w: seq<real>, k: T)
    requires |ks| == |w|
    ensures Where(ks, w, k) == Total(Pick(w, Positions(ks, k)))
  {
    if |ks| > 0 {
      var n := |ks| - 1;
      WherePositions(ks[..n], w[..n], k);
      GatheredSnoc(ks, w, k);
    }
  }

  /** One more position: the gathered weights of its key gain its weight. */
  lemma GatheredSnoc<T>(ks: seq<T>, w: seq<real>, k: T)
    requires |ks| == |w| > 0
    ensures var n := |ks| - 1;
            Total(Pick(w, Positions(ks, k))) ==
            Total(Pick(w[..n], Positions(ks[..n], k))) + (if ks[n] == k then w[n] else 0.0)
  {
    var n := |ks| - 1;
    var p0 := Positions(ks[..n], k);
    assert Pick(w[..n], p0) == Pick(w, p0);
    if ks[n] == k {
      assert Positions(ks, k) == p0 + [n];
      var g := Pick(w, p0 + [n]);
      assert g[..|p0|] == Pick(w, p0) && g[|p0|] == w[n];
      assert Total(g) == Total(g[..|p0|]) + g[|p0|];
    } else {
      assert Positions(ks, k) == p0;
    }
  }

  /** Sum of `Where(ks, w, k)` over the listed keys. */
  function Over<T(==)>(keys: seq<T>, ks: seq<T>, w: seq<real>): real
    requires |ks| == |w|
  {
    if |keys| == 0 then 0.0 else Over(keys[..|keys| - 1], ks, w) + Where(ks, w, keys[|keys| - 1])
  }

  /** The bucket sums over the listed keys, added up. */
  lemma {:induction false} OverTotal<T>(keys: seq<T>, ks: seq<T>, w: seq<real>)
    requires |ks| == |w|
    ensures Over(keys, ks, w) == Total(seq(|keys|, n requires 0 <= n < |keys| => Where(ks, w, keys[n])))
  {
    if |keys| > 0 {
      var m := |keys| - 1;
      OverTotal(keys[..m], ks, w);
      var all := seq(|keys|, n requires 0 <= n < |keys| => Where(ks, w, keys[n]));
      assert all[..m] == seq(m, n requires 0 <= n < m => Where(ks, w, keys[..m][n]));
    }
  }

  lemma {:induction false} WhereAbsent<T>(ks: seq<T>, w: seq<real>, k: T)
    requires |ks| == |w| && k !in ks
    ensures Where(ks, w, k) == 0.0
  {
    if |ks| > 0 {
      assert ks[..|ks| - 1] <= ks;
      WhereAbsent(ks[..|ks| - 1], w[..|w| - 1], k);
    }
  }

  /** One more element adds its weight to the bucket of its key, if that key
      is listed (once). */
  lemma {:induction false} OverAppend<T>(keys: seq<T>, ks: seq<T>, w: seq<real>, x: T, v: real)
    requires |ks| == |w|
    requires forall a, b | 0 <= a < b < |keys| :: keys[a] != keys[b]
    ensures Over(keys, ks + [x], w + [v]) == Over(keys, ks, w) + (if x in keys then v else 0.0)
  {
    if |keys| > 0 {
      var m := |keys| - 1;
      var ks', w' := ks + [x], w + [v];
      assert ks'[..|ks'| - 1] == ks && w'[..|w'| - 1] == w;
      OverAppend(keys[..m], ks, w, x, v);
      assert x in keys <==> x in keys[..m] || x == keys[m] by {
        assert keys == keys[..m] + [keys[m]];
      }
      assert x == keys[m] ==> x !in keys[..m];
    }
  }

  /** Summing the weights bucket by bucket, over the distinct keys, gives the
      sum of all weights: every position falls in exactly one bucket. */
  lemma {:induction false} PartitionSum<T>(ks: seq<T>, w: seq<real>)
    requires |ks| == |w|
    ensures Over(Distinct(ks), ks, w) == Total(w)
  {
    if |ks| > 0 {
      var n := |ks| - 1;
      var ks0, w0, x, v := ks[..n], w[..n], ks[n], w[n];
      assert ks == ks0 + [x] && w == w0 + [v];
      PartitionSum(ks0, w0);
      var d0 := Distinct(ks0);
      OverAppend(d0, ks0, w0, x, v);
      if x !in d0 {
        assert (d0 + [x])[..|d0|] == d0;
        WhereAbsent(ks0, w0, x);
        assert Where(ks, w, x) == v;
      }
    }
  }

  /** The items of the bucket at positions `p`, in order. */
  function Pick<T>(items: seq<T>, p: seq<nat>): (bucket: seq<T>)
    requires forall t | 0 <= t < |p| :: p[t] < |items|
    ensures |bucket| == |p|
  {
    seq(|p|, t requires 0 <= t < |p| => items[p[t]])
  }

  /** The buckets after the first `b` items: a key for each distinct key so
      far, in `order` by first appearance, holding that key's items. */
  ghost predicate Bucketed<T>(items: seq<T>, keys: seq<int>, b: nat, buckets: map<int, seq<T>>, order: seq<int>)
    requires |keys| == |items| && b <= |items|
  {
    && order == Distinct(keys[..b])
    && buckets.Keys == (set k | k in order)
    && forall k | k in buckets :: buckets[k] == Pick(items, Positions(keys[..b], k))
  }

  /** One more key: the distinct keys gain it when it is new. */
  lemma DistinctSnoc(keys: seq<int>, b: nat)
    requires b < |keys|
    ensures Distinct(keys[..b + 1]) == if keys[b] in Distinct(keys[..b]) then Distinct(keys[..b]) else Distinct(keys[..b]) + [keys[b]]
  {
    assert keys[..b + 1][..b] == keys[..b];
  }

  /** One more key: its bucket gains the new position. */
  lemma PositionsSnoc(keys: seq<int>, b: nat, k: int)
    requires b < |keys|
    ensures Positions(keys[..b + 1], k) == Positions(keys[..b], k) + (if keys[b] == k then [b] else [])
  {
    assert keys[..b + 1][..b] == keys[..b];
  }

  /** A key that has not appeared has an empty bucket. */
  lemma {:induction false} PositionsAbsent(keys: seq<int>, k: int)
    requires k !in keys
    ensures Positions(keys, k) == []
  {
    if |keys| > 0 {
      var n := |keys| - 1;
      assert keys == keys[..n] + [keys[n]];
      PositionsAbsent(keys[..n], k);
    }
  }

  /** One more item goes to the end of the bucket of its key, a new bucket
      when the key is new. */
  lemma BucketedStep<T>(items: seq<T>, keys: seq<int>, b: nat, buckets: map<int, seq<T>>, order: seq<int>,
                        buckets': map<int, seq<T>>, order': seq<int>)
    requires |keys| == |items| && b < |items| && Bucketed(items, keys, b, buckets, order)
    requires order' == if keys[b] in buckets then order else order + [keys[b]]
    requires buckets'.Keys == buckets.Keys + {keys[b]}
    requires buckets'[keys[b]] == (if keys[b] in buckets then buckets[keys[b]] else []) + [items[b]]
    requires forall k | k in buckets && k != keys[b] :: buckets'[k] == buckets[k]
    ensures Bucketed(items, keys, b + 1, buckets', order')
  {
    DistinctSnoc(keys, b);
    assert order' == Distinct(keys[..b + 1]);
    KeysStep(buckets, order, buckets', order', keys[b]);
    assert keys[b] !in buckets ==> keys[b] !in keys[..b];
    BucketsStep(items, keys, b, buckets, buckets');
  }

  /** The keys half of `BucketedStep`: the map has a bucket for each key
      listed in the order. */
  lemma KeysStep<T>(buckets: map<int, seq<T>>, order: seq<int>, buckets': map<int, seq<T>>, order': seq<int>, key: int)
    requires buckets.Keys == (set k | k in order)
    requires order' == if key in buckets then order else order + [key]
    requires buckets'.Keys == buckets.Keys + {key}
    ensures buckets'.Keys == (set k | k in order')
  {
  }

  /** The bucket map half of `BucketedStep`. */
  lemma BucketsStep<T>(items: seq<T>, keys: seq<int>, b: nat, buckets: map<int, seq<T>>, buckets': map<int, seq<T>>)
    requires |keys| == |items| && b < |items|
    requires forall k | k in buckets :: buckets[k] == Pick(items, Positions(keys[..b], k))
    requires keys[b] !in buckets ==> keys[b] !in keys[..b]
    requires buckets'.Keys == buckets.Keys + {keys[b]}
    requires buckets'[keys[b]] == (if keys[b] in buckets then buckets[keys[b]] else []) + [items[b]]
    requires forall k | k in buckets && k != keys[b] :: buckets'[k] == buckets[k]
    ensures forall k | k in buckets' :: buckets'[k] == Pick(items, Positions(keys[..b + 1], k))
  {
    var key := keys[b];
    forall k | k in buckets' ensures buckets'[k] == Pick(items, Positions(keys[..b + 1], k)) {
      PositionsSnoc(keys, b, k);
      var p := Positions(keys[..b], k);
      if k != key {
        assert p + [] == p;
        assert buckets'[k] == buckets[k];
      } else if key in buckets {
        PickSnoc(items, p, b);
      } else {
        PositionsAbsent(keys[..b], key);
        PickSnoc(items, p, b);
      }
    }
  }

  /** One more position: its item at the end of the bucket. */
  lemma PickSnoc<T>(items: seq<T>, p: seq<nat>, b: nat)
    requires b < |items| && forall t | 0 <= t < |p| :: p[t] < |items|
    ensures Pick(items, p + [b]) == Pick(items, p) + [items[b]]
  {
  }
}
