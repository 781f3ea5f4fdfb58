/** The column reductions the engine applies to a window of rows: gonum's
    `mat64.Sum`, `mat64.Min`, `mat64.Max`, and the average (sum divided by
    the row count). */
module Reduce {

  datatype Reducer = Sum | Min | Max | Avg

  /** `mat64.Sum` of a column. */
  function Total(s: seq<real>): real
  {
    if |s| == 0 then 0.0 else Total(s[..|s| - 1]) + s[|s| - 1]
  }

  /** Summing a concatenation sums the parts. */
  lemma {:induction false} TotalAppend(a: seq<real>, b: seq<real>)
    ensures Total(a + b) == Total(a) + Total(b)
    decreases |b|
  {
    if |b| > 0 {
      var n := |b| - 1;
      assert (a + b)[..|a + b| - 1] == a + b[..n];
      TotalAppend(a, b[..n]);
    } else {
      assert a + b == a;
    }
  }

  /** Summing a value then the rest. */
  lemma TotalCons(x: real, p: seq<real>)
    ensures Total([x] + p) == x + Total(p)
  {
    TotalAppend([x], p);
    assert [x][..0] == [];
  }

  /** `mat64.Min` of a non-empty column: an entry no other entry is below. */
  function Least(s: seq<real>): (m: real)
    requires |s| > 0
    ensures m in s
    ensures forall k | 0 <= k < |s| :: m <= s[k]
  {
    if |s| == 1 then s[0]
    else
      var front := Least(s[..|s| - 1]);
      assert forall k | 0 <= k < |s| - 1 :: s[k] == s[..|s| - 1][k];
      if s[|s| - 1] < front then s[|s| - 1] else front
  }

  /** `mat64.Max` of a non-empty column: an entry no other entry is above. */
  function Greatest(s: seq<real>): (m: real)
    requires |s| > 0
    ensures m in s
    ensures forall k | 0 <= k < |s| :: s[k] <= m
  {
    if |s| == 1 then s[0]
    else
      var front := Greatest(s[..|s| - 1]);
      assert forall k | 0 <= k < |s| - 1 :: s[k] == s[..|s| - 1][k];
      if s[|s| - 1] > front then s[|s| - 1] else front
  }

  /** The average: the sum divided by the number of entries. */
  function Mean(s: seq<real>): (m: real)
    requires |s| > 0
    ensures m * (|s| as real) == Total(s)
  {
    Total(s) / (|s| as real)
  }

  /** A reducer applied to one non-empty column. */
  function Eval(f: Reducer, s: seq<real>): real
    requires |s| > 0
  {
    match f
    case Sum => Total(s)
    case Min => Least(s)
    case Max => Greatest(s)
    case Avg => Mean(s)
  }

  /** The reference figures for a single column of six values: average 1.5,
      minimum 1.0, maximum 2.0. */
  lemma ReducerExample()
    ensures Eval(Avg, [1.2, 1.0, 2.0, 1.8, 1.6, 1.4]) == 1.5
    ensures Eval(Min, [1.2, 1.0, 2.0, 1.8, 1.6, 1.4]) == 1.0
    ensures Eval(Max, [1.2, 1.0, 2.0, 1.8, 1.6, 1.4]) == 2.0
  {
    var s := [1.2, 1.0, 2.0, 1.8, 1.6, 1.4];
    assert Total([1.2]) == 1.2 by { assert [1.2][..0] == []; }
    assert Total([1.2, 1.0]) == 2.2 by { assert [1.2, 1.0][..1] == [1.2]; }
    assert Total([1.2, 1.0, 2.0]) == 4.2 by { assert [1.2, 1.0, 2.0][..2] == [1.2, 1.0]; }
    assert Total([1.2, 1.0, 2.0, 1.8]) == 6.0 by {
      assert [1.2, 1.0, 2.0, 1.8][..3] == [1.2, 1.0, 2.0];
    }
    assert Total([1.2, 1.0, 2.0, 1.8, 1.6]) == 7.6 by {
      assert [1.2, 1.0, 2.0, 1.8, 1.6][..4] == [1.2, 1.0, 2.0, 1.8];
    }
    assert Total(s) == 9.0 by { assert s[..5] == [1.2, 1.0, 2.0, 1.8, 1.6]; }
    var lo, hi := Least(s), Greatest(s);
    assert lo <= s[1] && s[2] <= hi;
  }
}
