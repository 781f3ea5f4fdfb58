/** Package `types`, file types/functions.go: a named reduction applied column
    by column to each window of rows, one output row per window. */
module TypesFunction {
  import opened Base
  import opened Mat
  import opened Reduce
  import opened GoStrings

  datatype Function = Function(name: string)

  /** Windows `apply` can work through: each has rows and is at least as wide
      as the first (the output is as wide as the first window). */
  predicate Windows(mx: seq<Matrix>)
  {
    forall i | 0 <= i < |mx| :: |mx[i].rows| > 0 && mx[i].width >= mx[0].width
  }

  /** One row per window, as wide as the first window, entry (i, j) being
      `f` of column j of window i. */
  function Reduced(f: Reducer, mx: seq<Matrix>): (r: Matrix)
    requires |mx| > 0 && Windows(mx)
    ensures |r.rows| == |mx| && r.width == mx[0].width
    ensures forall i, j | 0 <= i < |mx| && 0 <= j < mx[0].width :: r.rows[i][j] == Eval(f, Column(mx[i], j))
  {
    var w := mx[0].width;
    Dense(seq(|mx|, i requires 0 <= i < |mx| => seq(w, j requires 0 <= j < w => Eval(f, Column(mx[i], j)))), w)
  }

  /** `Function.apply`: no result for no windows; otherwise the windows
      reduced by `f`. */
  method ApplyEach(mx: seq<Matrix>, f: Reducer) returns (result: Option<Matrix>)
    requires Windows(mx)
    ensures result == if |mx| == 0 then None else Some(Reduced(f, mx))
  {
    var cols := 0;
    result := None;
    for i := 0 to |mx|
      invariant i == 0 <==> result == None
      invariant i > 0 ==> cols == mx[0].width
      invariant i > 0 ==> |result.value.rows| == |mx| && result.value.width == cols
      invariant i > 0 ==> forall a, b | 0 <= a < i && 0 <= b < cols ::
                            result.value.rows[a][b] == Eval(f, Column(mx[a], b))
    {
      var view := mx[i];
      if result == None {
        cols := view.width;
        result := Some(Zeros(|mx|, cols));
      }
      for j := 0 to cols
        invariant result.Some? && |result.value.rows| == |mx| && result.value.width == cols
        invariant forall a, b | 0 <= a < i && 0 <= b < cols ::
                    result.value.rows[a][b] == Eval(f, Column(mx[a], b))
        invariant forall b | 0 <= b < j :: result.value.rows[i][b] == Eval(f, Column(mx[i], b))
      {
        result := Some(Set(result.value, i, j, Eval(f, Column(view, j))));
      }
    }
    if |mx| > 0 {
      SameEntries(result.value, Reduced(f, mx));
    }
  }

  /** The reduction a function name selects, ignoring case: `min`, `max`,
      `sum`, and the average for any other name. */
  function Choose(name: string): (f: Reducer)
  {
    var lower := ToLower(name);
    if lower == "min" then Min
    else if lower == "max" then Max
    else if lower == "sum" then Sum
    else Avg
  }

  lemma ToLowerTwice(s: string)
    ensures ToLower(ToLower(s)) == ToLower(s)
  {
  }

  /** The selection ignores case: a name selects what its lower-case form
      selects, so `SUM` and `Sum` select the sum. */
  lemma ChooseIgnoresCase(name: string)
    ensures Choose(name) == Choose(ToLower(name))
    ensures Choose(name) == Sum <==> ToLower(name) == "sum"
    ensures Choose(name) == Min <==> ToLower(name) == "min"
    ensures Choose(name) == Max <==> ToLower(name) == "max"
  {
    ToLowerTwice(name);
  }

  /** What `Function.Apply` gives: the windows reduced by the selected
      reduction. With no windows, `min`, `max` and `sum` give no matrix and
      the average gives an empty 0×0 one. */
  function Applied(fn: Function, mx: seq<Matrix>): (r: Option<Matrix>)
    requires Windows(mx)
    ensures |mx| == 0 ==> r == (if Choose(fn.name) == Avg then Some(Zeros(0, 0)) else None)
    ensures |mx| > 0 ==> r == Some(Reduced(Choose(fn.name), mx))
  {
    if |mx| == 0 then (if Choose(fn.name) == Avg then Some(Zeros(0, 0)) else None)
    else Some(Reduced(Choose(fn.name), mx))
  }

  /** `Function.Apply`: dispatch on the lower-cased name. */
  method Apply(fn: Function, mx: seq<Matrix>) returns (result: Option<Matrix>)
    requires Windows(mx)
    ensures result == Applied(fn, mx)
  {
    var lower := ToLower(fn.name);
    if lower == "min" {
      result := ApplyEach(mx, Min);
      return;
    } else if lower == "max" {
      result := ApplyEach(mx, Max);
      return;
    } else if lower == "sum" {
      result := ApplyEach(mx, Sum);
      return;
    } else if |mx| > 0 {
      result := ApplyEach(mx, Avg);
      return;
    }
    return Some(Zeros(0, 0));
  }

  /** The average of a window's column times its row count is the column's
      sum. */
  lemma AverageIsSumOverRows(view: Matrix, j: nat)
    requires |view.rows| > 0 && j < view.width
    ensures Eval(Avg, Column(view, j)) * (|view.rows| as real) == Total(Column(view, j))
  {
  }
}
