/** Package `functions`, file functions/functions.go: `Aggregate` slides a
    window down a matrix, keeping a running total of one column; when the
    total reaches `max` the window closes and becomes one output row, each
    entry a reduction of one column of the window. `Aggregate` is modelled
    twice: as written (its row index `i/j` and its unconditional final row),
    and as evidently intended (one row per window, in order, the trailing
    partial window last). */
module Functions {
  import opened Base
  import opened Mat
  import opened Reduce

  /** The row `apply` builds: `fn` of each column of the view. */
  function Row(view: Matrix, fn: Reducer): (row: seq<real>)
    requires |view.rows| > 0
    ensures |row| == view.width
    ensures forall j | 0 <= j < view.width :: row[j] == Eval(fn, Column(view, j))
  {
    seq(view.width, j requires 0 <= j < view.width => Eval(fn, Column(view, j)))
  }

  /** `apply`: a row as wide as the view, filled column by column. */
  method Apply(mx: Matrix, fn: Reducer) returns (result: seq<real>)
    requires |mx.rows| > 0
    ensures result == Row(mx, fn)
  {
    var c := mx.width;
    var a := new real[c];
    for k := 0 to c
      invariant forall l | 0 <= l < k :: a[l] == Eval(fn, Column(mx, l))
    {
      a[k] := Eval(fn, Column(mx, k));
    }
    result := a[..];
  }

  /** `Avg`: the sum of every entry of the matrix over its row count. */
  function Avg(mx: Matrix): (a: real)
    requires |mx.rows| > 0
    ensures a * (|mx.rows| as real) == Total(Flatten(mx.rows))
  {
    Total(Flatten(mx.rows)) / (|mx.rows| as real)
  }

  /** A column, as the one-column matrix `ColView` gives. */
  function ColumnMatrix(s: seq<real>): (m: Matrix)
    ensures |m.rows| == |s| && m.width == 1
    ensures forall i | 0 <= i < |s| :: m.rows[i] == [s[i]]
  {
    Dense(seq(|s|, i requires 0 <= i < |s| => [s[i]]), 1)
  }

  /** Applied to one column, as `apply` applies it, `Avg` is the column's
      average. */
  lemma AvgOfColumn(s: seq<real>)
    requires |s| > 0
    ensures Avg(ColumnMatrix(s)) == Eval(Reduce.Avg, s)
  {
    FlattenColumn(s);
  }

  lemma {:induction false} FlattenColumn(s: seq<real>)
    ensures Flatten(ColumnMatrix(s).rows) == s
  {
    if |s| > 0 {
      FlattenColumn(s[1..]);
      assert ColumnMatrix(s).rows[1..] == ColumnMatrix(s[1..]).rows;
    }
  }

  // ---------------------------------------------------------------------
  // Aggregate as written

  /** The final-iteration step of `Aggregate`: once `i + j` reaches the row
      count, one more row, from the current view, at the bottom. */
  function Finish(rows: nat, i: nat, j: nat, view: Matrix, fn: Reducer, result: Matrix): (r: Matrix)
    requires |view.rows| > 0 && view.width == result.width
    ensures r.width == result.width
  {
    if i + j >= rows then SetRow(GrowRow(result), |result.rows|, Row(view, fn)) else result
  }

  /** The variables of `Aggregate`'s loop: the view is rows `i` to
      `i+j-1`, `totl` the running total, `result` the rows so far. */
  datatype State = State(i: nat, j: nat, totl: real, result: Matrix)

  /** A state the loop body can run from. */
  predicate Live(other: Matrix, col: nat, s: State)
  {
    col < other.width && s.j >= 1 && s.i + s.j <= |other.rows| && s.result.width == other.width
  }

  /** One pass of `Aggregate`'s loop body as written: when the total plus
      the view's last value in column `col` reaches `max`, a row is grown and
      the view's row is written at index `i/j` (past the last row, a panic:
      `ErrIndexOutOfRange`), and the window restarts after the view; once
      `i + j` reaches the row count, one more row from the view at the
      bottom; then `j` moves on. */
  function Step(other: Matrix, max: int, col: nat, fn: Reducer, s: State): (r: Result<State>)
    requires Live(other, col, s)
    ensures r.Ok? ==> r.value.j >= 1 && r.value.i + r.value.j == s.i + s.j + 1 && r.value.result.width == other.width
  {
    var view := RowsView(other, s.i, s.j);
    var v := other.rows[s.i + s.j - 1][col];
    if s.totl + v >= max as real then
      var grown := GrowRow(s.result);
      if s.i / s.j >= |grown.rows| then Err(IndexOutOfRange)
      else
        var written := SetRow(grown, s.i / s.j, Row(view, fn));
        Ok(State(s.i + s.j, 1, 0.0, Finish(|other.rows|, s.i + s.j, 0, view, fn, written)))
    else
      Ok(State(s.i, s.j + 1, s.totl + v, Finish(|other.rows|, s.i, s.j, view, fn, s.result)))
  }

  /** `Aggregate`'s loop as written, from a state at its top: the passes
      while `i + j` is at most the row count. */
  function Run(other: Matrix, max: int, col: nat, fn: Reducer, s: State): Result<Matrix>
    requires col < other.width && s.j >= 1 && s.result.width == other.width
    decreases |other.rows| + 1 - (s.i + s.j)
  {
    if s.i + s.j > |other.rows| then Ok(s.result)
    else
      match Step(other, max, col, fn, s)
      case Err(e) => Err(e)
      case Ok(t) => Run(other, max, col, fn, t)
  }

  /** `Aggregate` as written: the matrix itself when `max` exceeds the sum of
      column `col`, else the loop from an empty result. */
  function AsWritten(max: int, col: nat, fn: Reducer, other: Matrix): Result<Matrix>
    requires col < other.width
  {
    if max as real > Total(Column(other, col)) then Ok(other)
    else Run(other, max, col, fn, State(0, 1, 0.0, Zeros(0, other.width)))
  }

  /** The body of `Aggregate`'s loop, statement by statement. */
  method Pass(other: Matrix, max: int, col: nat, fn: Reducer, s: State) returns (r: Result<State>)
    requires Live(other, col, s)
    ensures r == Step(other, max, col, fn, s)
  {
    var rows := |other.rows|;
    var i, j, totl, result := s.i, s.j, s.totl, s.result;
    var view := RowsView(other, i, j);
    if totl + view.rows[j - 1][col] >= max as real {
      result := GrowRow(result);
      if i / j >= |result.rows| {
        return Err(IndexOutOfRange);
      }
      var row := Apply(view, fn);
      result := SetRow(result, i / j, row);
      totl := 0.0;
      i, j := i + j, 0;
    } else {
      totl := totl + view.rows[j - 1][col];
    }
    if i + j >= rows {
      result := GrowRow(result);
      var row := Apply(view, fn);
      result := SetRow(result, |result.rows| - 1, row);
    }
    j := j + 1;
    r := Ok(State(i, j, totl, result));
  }

  /** `Aggregate`: the early return, then the loop, one `Pass` at a time. */
  method Aggregate(max: int, col: nat, fn: Reducer, other: Matrix) returns (r: Result<Matrix>)
    requires col < other.width
    ensures r == AsWritten(max, col, fn, other)
  {
    var rows, cols := |other.rows|, other.width;
    if max as real > Total(Column(other, col)) {
      return Ok(other);
    }
    var result := Zeros(0, cols);
    var totl := 0.0;
    var i: nat, j: nat := 0, 1;
    while i + j <= rows
      invariant j >= 1 && result.width == cols
      invariant Run(other, max, col, fn, State(i, j, totl, result)) == AsWritten(max, col, fn, other)
      decreases rows + 1 - (i + j)
    {
      var next := Pass(other, max, col, fn, State(i, j, totl, result));
      if next.Err? {
        return Err(next.error);
      }
      i, j, totl, result := next.value.i, next.value.j, next.value.totl, next.value.result;
    }
    return Ok(result);
  }

  // ---------------------------------------------------------------------
  // Aggregate as intended

  /** Rows `start` to `start+len-1`. */
  datatype Window = Window(start: nat, len: nat)

  /** The windows of the running-total rule over the values `vals` of column
      `col`, from a window that starts at row `i` and has taken `j-1` rows
      whose values add up to `totl`: the window takes row `i+j-1`; it closes
      when the total reaches `max` and the next starts after it; a window
      still open at the last row ends there. */
  function Scan(vals: seq<real>, max: int, i: nat, j: nat, totl: real): seq<Window>
    requires j >= 1 && i + j <= |vals| + 1
    decreases |vals| + 1 - (i + j)
  {
    if i + j > |vals| then []
    else if totl + vals[i + j - 1] >= max as real then [Window(i, j)] + Scan(vals, max, i + j, 1, 0.0)
    else if i + j == |vals| then [Window(i, j)]
    else Scan(vals, max, i, j + 1, totl + vals[i + j - 1])
  }

  /** `ws` are non-empty windows covering rows `from` to `to-1`, one after the
      other. */
  predicate Tiles(ws: seq<Window>, from: nat, to: nat)
    decreases |ws|
  {
    if |ws| == 0 then from == to
    else ws[0].start == from && ws[0].len > 0 && Tiles(ws[1..], from + ws[0].len, to)
  }

  /** Every window is non-empty and inside the first `n` rows. */
  predicate InRange(ws: seq<Window>, n: nat)
  {
    forall k | 0 <= k < |ws| :: ws[k].len > 0 && ws[k].start + ws[k].len <= n
  }

  lemma {:induction false} TilesInRange(ws: seq<Window>, from: nat, to: nat)
    requires Tiles(ws, from, to)
    ensures from <= to && InRange(ws, to)
    decreases |ws|
  {
    if |ws| > 0 {
      TilesInRange(ws[1..], from + ws[0].len, to);
      forall k | 0 < k < |ws| ensures ws[k].len > 0 && ws[k].start + ws[k].len <= to {
        assert ws[k] == ws[1..][k - 1];
      }
    }
  }

  /** The rule's windows tile the rows from the current window's start to
      the end: non-empty, contiguous, in row order, none left out. */
  lemma {:induction false} ScanTiles(vals: seq<real>, max: int, i: nat, j: nat, totl: real)
    requires j >= 1 && (i + j <= |vals| || (j == 1 && i == |vals|))
    ensures Tiles(Scan(vals, max, i, j, totl), i, |vals|)
    decreases |vals| + 1 - (i + j)
  {
    if i + j <= |vals| {
      if totl + vals[i + j - 1] >= max as real {
        ScanTiles(vals, max, i + j, 1, 0.0);
        var ws := Scan(vals, max, i, j, totl);
        assert ws[1..] == Scan(vals, max, i + j, 1, 0.0);
      } else if i + j < |vals| {
        ScanTiles(vals, max, i, j + 1, totl + vals[i + j - 1]);
      } else {
        assert Scan(vals, max, i, j, totl)[1..] == [];
      }
    }
  }

  /** The total of the `l` values from row `i` on. */
  function Running(vals: seq<real>, i: nat, l: nat): real
    requires i + l <= |vals|
  {
    Total(vals[i..i + l])
  }

  /** A window closes: its values reach `max`. */
  predicate Closes(vals: seq<real>, max: int, w: Window)
    requires w.start + w.len <= |vals|
  {
    Running(vals, w.start, w.len) >= max as real
  }

  /** No proper prefix of a window reaches `max`. */
  predicate Below(vals: seq<real>, max: int, w: Window)
    requires w.start + w.len <= |vals|
  {
    forall l | 1 <= l < w.len :: Running(vals, w.start, l) < max as real
  }

  lemma RunningSnoc(vals: seq<real>, i: nat, n: nat)
    requires i + n < |vals|
    ensures Running(vals, i, n + 1) == Running(vals, i, n) + vals[i + n]
  {
    assert vals[i..i + n + 1][..n] == vals[i..i + n];
  }

  /** Every window stops at the first row where its running total reaches
      `max`, and every window but the last reaches it. */
  predicate Closing(vals: seq<real>, max: int, ws: seq<Window>)
    requires InRange(ws, |vals|)
  {
    forall k | 0 <= k < |ws| :: Below(vals, max, ws[k]) && (k < |ws| - 1 ==> Closes(vals, max, ws[k]))
  }

  lemma ClosingCons(vals: seq<real>, max: int, w: Window, rest: seq<Window>)
    requires w.len > 0 && w.start + w.len <= |vals| && InRange(rest, |vals|)
    requires Below(vals, max, w) && (|rest| > 0 ==> Closes(vals, max, w)) && Closing(vals, max, rest)
    ensures InRange([w] + rest, |vals|) && Closing(vals, max, [w] + rest)
  {
    var ws := [w] + rest;
    assert forall k | 0 < k < |ws| :: ws[k] == rest[k - 1];
  }

  /** Each window closes at the first row where its running total reaches
      `max`: no shorter prefix of it does, and every window but the last
      does reach it (the last may be the rows left over at the end). */
  lemma {:induction false} ScanCloses(vals: seq<real>, max: int, i: nat, j: nat, totl: real)
    requires j >= 1 && (i + j <= |vals| || (j == 1 && i == |vals|))
    requires totl == Running(vals, i, j - 1)
    requires forall l | 1 <= l < j :: Running(vals, i, l) < max as real
    ensures InRange(Scan(vals, max, i, j, totl), |vals|)
    ensures Closing(vals, max, Scan(vals, max, i, j, totl))
    decreases |vals| + 1 - (i + j)
  {
    if i + j <= |vals| {
      RunningSnoc(vals, i, j - 1);
      var w := Window(i, j);
      assert Below(vals, max, w);
      var v := vals[i + j - 1];
      if totl + v >= max as real {
        assert Running(vals, i + j, 0) == 0.0 by {
          assert vals[i + j..i + j] == [];
        }
        ScanCloses(vals, max, i + j, 1, 0.0);
        ClosingCons(vals, max, w, Scan(vals, max, i + j, 1, 0.0));
        assert Scan(vals, max, i, j, totl) == [w] + Scan(vals, max, i + j, 1, 0.0);
      } else if i + j < |vals| {
        ScanCloses(vals, max, i, j + 1, totl + v);
        assert Scan(vals, max, i, j, totl) == Scan(vals, max, i, j + 1, totl + v);
      } else {
        ClosingCons(vals, max, w, []);
        assert Scan(vals, max, i, j, totl) == [w] + [];
      }
    } else {
      assert Scan(vals, max, i, j, totl) == [];
    }
  }

  /** The output rows of the windows `ws`: row k is `apply` of window k. */
  function Rows(other: Matrix, fn: Reducer, ws: seq<Window>): (m: Matrix)
    requires InRange(ws, |other.rows|)
    ensures |m.rows| == |ws| && m.width == other.width
    ensures forall k | 0 <= k < |ws| :: m.rows[k] == Row(RowsView(other, ws[k].start, ws[k].len), fn)
  {
    Dense(seq(|ws|, k requires 0 <= k < |ws| => Row(RowsView(other, ws[k].start, ws[k].len), fn)), other.width)
  }

  /** `Aggregate` as intended: the matrix itself when `max` exceeds the sum
      of column `col`; otherwise one row per window of the running-total
      rule, in row order, the rows left over after the last closed window
      making the last row. */
  function Aggregated(max: int, col: nat, fn: Reducer, other: Matrix): (r: Matrix)
    requires col < other.width
    ensures r.width == other.width
  {
    if max as real > Total(Column(other, col)) then other
    else
      var vals := Column(other, col);
      ScanTiles(vals, max, 0, 1, 0.0);
      TilesInRange(Scan(vals, max, 0, 1, 0.0), 0, |vals|);
      Rows(other, fn, Scan(vals, max, 0, 1, 0.0))
  }

  /** Once `max` is within the column's sum, the result has one row per
      window, and the windows tile the matrix. */
  lemma AggregatedRows(max: int, col: nat, fn: Reducer, other: Matrix)
    requires col < other.width && max as real <= Total(Column(other, col))
    ensures Tiles(Scan(Column(other, col), max, 0, 1, 0.0), 0, |other.rows|)
    ensures InRange(Scan(Column(other, col), max, 0, 1, 0.0), |other.rows|)
    ensures Aggregated(max, col, fn, other) == Rows(other, fn, Scan(Column(other, col), max, 0, 1, 0.0))
  {
    var vals := Column(other, col);
    ScanTiles(vals, max, 0, 1, 0.0);
    TilesInRange(Scan(vals, max, 0, 1, 0.0), 0, |vals|);
  }

  /** One more window's row at the bottom. */
  lemma RowsSnoc(other: Matrix, fn: Reducer, ws: seq<Window>, w: Window)
    requires InRange(ws, |other.rows|) && w.len > 0 && w.start + w.len <= |other.rows|
    ensures InRange(ws + [w], |other.rows|)
    ensures Rows(other, fn, ws + [w])
            == SetRow(GrowRow(Rows(other, fn, ws)), |ws|, Row(RowsView(other, w.start, w.len), fn))
  {
    var a := Rows(other, fn, ws + [w]);
    var b := SetRow(GrowRow(Rows(other, fn, ws)), |ws|, Row(RowsView(other, w.start, w.len), fn));
    assert forall k | 0 <= k < |ws| :: (ws + [w])[k] == ws[k];
    assert a.rows == b.rows;
  }

  /** One pass of the rule against the windows still to come: a closing
      row ends the current window, the last row ends it too, any other row
      extends it. */
  lemma Advance(vals: seq<real>, max: int, i: nat, j: nat, totl: real, done: seq<Window>, whole: seq<Window>)
    requires j >= 1 && i + j <= |vals| && whole == done + Scan(vals, max, i, j, totl)
    ensures var v := vals[i + j - 1];
            if totl + v >= max as real then whole == (done + [Window(i, j)]) + Scan(vals, max, i + j, 1, 0.0)
            else if i + j == |vals| then whole == (done + [Window(i, j)]) + Scan(vals, max, i, j + 1, totl + v)
            else whole == done + Scan(vals, max, i, j + 1, totl + v)
  {
    var v := vals[i + j - 1];
    if totl + v < max as real && i + j == |vals| {
      assert Scan(vals, max, i, j + 1, totl + v) == [];
    }
  }

  /** `Aggregate` as intended, in the loop form of the original: a row grown
      and written at the bottom for each closed window, and one for the rows
      left over when there are any. */
  method AggregateCorrected(max: int, col: nat, fn: Reducer, other: Matrix) returns (r: Matrix)
    requires col < other.width
    ensures r == Aggregated(max, col, fn, other)
  {
    var rows, cols := |other.rows|, other.width;
    if max as real > Total(Column(other, col)) {
      return other;
    }
    ghost var vals := Column(other, col);
    ghost var whole := Scan(vals, max, 0, 1, 0.0);
    ghost var done: seq<Window> := [];
    var result := Zeros(0, cols);
    var totl := 0.0;
    var i, j := 0, 1;
    while i + j <= rows
      invariant j >= 1 && i + j <= rows + 1
      invariant InRange(done, rows) && result == Rows(other, fn, done)
      invariant whole == done + Scan(vals, max, i, j, totl)
      decreases rows + 1 - (i + j)
    {
      var view := RowsView(other, i, j);
      var v := view.rows[j - 1][col];
      assert v == vals[i + j - 1];
      Advance(vals, max, i, j, totl, done, whole);
      if totl + v >= max as real || i + j == rows {
        RowsSnoc(other, fn, done, Window(i, j));
        done := done + [Window(i, j)];
        result := GrowRow(result);
        var row := Apply(view, fn);
        result := SetRow(result, |result.rows| - 1, row);
      }
      if totl + v >= max as real {
        totl := 0.0;
        i, j := i + j, 1;
      } else {
        totl := totl + v;
        j := j + 1;
      }
    }
    assert done + [] == done;
    r := result;
  }

  /** The totals of the windows' parts of `s`. */
  function Parts(s: seq<real>, ws: seq<Window>): (p: seq<real>)
    requires InRange(ws, |s|)
    ensures |p| == |ws|
  {
    seq(|ws|, k requires 0 <= k < |ws| => Running(s, ws[k].start, ws[k].len))
  }

  lemma PartsCons(s: seq<real>, ws: seq<Window>)
    requires InRange(ws, |s|) && |ws| > 0
    ensures InRange(ws[1..], |s|)
    ensures Parts(s, ws) == [Running(s, ws[0].start, ws[0].len)] + Parts(s, ws[1..])
  {
    assert forall k | 0 < k < |ws| :: ws[k] == ws[1..][k - 1];
  }

  lemma RunningSplit(s: seq<real>, i: nat, a: nat, b: nat)
    requires i + a + b <= |s|
    ensures Running(s, i, a + b) == Running(s, i, a) + Running(s, i + a, b)
  {
    assert s[i..i + a + b] == s[i..i + a] + s[i + a..i + a + b];
    TotalAppend(s[i..i + a], s[i + a..i + a + b]);
  }

  /** Summing the parts of tiling windows sums what they tile. */
  lemma {:induction false} TilesTotal(s: seq<real>, ws: seq<Window>, from: nat, to: nat)
    requires Tiles(ws, from, to) && to <= |s|
    ensures InRange(ws, |s|) && from <= to
    ensures Total(Parts(s, ws)) == Running(s, from, to - from)
    decreases |ws|
  {
    TilesInRange(ws, from, to);
    if |ws| > 0 {
      var w := ws[0];
      TilesTotal(s, ws[1..], from + w.len, to);
      PartsCons(s, ws);
      TotalCons(Running(s, w.start, w.len), Parts(s, ws[1..]));
      RunningSplit(s, from, w.len, to - from - w.len);
    } else {
      assert Parts(s, ws) == [];
      assert s[from..to] == [];
    }
  }

  /** Column `j` of a view of rows is that stretch of column `j`. */
  lemma ColumnOfView(other: Matrix, start: nat, len: nat, j: nat)
    requires start + len <= |other.rows| && j < other.width
    ensures Column(RowsView(other, start, len), j) == Column(other, j)[start..start + len]
  {
  }

  /** Aggregated with the sum, row `k` of the result is the total of
      window `k`'s stretch of each column. */
  lemma SumRow(other: Matrix, w: Window, j: nat)
    requires w.len > 0 && w.start + w.len <= |other.rows| && j < other.width
    ensures Row(RowsView(other, w.start, w.len), Sum)[j] == Running(Column(other, j), w.start, w.len)
  {
    ColumnOfView(other, w.start, w.len, j);
  }

  /** With the sum, column `j` of the windows' rows is the windows' parts of
      column `j`. */
  lemma SumColumn(other: Matrix, ws: seq<Window>, j: nat)
    requires InRange(ws, |other.rows|) && j < other.width
    ensures Column(Rows(other, Sum, ws), j) == Parts(Column(other, j), ws)
  {
    var m := Rows(other, Sum, ws);
    forall k | 0 <= k < |ws| ensures Column(m, j)[k] == Parts(Column(other, j), ws)[k] {
      SumRow(other, ws[k], j);
    }
  }

  /** Aggregated with the sum, every column keeps its total: the rows of the
      result add up to the rows of the matrix (a 10×10 matrix of ones still
      sums to 100). */
  lemma AggregatedSum(max: int, col: nat, other: Matrix, j: nat)
    requires col < other.width && j < other.width
    ensures Total(Column(Aggregated(max, col, Sum, other), j)) == Total(Column(other, j))
  {
    var vals := Column(other, col);
    if max as real <= Total(vals) {
      var ws := Scan(vals, max, 0, 1, 0.0);
      AggregatedRows(max, col, Sum, other);
      var c := Column(other, j);
      TilesTotal(c, ws, 0, |vals|);
      SumColumn(other, ws, j);
      assert c[0..|vals|] == c;
    }
  }

  // ---------------------------------------------------------------------
  // Where the two differ

  /** A zero row under a one-column matrix. */
  lemma GrowOne(rows: seq<seq<real>>)
    requires Rectangular(Dense(rows, 1))
    ensures GrowRow(Dense(rows, 1)).rows == rows + [[0.0]]
  {
    var g := GrowRow(Dense(rows, 1));
    assert g.rows[|rows|] == [0.0];
  }

  /** Windows of different lengths: with values 3, 1, 2 in the column, `max`
      3 and the maximum, the windows are rows 0 and rows 1–2. As written the
      second window's row goes to index 1/2 = 0 over the first, row 1 stays
      zero, and the final step repeats the second window's row; as intended
      the rows are 3 and 2. */
  lemma AsWrittenOverwrites()
    ensures AsWritten(3, 0, Max, Dense([[3.0], [1.0], [2.0]], 1)) == Ok(Dense([[2.0], [0.0], [2.0]], 1))
    ensures Aggregated(3, 0, Max, Dense([[3.0], [1.0], [2.0]], 1)) == Dense([[3.0], [2.0]], 1)
  {
    var m: Matrix := Dense([[3.0], [1.0], [2.0]], 1);
    assert Column(m, 0) == [3.0, 1.0, 2.0];
    assert Total([3.0, 1.0, 2.0]) == 6.0 by {
      assert [3.0, 1.0, 2.0][..2] == [3.0, 1.0];
      assert [3.0, 1.0][..1] == [3.0];
      assert [3.0][..0] == [];
    }
    OverwritesRun();
    OverwritesRows();
  }

  /** The loop as written on the first example: the row of the second
      window lands on the first. */
  lemma OverwritesRun()
    ensures Run(Dense([[3.0], [1.0], [2.0]], 1), 3, 0, Max, State(0, 1, 0.0, Zeros(0, 1)))
            == Ok(Dense([[2.0], [0.0], [2.0]], 1))
  {
    var m: Matrix := Dense([[3.0], [1.0], [2.0]], 1);
    var r1: Matrix := Dense([[3.0]], 1);
    var r3: Matrix := Dense([[2.0], [0.0], [2.0]], 1);
    var s0, s1, s2, s3 := State(0, 1, 0.0, Zeros(0, 1)), State(1, 1, 0.0, r1), State(1, 2, 1.0, r1), State(3, 1, 0.0, r3);
    assert Step(m, 3, 0, Max, s0) == Ok(s1) by {
      var v0: Matrix := Dense([[3.0]], 1);
      assert RowsView(m, 0, 1) == v0;
      assert Column(v0, 0) == [3.0];
      assert Row(v0, Max) == [3.0];
      assert Zeros(0, 1) == Dense([], 1);
      GrowOne([]);
      assert SetRow(GrowRow(Zeros(0, 1)), 0, [3.0]) == r1;
    }
    assert Step(m, 3, 0, Max, s1) == Ok(s2);
    OverwritesClose();
    assert Run(m, 3, 0, Max, s3) == Ok(r3);
    assert Run(m, 3, 0, Max, s2) == Ok(r3);
    assert Run(m, 3, 0, Max, s1) == Ok(r3);
  }

  /** The second window of the first example closes: its row goes to
      index 1/2 = 0, and as it ends the matrix the final step adds it again. */
  lemma OverwritesClose()
    ensures Step(Dense([[3.0], [1.0], [2.0]], 1), 3, 0, Max, State(1, 2, 1.0, Dense([[3.0]], 1)))
            == Ok(State(3, 1, 0.0, Dense([[2.0], [0.0], [2.0]], 1)))
  {
    var m: Matrix := Dense([[3.0], [1.0], [2.0]], 1);
    var r1: Matrix := Dense([[3.0]], 1);
    var r3: Matrix := Dense([[2.0], [0.0], [2.0]], 1);
    var v12: Matrix := Dense([[1.0], [2.0]], 1);
    assert RowsView(m, 1, 2) == v12;
    assert Column(v12, 0) == [1.0, 2.0];
    assert Greatest([1.0, 2.0]) == 2.0 by {
      assert [1.0, 2.0][..1] == [1.0];
    }
    assert Row(v12, Max) == [2.0];
    var r2: Matrix := Dense([[2.0], [0.0]], 1);
    GrowOne([[3.0]]);
    assert SetRow(GrowRow(r1), 0, [2.0]) == r2;
    GrowOne([[2.0], [0.0]]);
    assert Finish(3, 3, 0, v12, Max, r2) == r3;
  }

  /** The rule as intended on the first example: one row per window. */
  lemma OverwritesRows()
    ensures Aggregated(3, 0, Max, Dense([[3.0], [1.0], [2.0]], 1)) == Dense([[3.0], [2.0]], 1)
  {
    var m: Matrix := Dense([[3.0], [1.0], [2.0]], 1);
    assert Column(m, 0) == [3.0, 1.0, 2.0];
    assert Total([3.0, 1.0, 2.0]) == 6.0 by {
      assert [3.0, 1.0, 2.0][..2] == [3.0, 1.0];
      assert [3.0, 1.0][..1] == [3.0];
      assert [3.0][..0] == [];
    }
    assert Scan([3.0, 1.0, 2.0], 3, 0, 1, 0.0) == [Window(0, 1), Window(1, 2)] by {
      assert Scan([3.0, 1.0, 2.0], 3, 1, 1, 0.0) == Scan([3.0, 1.0, 2.0], 3, 1, 2, 1.0);
    }
    var v0: Matrix := Dense([[3.0]], 1);
    var v12: Matrix := Dense([[1.0], [2.0]], 1);
    assert RowsView(m, 0, 1) == v0;
    assert RowsView(m, 1, 2) == v12;
    assert Column(v0, 0) == [3.0];
    assert Column(v12, 0) == [1.0, 2.0];
    assert Greatest([1.0, 2.0]) == 2.0 by {
      assert [1.0, 2.0][..1] == [1.0];
    }
    assert Row(v0, Max) == [3.0];
    assert Row(v12, Max) == [2.0];
    assert Rows(m, Max, [Window(0, 1), Window(1, 2)]).rows == [[3.0], [2.0]];
  }

  /** The last window closing on the last row: with two rows of 1, `max` 1
      and the sum, both rows close their windows; as written the final step
      then adds the last window's row again, so the sum of the result is 3
      where the matrix sums to 2. */
  lemma AsWrittenRepeatsLast()
    ensures AsWritten(1, 0, Sum, Dense([[1.0], [1.0]], 1)) == Ok(Dense([[1.0], [1.0], [1.0]], 1))
    ensures Aggregated(1, 0, Sum, Dense([[1.0], [1.0]], 1)) == Dense([[1.0], [1.0]], 1)
  {
    var m: Matrix := Dense([[1.0], [1.0]], 1);
    assert Column(m, 0) == [1.0, 1.0];
    assert Total([1.0, 1.0]) == 2.0 by {
      assert [1.0, 1.0][..1] == [1.0];
    }
    RepeatsLastRun();
    RepeatsLastRows();
  }

  /** A row of the second example's matrix, as a view. */
  lemma OneView(m: Matrix, i: nat)
    requires m == Dense([[1.0], [1.0]], 1) && i < 2
    ensures RowsView(m, i, 1) == Dense([[1.0]], 1) && Row(Dense([[1.0]], 1), Sum) == [1.0]
  {
    var v0: Matrix := Dense([[1.0]], 1);
    assert RowsView(m, i, 1).rows == [[1.0]];
    assert Column(v0, 0) == [1.0];
    assert Total([1.0]) == 1.0 by {
      assert [1.0][..0] == [];
    }
  }

  /** The rule as intended on the second example: one row per row. */
  lemma RepeatsLastRows()
    ensures Aggregated(1, 0, Sum, Dense([[1.0], [1.0]], 1)) == Dense([[1.0], [1.0]], 1)
  {
    var m: Matrix := Dense([[1.0], [1.0]], 1);
    assert Column(m, 0) == [1.0, 1.0];
    assert Total([1.0, 1.0]) == 2.0 by {
      assert [1.0, 1.0][..1] == [1.0];
    }
    OneView(m, 0);
    OneView(m, 1);
    assert Scan([1.0, 1.0], 1, 0, 1, 0.0) == [Window(0, 1), Window(1, 1)];
    assert Rows(m, Sum, [Window(0, 1), Window(1, 1)]).rows == [[1.0], [1.0]];
  }

  /** The loop as written on the second example: three rows for two. */
  lemma RepeatsLastRun()
    ensures Run(Dense([[1.0], [1.0]], 1), 1, 0, Sum, State(0, 1, 0.0, Zeros(0, 1)))
            == Ok(Dense([[1.0], [1.0], [1.0]], 1))
  {
    var m: Matrix := Dense([[1.0], [1.0]], 1);
    var v0: Matrix := Dense([[1.0]], 1);
    var r1: Matrix := Dense([[1.0]], 1);
    var r2: Matrix := Dense([[1.0], [1.0]], 1);
    var r3: Matrix := Dense([[1.0], [1.0], [1.0]], 1);
    var s0, s1, s2 := State(0, 1, 0.0, Zeros(0, 1)), State(1, 1, 0.0, r1), State(2, 1, 0.0, r3);
    assert Step(m, 1, 0, Sum, s0) == Ok(s1) by {
      OneView(m, 0);
      assert Zeros(0, 1) == Dense([], 1);
      GrowOne([]);
      assert SetRow(GrowRow(Zeros(0, 1)), 0, [1.0]) == r1;
    }
    assert Step(m, 1, 0, Sum, s1) == Ok(s2) by {
      OneView(m, 1);
      GrowOne([[1.0]]);
      assert SetRow(GrowRow(r1), 1, [1.0]) == r2;
      GrowOne([[1.0], [1.0]]);
      assert Finish(2, 2, 0, v0, Sum, r2) == r3;
    }
    assert Run(m, 1, 0, Sum, s2) == Ok(r3);
    assert Run(m, 1, 0, Sum, s1) == Ok(r3);
  }

  /** A window of two rows followed by one of one row: with values 1, 1, 2,
      `max` 2, the second window's row index is 2/1 = 2 in a result of two
      rows, where gonum's `SetRow` panics. */
  lemma AsWrittenPanics()
    ensures AsWritten(2, 0, Sum, Dense([[1.0], [1.0], [2.0]], 1)) == Err(IndexOutOfRange)
  {
    var m: Matrix := Dense([[1.0], [1.0], [2.0]], 1);
    assert Column(m, 0) == [1.0, 1.0, 2.0];
    assert Total([1.0, 1.0, 2.0]) == 4.0 by {
      assert [1.0, 1.0, 2.0][..2] == [1.0, 1.0];
      assert [1.0, 1.0][..1] == [1.0];
      assert [1.0][..0] == [];
    }
    var v01: Matrix := Dense([[1.0], [1.0]], 1);
    assert RowsView(m, 0, 2) == v01;
    assert Column(v01, 0) == [1.0, 1.0];
    assert Total([1.0, 1.0]) == 2.0 by {
      assert [1.0, 1.0][..1] == [1.0];
    }
    var r1: Matrix := Dense([[2.0]], 1);
    assert Row(v01, Sum) == [2.0];
    var s0, s1, s2 := State(0, 1, 0.0, Zeros(0, 1)), State(0, 2, 1.0, Zeros(0, 1)), State(2, 1, 0.0, r1);
    assert Step(m, 2, 0, Sum, s0) == Ok(s1);
    assert Step(m, 2, 0, Sum, s1) == Ok(s2) by {
      assert Zeros(0, 1) == Dense([], 1);
      GrowOne([]);
      assert SetRow(GrowRow(Zeros(0, 1)), 0, [2.0]) == r1;
    }
    assert Step(m, 2, 0, Sum, s2) == Err(IndexOutOfRange);
    assert Run(m, 2, 0, Sum, s1) == Err(IndexOutOfRange);
  }

  // ---------------------------------------------------------------------
  // Where the two agree

  /** A column of ones, as in the original's tests of `Aggregate`. */
  predicate Ones(other: Matrix, col: nat)
    requires col < other.width
  {
    forall r | 0 <= r < |other.rows| :: other.rows[r][col] == 1.0
  }

  /** A product of non-negative numbers is non-negative. */
  lemma MulNonNegative(x: int, y: int)
    requires x >= 0 && y >= 0
    ensures x * y >= 0
  {
  }

  /** The quotient of `a` by `m` is the `q` with `q*m <= a < (q+1)*m`. */
  lemma DivUnique(a: int, m: int, q: int)
    requires m > 0 && q * m <= a < q * m + m
    ensures a / m == q
  {
    var q0 := a / m;
    assert q0 * m <= a < q0 * m + m;
    if q0 > q {
      assert q0 * m - (q * m + m) == (q0 - q - 1) * m;
      MulNonNegative(q0 - q - 1, m);
    } else if q0 < q {
      assert q * m - (q0 * m + m) == (q - q0 - 1) * m;
      MulNonNegative(q - q0 - 1, m);
    }
  }

  /** A window of `m` more rows ends at the next multiple of `m`. */
  lemma DivStep(i: nat, m: nat)
    requires m > 0 && i % m == 0
    ensures (i + m) % m == 0 && (i + m) / m == i / m + 1
  {
    var q := i / m;
    assert i == q * m;
    assert (q + 1) * m == i + m;
    DivUnique(i + m, m, q + 1);
  }

  /** A window of ones reaching `max` at the row `i + max - 1`, before the
      last row: its row is written at `i/max`, the bottom row of the grown
      result, and the next window starts after it. */
  lemma OnesClose(other: Matrix, max: int, col: nat, fn: Reducer, i: nat, done: seq<Window>)
    requires col < other.width && Ones(other, col) && max >= 1
    requires i + max < |other.rows| && i / max == |done| && InRange(done, |other.rows|)
    ensures InRange(done + [Window(i, max)], |other.rows|)
    ensures Step(other, max, col, fn, State(i, max, (max - 1) as real, Rows(other, fn, done)))
            == Ok(State(i + max, 1, 0.0, Rows(other, fn, done + [Window(i, max)])))
  {
    RowsSnoc(other, fn, done, Window(i, max));
  }

  /** A window of ones still below `max` at the last row: the final step
      adds its row at the bottom. */
  lemma OnesLast(other: Matrix, max: int, col: nat, fn: Reducer, i: nat, j: nat, done: seq<Window>)
    requires col < other.width && Ones(other, col)
    requires 1 <= j < max && i + j == |other.rows| && InRange(done, |other.rows|)
    ensures InRange(done + [Window(i, j)], |other.rows|)
    ensures Step(other, max, col, fn, State(i, j, (j - 1) as real, Rows(other, fn, done)))
            == Ok(State(i, j + 1, j as real, Rows(other, fn, done + [Window(i, j)])))
  {
    RowsSnoc(other, fn, done, Window(i, j));
  }

  /** A window of ones below `max` before the last row takes one more row. */
  lemma OnesGrow(other: Matrix, max: int, col: nat, fn: Reducer, i: nat, j: nat, done: seq<Window>)
    requires col < other.width && Ones(other, col)
    requires 1 <= j < max && i + j < |other.rows| && InRange(done, |other.rows|)
    ensures Step(other, max, col, fn, State(i, j, (j - 1) as real, Rows(other, fn, done)))
            == Ok(State(i, j + 1, j as real, Rows(other, fn, done)))
  {
  }

  /** The loop as written, from row `j` of the window starting at row `i`
      with the rows of the windows `done` written, ends with the rows of
      `done` and of the windows the rule still has to close. */
  predicate RunsAsIntended(other: Matrix, max: int, col: nat, fn: Reducer, i: nat, j: nat, done: seq<Window>)
    requires col < other.width && j >= 1 && i + j <= |other.rows| + 1
  {
    var ws := done + Scan(Column(other, col), max, i, j, (j - 1) as real);
    && InRange(done, |other.rows|)
    && InRange(ws, |other.rows|)
    && Run(other, max, col, fn, State(i, j, (j - 1) as real, Rows(other, fn, done))) == Ok(Rows(other, fn, ws))
  }

  /** On a column of ones with a whole `max` of at least 1 and a row count
      that is not a multiple of `max`, the loop as written writes each
      window's row at the bottom, as intended: every window has `max` rows,
      so `i/j` is the number of windows before it, and no window closes on
      the last row. */
  lemma {:induction false} RunOnes(other: Matrix, max: int, col: nat, fn: Reducer, i: nat, j: nat, done: seq<Window>)
    requires col < other.width && Ones(other, col)
    requires max >= 1 && |other.rows| % max != 0
    requires 1 <= j <= max && i + j <= |other.rows| + 1
    requires i % max == 0 && i / max == |done| && InRange(done, |other.rows|)
    ensures RunsAsIntended(other, max, col, fn, i, j, done)
    decreases |other.rows| + 1 - (i + j), 1
  {
    if i + j > |other.rows| {
      assert Scan(Column(other, col), max, i, j, (j - 1) as real) == [];
      assert done + [] == done;
    } else if j == max {
      RunOnesClose(other, max, col, fn, i, done);
    } else if i + j == |other.rows| {
      RunOnesLast(other, max, col, fn, i, j, done);
    } else {
      RunOnesGrow(other, max, col, fn, i, j, done);
    }
  }

  /** `RunOnes` when the window closes. */
  lemma {:induction false} RunOnesClose(other: Matrix, max: int, col: nat, fn: Reducer, i: nat, done: seq<Window>)
    requires col < other.width && Ones(other, col)
    requires max >= 1 && |other.rows| % max != 0
    requires i + max <= |other.rows|
    requires i % max == 0 && i / max == |done| && InRange(done, |other.rows|)
    ensures RunsAsIntended(other, max, col, fn, i, max, done)
    decreases |other.rows| + 1 - (i + max), 0
  {
    var vals, totl := Column(other, col), (max - 1) as real;
    var w, rest := Window(i, max), Scan(vals, max, i + max, 1, 0.0);
    assert vals[i + max - 1] == 1.0;
    DivStep(i, max);
    assert i + max != |other.rows|;
    OnesClose(other, max, col, fn, i, done);
    assert Scan(vals, max, i, max, totl) == [w] + rest;
    RunOnes(other, max, col, fn, i + max, 1, done + [w]);
    assert done + ([w] + rest) == (done + [w]) + rest;
  }

  /** `RunOnes` at the last row, the window still open. */
  lemma RunOnesLast(other: Matrix, max: int, col: nat, fn: Reducer, i: nat, j: nat, done: seq<Window>)
    requires col < other.width && Ones(other, col)
    requires 1 <= j < max && i + j == |other.rows| && InRange(done, |other.rows|)
    ensures RunsAsIntended(other, max, col, fn, i, j, done)
  {
    var vals, totl := Column(other, col), (j - 1) as real;
    assert vals[i + j - 1] == 1.0;
    OnesLast(other, max, col, fn, i, j, done);
    assert Scan(vals, max, i, j, totl) == [Window(i, j)];
  }

  /** `RunOnes` when the window takes one more row. */
  lemma {:induction false} RunOnesGrow(other: Matrix, max: int, col: nat, fn: Reducer, i: nat, j: nat, done: seq<Window>)
    requires col < other.width && Ones(other, col)
    requires max >= 1 && |other.rows| % max != 0
    requires 1 <= j < max && i + j < |other.rows|
    requires i % max == 0 && i / max == |done| && InRange(done, |other.rows|)
    ensures RunsAsIntended(other, max, col, fn, i, j, done)
    decreases |other.rows| + 1 - (i + j), 0
  {
    var vals, totl := Column(other, col), (j - 1) as real;
    assert vals[i + j - 1] == 1.0;
    OnesGrow(other, max, col, fn, i, j, done);
    assert Scan(vals, max, i, j, totl) == Scan(vals, max, i, j + 1, totl + 1.0);
    RunOnes(other, max, col, fn, i, j + 1, done);
  }

  /** Why the original's tests of `Aggregate` pass: on a column of ones,
      with a whole `max` of at least 1 and a row count that is not a
      multiple of `max` (10 rows by 3, 54391 rows by 7), the code as written
      computes exactly the intended result. */
  lemma OnesAsIntended(max: int, col: nat, fn: Reducer, other: Matrix)
    requires col < other.width && Ones(other, col)
    requires max >= 1 && |other.rows| % max != 0
    ensures AsWritten(max, col, fn, other) == Ok(Aggregated(max, col, fn, other))
  {
    if max as real <= Total(Column(other, col)) {
      AggregatedRows(max, col, fn, other);
      assert Zeros(0, other.width) == Rows(other, fn, []);
      RunOnes(other, max, col, fn, 0, 1, []);
      assert [] + Scan(Column(other, col), max, 0, 1, 0.0) == Scan(Column(other, col), max, 0, 1, 0.0);
    }
  }

  /** The totals the original's test checks: on such a column of ones,
      `Aggregate` with the sum keeps every column's total (100 for the
      10×10 matrix of ones, 543910 for the 54391×10 one). */
  lemma OnesKeepTotals(max: int, col: nat, other: Matrix, j: nat)
    requires col < other.width && j < other.width && Ones(other, col)
    requires max >= 1 && |other.rows| % max != 0
    ensures AsWritten(max, col, Sum, other).Ok? && AsWritten(max, col, Sum, other).value.width == other.width
    ensures Total(Column(AsWritten(max, col, Sum, other).value, j)) == Total(Column(other, j))
  {
    OnesAsIntended(max, col, Sum, other);
    AggregatedSum(max, col, other, j);
  }
}
