/** The duration window grouper of package `types` (types/grouping.go): a
    "group by" configuration naming a timestamp column and a maximum
    duration, its text form `Name,Index,Duration`, and the scan that cuts a
    matrix into contiguous windows of rows. */
module Grouping {
  import opened Base
  import opened GoStrings
  import opened Mat

  /** One second in `time.Duration` units (nanoseconds). */
  const Second: int := 1_000_000_000

  /** Seconds from Go's zero `time.Time` (1 January of year 1, UTC) to the
      Unix epoch; `time.Unix(s, 0)` is stored as `s` plus this offset. */
  const UnixToInternal: int := 62_135_596_800

  /** Name of the timestamp column, its index, and the maximum duration of a
      window in nanoseconds. */
  datatype Grouping = Grouping(name: string, index: int, max: Int64)

  // ---------------------------------------------------------------------
  // Clock readings

  /** Truncation toward zero, as a float-to-integer conversion does. */
  function Trunc(x: real): (t: int)
    ensures x >= 0.0 ==> t as real <= x < t as real + 1.0
    ensures x < 0.0 ==> t as real - 1.0 < x <= t as real
  {
    if x >= 0.0 then x.Floor else -((-x).Floor)
  }

  /** `int64(x)`: truncation when the value fits; out of range, Go leaves the
      result to the platform, and amd64 yields the smallest int64. */
  function Int64Of(x: real): Int64
  {
    var t := Trunc(x);
    if MinInt64 <= t <= MaxInt64 then t else MinInt64
  }

  /** The seconds field of `time.Unix(int64(x), 0)`, counted from the zero
      time; the offset is added in int64 arithmetic. */
  function Clock(x: real): Int64
  {
    Add64(Int64Of(x), UnixToInternal)
  }

  /** `current.Sub(previous)` for whole-second times: the difference in
      nanoseconds (`Second` of them per second), clamped to the int64 range
      when it overflows. */
  function Elapsed(current: Int64, previous: Int64): Int64
  {
    Saturate64((current - previous) * 1_000_000_000)
  }

  /** The clock readings of the grouping column in the first n rows. */
  function ClocksTo(m: Matrix, index: int, n: nat): (cl: seq<Int64>)
    requires n <= |m.rows| && (n > 0 ==> 0 <= index < m.width)
    ensures |cl| == n
  {
    if n == 0 then [] else ClocksTo(m, index, n - 1) + [Clock(m.rows[n - 1][index])]
  }

  /** The clock readings of the grouping column, row by row. */
  function Clocks(m: Matrix, index: int): (cl: seq<Int64>)
    requires |m.rows| > 0 ==> 0 <= index < m.width
    ensures |cl| == |m.rows|
  {
    ClocksTo(m, index, |m.rows|)
  }

  /** Reading k is the clock of row k. */
  lemma {:induction false} ClockAt(m: Matrix, index: int, n: nat, k: nat)
    requires k < n <= |m.rows| && 0 <= index < m.width
    ensures ClocksTo(m, index, n)[k] == Clock(m.rows[k][index])
  {
    if k < n - 1 {
      ClockAt(m, index, n - 1, k);
    }
  }

  /** The duration added at row k: `previous` is the zero time before the
      first row, and afterwards always the row just before, whether or not a
      window closed there. */
  function Step(cl: seq<Int64>, k: nat): Int64
    requires k < |cl|
  {
    Elapsed(cl[k], Prior(cl, k))
  }

  /** The reading before row k: the zero time before the first row. */
  function Prior(cl: seq<Int64>, k: nat): Int64
    requires k < |cl|
  {
    if k == 0 then 0 else cl[k - 1]
  }

  /** The accumulated duration of a window that starts at row s, after row k
      has been added (int64 addition, wrapping on overflow). */
  function Acc(cl: seq<Int64>, s: nat, k: nat): Int64
    requires s <= k < |cl|
    decreases k - s
  {
    Add64(if k == s then 0 else Acc(cl, s, k - 1), Step(cl, k))
  }

  // ---------------------------------------------------------------------
  // The scan, as a function of the clock readings

  /** `ends` is a strictly increasing list of row bounds above `s`, the last
      one at most `n`. */
  predicate Chain(s: nat, ends: seq<nat>, n: nat)
    decreases |ends|
  {
    |ends| == 0 || (s < ends[0] <= n && Chain(ends[0], ends[1..], n))
  }

  /** The exclusive end rows of the windows the scan closes from row k on,
      entering row k with accumulated duration `dur`. */
  function Scan(cl: seq<Int64>, max: Int64, k: nat, dur: Int64): (ends: seq<nat>)
    requires k <= |cl|
    ensures Chain(k, ends, |cl|)
    decreases |cl| - k
  {
    if k == |cl| then []
    else
      var d := Add64(dur, Step(cl, k));
      if d >= max then [k + 1] + Scan(cl, max, k + 1, 0)
      else Scan(cl, max, k + 1, d)
  }

  /** The end rows of the windows `Group` emits. */
  function Ends(cl: seq<Int64>, max: Int64): (ends: seq<nat>)
    ensures Chain(0, ends, |cl|)
  {
    Scan(cl, max, 0, 0)
  }

  /** The windows of `m` whose end rows are `ends`, the first starting at
      row `s` and each later one where the one before ended. */
  function WindowsFrom(m: Matrix, s: nat, ends: seq<nat>): (views: seq<Matrix>)
    requires Chain(s, ends, |m.rows|)
    ensures |views| == |ends|
    ensures forall w | 0 <= w < |views| :: |views[w].rows| > 0 && views[w].width == m.width
    decreases |ends|
  {
    if |ends| == 0 then []
    else [RowsView(m, s, ends[0] - s)] + WindowsFrom(m, ends[0], ends[1..])
  }

  /** Window w of `WindowsFrom` holds the rows from the end of window w-1
      (or from row `s`) up to its own end, and at least one row. */
  lemma {:induction false} WindowAt(m: Matrix, s: nat, ends: seq<nat>, w: nat)
    requires Chain(s, ends, |m.rows|) && w < |ends|
    decreases w
    ensures var start := if w == 0 then s else ends[w - 1];
            start < ends[w] <= |m.rows| && WindowsFrom(m, s, ends)[w].rows == m.rows[start..ends[w]]
  {
    if w > 0 {
      WindowAt(m, ends[0], ends[1..], w - 1);
    }
  }

  // ---------------------------------------------------------------------
  // The operations

  /** `Grouping.Group`: scans the rows in order, adding to the accumulated
      duration the time since the previous row; the first row at which the
      total reaches `Max` closes the current window, which is emitted, and
      the total restarts at zero. */
  method Group(g: Grouping, m: Matrix) returns (views: seq<Matrix>)
    requires |m.rows| > 0 ==> 0 <= g.index < m.width
    ensures views == WindowsFrom(m, 0, Ends(Clocks(m, g.index), g.max))
  {
    var r := |m.rows|;
    ghost var cl := Clocks(m, g.index);
    views := [];
    var previous: Int64 := 0;
    var duration: Int64 := 0;
    var i, j := 0, 1;
    ghost var k: nat := 0;
    while i + j <= r
      invariant 1 <= j && k == i + j - 1 <= r
      invariant k < r ==> previous == Prior(cl, k)
      invariant views + WindowsFrom(m, i, Scan(cl, g.max, k, duration))
                == WindowsFrom(m, 0, Ends(cl, g.max))
      decreases r + 1 - (i + j)
    {
      ghost var views0, i0, j0, duration0, previous0 := views, i, j, duration, previous;
      var view := RowsView(m, i, j);
      // the last row of the view is row i + j - 1 of m
      var current := LastClock(view, g.index, m, i + j - 1);
      duration := Add64(duration, Elapsed(current, previous));
      if duration >= g.max {
        views := views + [view];
        i, j := i + j, 0;
        duration := 0;
      }
      previous := current;
      j := j + 1;
      k := k + 1;
      Advance(m, cl, g.max, views0, i0, j0, duration0, current, previous0, views, i, k, duration);
    }
    assert Scan(cl, g.max, k, duration) == [];
  }

  /** `time.Unix(int64(view.At(view.Len() - 1, index)), 0)`: the clock of
      the last row of `view`, which is row k of `m`. */
  method LastClock(view: Matrix, index: int, ghost m: Matrix, ghost k: nat) returns (t: Int64)
    requires 0 < |view.rows| && 0 <= index < view.width == m.width
    requires k < |m.rows| && view.rows[|view.rows| - 1] == m.rows[k]
    ensures t == Clocks(m, index)[k]
  {
    t := Clock(view.rows[|view.rows| - 1][index]);
    ClockAt(m, index, |m.rows|, k);
  }

  /** Row k - 1, the last so far of a window that started at row i0, after
      the windows `views0`: either it closes that window, which joins the
      list, and a new window starts at row k, or the total grows; either way
      the windows still to come complete the same list. */
  lemma Advance(m: Matrix, cl: seq<Int64>, max: Int64,
                views0: seq<Matrix>, i0: nat, j0: nat, dur0: Int64, current: Int64, previous: Int64,
                views: seq<Matrix>, i: nat, k: nat, dur: Int64)
    requires |cl| == |m.rows| && 1 <= j0 && i0 + j0 == k && k <= |cl|
    requires current == cl[k - 1] && previous == Prior(cl, k - 1)
    requires views0 + WindowsFrom(m, i0, Scan(cl, max, k - 1, dur0)) == WindowsFrom(m, 0, Ends(cl, max))
    requires Add64(dur0, Elapsed(current, previous)) >= max ==>
               views == views0 + [RowsView(m, i0, j0)] && i == k && dur == 0
    requires Add64(dur0, Elapsed(current, previous)) < max ==>
               views == views0 && i == i0 && dur == Add64(dur0, Elapsed(current, previous))
    ensures i <= k
    ensures views + WindowsFrom(m, i, Scan(cl, max, k, dur)) == WindowsFrom(m, 0, Ends(cl, max))
  {
    if Add64(dur0, Elapsed(current, previous)) >= max {
      var rest := Scan(cl, max, k, 0);
      assert Scan(cl, max, k - 1, dur0) == [k] + rest;
      assert ([k] + rest)[1..] == rest;
      assert views0 + ([RowsView(m, i0, j0)] + WindowsFrom(m, k, rest))
             == views0 + [RowsView(m, i0, j0)] + WindowsFrom(m, k, rest);
    }
  }

  /** `NewGrouping`: the fields of `Name,Index,Duration`; a missing or
      unparsable index or duration is left at zero (Go's parsers give zero on
      a syntax error and the errors are ignored). */
  function NewGrouping(arg: string, codecs: Codecs): (g: Grouping)
    ensures g.name == Split(arg, ',')[0]
    ensures g.name <= arg && ',' !in g.name
    ensures |Split(arg, ',')| < 2 ==> g.index == 0
    ensures |Split(arg, ',')| >= 2 ==> g.index == codecs.parseInt(Split(arg, ',')[1]).value
    ensures |Split(arg, ',')| < 3 ==> g.max == 0
    ensures |Split(arg, ',')| >= 3 ==> g.max == codecs.parseDuration(Split(arg, ',')[2]).value
  {
    var split := Split(arg, ',');
    var index := if |split| >= 2 then codecs.parseInt(split[1]).value else 0;
    var max := if |split| >= 3 then codecs.parseDuration(split[2]).value else 0;
    SplitFirst(arg, ',');
    Grouping(split[0], index, max)
  }

  /** `Grouping.String`: `Name,Index,Duration`, the duration in Go's text
      form. */
  function String(g: Grouping, codecs: Codecs): (s: string)
    ensures s == Join([g.name, Itoa(g.index), codecs.formatDuration(g.max)], ',')
  {
    var index, max := Itoa(g.index), codecs.formatDuration(g.max);
    assert Join([index, max], ',') == index + "," + max;
    assert [g.name, index, max][1..] == [index, max];
    g.name + "," + index + "," + max
  }

  // ---------------------------------------------------------------------
  // Properties

  /** The windows closed by the scan, described without the scan: entering
      at row k inside a window that started at row s (every row of it so far
      below `Max`), a window ends at the first row where the accumulated
      duration reaches `Max`, the next one starts just after it, and the rows
      after the last end never reach `Max`. */
  ghost predicate Closes(cl: seq<Int64>, max: Int64, s: nat, ends: seq<nat>)
    requires s <= |cl|
    requires Chain(s, ends, |cl|)
    decreases |ends|
  {
    if |ends| == 0 then
      forall q | s <= q < |cl| :: Acc(cl, s, q) < max
    else
      && Acc(cl, s, ends[0] - 1) >= max
      && (forall q | s <= q < ends[0] - 1 :: Acc(cl, s, q) < max)
      && Closes(cl, max, ends[0], ends[1..])
  }

  /** A window that closes at row k, followed by windows that satisfy
      `Closes` from row k + 1. */
  lemma ClosesCons(cl: seq<Int64>, max: Int64, s: nat, k: nat, rest: seq<nat>)
    requires s <= k < |cl| && Chain(s, [k + 1] + rest, |cl|) && Chain(k + 1, rest, |cl|)
    requires Acc(cl, s, k) >= max && forall q | s <= q < k :: Acc(cl, s, q) < max
    requires Closes(cl, max, k + 1, rest)
    ensures Closes(cl, max, s, [k + 1] + rest)
  {
    var ends := [k + 1] + rest;
    assert ends[0] - 1 == k && ends[1..] == rest;
  }

  lemma {:induction false} ScanCloses(cl: seq<Int64>, max: Int64, s: nat, k: nat, dur: Int64)
    requires s <= k <= |cl|
    requires dur == if k == s then 0 else Acc(cl, s, k - 1)
    requires forall q | s <= q < k :: Acc(cl, s, q) < max
    ensures Closes(cl, max, s, Scan(cl, max, k, dur))
    decreases |cl| - k
  {
    if k == |cl| {
      assert Scan(cl, max, k, dur) == [];
    } else {
      var d := Add64(dur, Step(cl, k));
      assert d == Acc(cl, s, k);
      if d >= max {
        var rest := Scan(cl, max, k + 1, 0);
        ScanCloses(cl, max, k + 1, k + 1, 0);
        ClosesCons(cl, max, s, k, rest);
        assert Scan(cl, max, k, dur) == [k + 1] + rest;
      } else {
        ScanCloses(cl, max, s, k + 1, d);
        assert Scan(cl, max, k, dur) == Scan(cl, max, k + 1, d);
      }
    }
  }

  /** `Group` emits exactly the windows `Closes` describes: each ends at the
      first row where the accumulated duration reaches `Max`, the next starts
      on the following row, and rows after the last closed window, which
      never reach `Max`, are dropped. */
  lemma GroupCloses(cl: seq<Int64>, max: Int64)
    ensures Closes(cl, max, 0, Ends(cl, max))
  {
    ScanCloses(cl, max, 0, 0, 0);
  }

  /** Two end lists that both satisfy `Closes` are the same: the description
      pins the windows down. */
  lemma {:induction false} ClosesUnique(cl: seq<Int64>, max: Int64, s: nat, e1: seq<nat>, e2: seq<nat>)
    requires s <= |cl| && Chain(s, e1, |cl|) && Chain(s, e2, |cl|)
    requires Closes(cl, max, s, e1) && Closes(cl, max, s, e2)
    ensures e1 == e2
    decreases |e1|
  {
    if |e1| > 0 && |e2| > 0 && e1[0] == e2[0] {
      ClosesUnique(cl, max, e1[0], e1[1..], e2[1..]);
      assert e1 == [e1[0]] + e1[1..] && e2 == [e2[0]] + e2[1..];
    }
  }

  /** The windows `Group` returns are non-empty, contiguous and in row order:
      window 0 starts at row 0 and every later one on the row after the
      previous one ended. */
  lemma GroupWindows(m: Matrix, index: int, max: Int64, w: nat)
    requires |m.rows| > 0 ==> 0 <= index < m.width
    requires w < |Ends(Clocks(m, index), max)|
    ensures var ends := Ends(Clocks(m, index), max);
            var start := if w == 0 then 0 else ends[w - 1];
            start < ends[w] <= |m.rows| &&
            WindowsFrom(m, 0, ends)[w].rows == m.rows[start..ends[w]]
  {
    WindowAt(m, 0, Ends(Clocks(m, index), max), w);
  }

  /** The first step is measured from the zero time: for a timestamp at or
      after the Unix epoch that difference exceeds the int64 range, so the
      first row closes a window on its own. */
  lemma FirstRowAlone(cl: seq<Int64>, max: Int64)
    requires |cl| > 0 && cl[0] >= UnixToInternal
    ensures |Ends(cl, max)| > 0 && Ends(cl, max)[0] == 1
  {
    assert Step(cl, 0) == MaxInt64;
  }

  /** Ten rows one second apart, stamped from 31 December 2000 00:00:01 UTC,
      grouped by two seconds: five windows, rows 0, 1-2, 3-4, 5-6 and 7-8;
      the last row never closes a window. */
  lemma TenRowsByTwoSeconds()
    ensures Ends(seq(10, k => Clock((978_220_801 + k) as real)), 2 * Second) == [1, 3, 5, 7, 9]
  {
    var cl := seq(10, k => Clock((978_220_801 + k) as real));
    forall k | 0 <= k < 10 ensures cl[k] == 978_220_801 + k + UnixToInternal {
      assert Trunc((978_220_801 + k) as real) == 978_220_801 + k;
    }
    forall k | 0 < k < 10 ensures Step(cl, k) == Second {}
    assert Step(cl, 0) == MaxInt64;
    var max: Int64 := 2 * Second;
    assert Scan(cl, max, 9, 0) == [];
    assert Scan(cl, max, 8, Second) == [9];
    assert Scan(cl, max, 7, 0) == [9];
    assert Scan(cl, max, 6, Second) == [7, 9];
    assert Scan(cl, max, 5, 0) == [7, 9];
    assert Scan(cl, max, 4, Second) == [5, 7, 9];
    assert Scan(cl, max, 3, 0) == [5, 7, 9];
    assert Scan(cl, max, 2, Second) == [3, 5, 7, 9];
    assert Scan(cl, max, 1, 0) == [3, 5, 7, 9];
    assert Scan(cl, max, 0, 0) == [1, 3, 5, 7, 9];
  }

  /** `NewGrouping` reads back what `String` writes, for a name without a
      comma and Go parsers that invert their formatters at these values. */
  lemma StringRoundTrip(g: Grouping, codecs: Codecs)
    requires ',' !in g.name && ',' !in codecs.formatDuration(g.max)
    requires MinInt64 <= g.index <= MaxInt64
    requires codecs.parseInt(Itoa(g.index)).value == g.index
    requires codecs.parseDuration(codecs.formatDuration(g.max)).value == g.max
    ensures NewGrouping(String(g, codecs), codecs) == g
  {
    assert ',' !in Itoa(g.index);
    ParseFields(g.name, Itoa(g.index), codecs.formatDuration(g.max), codecs);
  }

  /** `NewGrouping` reads three comma-free fields as the name, the index and
      the duration. */
  lemma ParseFields(a: string, b: string, d: string, codecs: Codecs)
    requires ',' !in a && ',' !in b && ',' !in d
    ensures NewGrouping(a + [','] + b + [','] + d, codecs)
            == Grouping(a, codecs.parseInt(b).value, codecs.parseDuration(d).value)
  {
    var tail := b + [','] + d;
    assert a + [','] + b + [','] + d == a + [','] + tail;
    SplitCons(a, ',', tail);
    SplitCons(b, ',', d);
    assert Split(d, ',') == [d] by { assert IndexOf(d, ',') == -1; }
    assert Split(a + [','] + tail, ',') == [a, b, d];
  }

  /** `NewGrouping("Duration,0,2s")` names the column "Duration" at index 0
      with a two-second maximum. */
  lemma DurationExample(codecs: Codecs)
    requires codecs.parseInt("0").value == 0
    requires codecs.parseDuration("2s").value == 2 * Second
    ensures NewGrouping("Duration,0,2s", codecs) == Grouping("Duration", 0, 2 * Second)
  {
    ParseFields("Duration", "0", "2s", codecs);
    assert "Duration" + [','] + "0" + [','] + "2s" == "Duration,0,2s";
  }

  /** `String` writes that grouping back as "Duration,0,2s". */
  lemma DurationString(codecs: Codecs)
    requires codecs.formatDuration(2 * Second) == "2s"
    ensures String(Grouping("Duration", 0, 2 * Second), codecs) == "Duration,0,2s"
  {
    assert Itoa(0) == "0";
  }
}
