/** Package `types`, file types/query.go: a query names datasets and the
    columns wanted from each, a function, and optionally a grouping that
    turns the combined matrix into one reduced row per time window. */
module TypesQuery {
  import opened Base
  import opened GoStrings
  import opened Mat
  import opened Reduce
  import opened Grouping
  import opened TypesFunction

  /** One entry of `Query.Datasets`. */
  datatype Selector = Selector(name: string, columns: seq<string>)

  datatype Query = Query(datasets: seq<Selector>, fn: Function, grouping: Option<Grouping>)

  /** `Query.Len`. */
  function Len(q: Query): nat
  {
    |q.datasets|
  }

  /** A `name,column,...` argument: the name is its first comma field, the
      columns the others (none for a bare name). Name and columns hold no
      comma, and joined with commas they give the argument back. */
  function SelectorOf(arg: string): (sel: Selector)
    ensures ',' !in sel.name && forall k | 0 <= k < |sel.columns| :: ',' !in sel.columns[k]
    ensures Join([sel.name] + sel.columns, ',') == arg
  {
    var split := Split(arg, ',');
    assert split == [split[0]] + split[1..];
    Selector(split[0], split[1..])
  }

  /** `NewQuery`: one selector per argument, in order; the function carries
      the given name; a grouping exactly when the grouping text is not
      empty. */
  method NewQuery(args: seq<string>, fnName: string, grouping: string, codecs: Codecs) returns (q: Query)
    ensures Len(q) == |args|
    ensures forall i | 0 <= i < |args| :: q.datasets[i] == SelectorOf(args[i])
    ensures q.fn == Function(fnName)
    ensures q.grouping.Some? <==> grouping != ""
    ensures q.grouping.Some? ==> q.grouping.value == NewGrouping(grouping, codecs)
  {
    var datasets := new Selector[|args|](_ => Selector("", []));
    var g: Option<Grouping> := None;
    if grouping != "" {
      g := Some(NewGrouping(grouping, codecs));
    }
    for i := 0 to |args|
      invariant forall k | 0 <= k < i :: datasets[k] == SelectorOf(args[k])
    {
      datasets[i] := ParseSelector(args[i]);
    }
    q := Query(datasets[..], Function(fnName), g);
  }

  /** One pass of `NewQuery`'s loop: the name is the first comma field
      (empty if there is none), the columns the others. */
  method ParseSelector(arg: string) returns (sel: Selector)
    ensures sel == SelectorOf(arg)
  {
    var split := Split(arg, ',');
    var name := "";
    var columns: seq<string> := [];
    if |split| >= 1 {
      name := split[0];
    }
    if |split| > 1 {
      columns := split[1..];
    }
    sel := Selector(name, columns);
  }

  /** The columns of `sels`, selector after selector. */
  function Flat(sels: seq<Selector>): seq<string>
  {
    if |sels| == 0 then [] else Flat(sels[..|sels| - 1]) + sels[|sels| - 1].columns
  }

  lemma {:induction false} FlatAppend(a: seq<Selector>, b: seq<Selector>)
    ensures Flat(a + b) == Flat(a) + Flat(b)
    decreases |b|
  {
    if |b| == 0 {
      assert a + b == a;
    } else {
      var n := |b| - 1;
      assert (a + b)[..|a + b| - 1] == a + b[..n];
      FlatAppend(a, b[..n]);
    }
  }

  /** `Query.Columns`: every selector's columns, in selector order. */
  method Columns(q: Query) returns (columns: seq<string>)
    ensures columns == Flat(q.datasets)
  {
    columns := [];
    for i := 0 to |q.datasets|
      invariant columns == Flat(q.datasets[..i])
    {
      assert q.datasets[..i + 1][..i] == q.datasets[..i];
      for k := 0 to |q.datasets[i].columns|
        invariant columns == Flat(q.datasets[..i]) + q.datasets[i].columns[..k]
      {
        assert q.datasets[i].columns[..k + 1] == q.datasets[i].columns[..k] + [q.datasets[i].columns[k]];
        columns := columns + [q.datasets[i].columns[k]];
      }
      assert q.datasets[i].columns[..|q.datasets[i].columns|] == q.datasets[i].columns;
    }
    assert q.datasets[..|q.datasets|] == q.datasets;
  }

  /** The `q` value `String` builds for one selector: name and columns
      joined by commas, trailing commas removed. */
  function QValue(sel: Selector): (v: string)
    ensures v <= Join([sel.name] + sel.columns, ',')
  {
    TrimRight(Join([sel.name] + sel.columns, ','), ',')
  }

  /** The `q` value of a parsed argument is the argument without its
      trailing commas. */
  lemma QValueOfArg(arg: string)
    ensures QValue(SelectorOf(arg)) == TrimRight(arg, ',')
  {
  }

  /** A selector whose name and columns hold no comma and whose last column
      (if any) is not empty is read back unchanged from its `q` value. */
  lemma QValueRoundTrip(sel: Selector)
    requires ',' !in sel.name && forall k | 0 <= k < |sel.columns| :: ',' !in sel.columns[k]
    requires |sel.columns| > 0 ==> sel.columns[|sel.columns| - 1] != ""
    ensures SelectorOf(QValue(sel)) == sel
  {
    var parts := [sel.name] + sel.columns;
    var joined := Join(parts, ',');
    JoinLast(parts, ',');
    TrimRightNoTrailing(joined, ',');
    SplitJoin(parts, ',');
    assert parts[1..] == sel.columns;
  }

  /** A join of separator-free pieces whose last piece (after the first)
      is not empty does not end in the separator. */
  lemma {:induction false} JoinLast(parts: seq<string>, c: char)
    requires |parts| >= 1 && forall k | 0 <= k < |parts| :: c !in parts[k]
    requires |parts| > 1 ==> parts[|parts| - 1] != ""
    ensures var j := Join(parts, c); j == [] || j[|j| - 1] != c
    decreases |parts|
  {
    if |parts| > 1 {
      var tail := parts[1..];
      assert forall k | 0 <= k < |tail| :: tail[k] == parts[k + 1];
      if |tail| > 1 {
        JoinLast(tail, c);
      }
      assert Join(parts, c) == parts[0] + [c] + Join(tail, c);
    }
  }

  /** What `Query.Apply` gives: the matrix unchanged without a grouping;
      otherwise the query's function applied to the windows the grouping
      forms. */
  function Applied(q: Query, mx: Matrix): (r: Option<Matrix>)
    requires q.grouping.Some? && |mx.rows| > 0 ==> 0 <= q.grouping.value.index < mx.width
    ensures q.grouping.None? ==> r == Some(mx)
    ensures q.grouping.Some? ==>
              var g := q.grouping.value;
              r == TypesFunction.Applied(q.fn, WindowsFrom(mx, 0, Ends(Clocks(mx, g.index), g.max)))
  {
    match q.grouping
    case None => Some(mx)
    case Some(g) => TypesFunction.Applied(q.fn, WindowsFrom(mx, 0, Ends(Clocks(mx, g.index), g.max)))
  }

  /** With a grouping, the result has one row per window, as wide as the
      matrix, entry (i, j) being the function of column j of window i. */
  lemma AppliedCells(q: Query, mx: Matrix)
    requires q.grouping.Some? && |mx.rows| > 0 ==> 0 <= q.grouping.value.index < mx.width
    requires q.grouping.Some?
    ensures var g := q.grouping.value;
            var views := WindowsFrom(mx, 0, Ends(Clocks(mx, g.index), g.max));
            && (|views| == 0 ==> Applied(q, mx) == (if Choose(q.fn.name) == Avg then Some(Zeros(0, 0)) else None))
            && (|views| > 0 ==> Applied(q, mx).Some? && |Applied(q, mx).value.rows| == |views|
                                && Applied(q, mx).value.width == mx.width)
            && (|views| > 0 ==> forall i, j | 0 <= i < |views| && 0 <= j < mx.width ::
                                  Applied(q, mx).value.rows[i][j] == Eval(Choose(q.fn.name), Column(views[i], j)))
  {
  }

  /** `Query.Apply`. */
  method Apply(q: Query, mx: Matrix) returns (r: Option<Matrix>)
    requires q.grouping.Some? && |mx.rows| > 0 ==> 0 <= q.grouping.value.index < mx.width
    ensures r == Applied(q, mx)
  {
    if q.grouping.Some? {
      var g := q.grouping.value;
      var views := Group(g, mx);
      r := TypesFunction.Apply(q.fn, views);
      return;
    }
    r := Some(mx);
  }

  /** The `q` values of the selectors of `D0,x,y,z` and `D1,z`. */
  lemma QValueExample()
    ensures QValue(Selector("D0", ["x", "y", "z"])) == "D0,x,y,z"
    ensures QValue(Selector("D1", ["z"])) == "D1,z"
  {
    assert Join(["D0", "x", "y", "z"], ',') == "D0,x,y,z";
    assert ["D0"] + ["x", "y", "z"] == ["D0", "x", "y", "z"];
    assert Join(["D1", "z"], ',') == "D1,z";
    assert ["D1"] + ["z"] == ["D1", "z"];
  }

  /** The arguments `D0,x,y,z` and `D1,z` select columns x, y, z of D0 and z
      of D1. */
  lemma SelectorExample()
    ensures SelectorOf("D0,x,y,z") == Selector("D0", ["x", "y", "z"])
    ensures SelectorOf("D1,z") == Selector("D1", ["z"])
  {
    QValueExample();
    QValueRoundTrip(Selector("D0", ["x", "y", "z"]));
    QValueRoundTrip(Selector("D1", ["z"]));
  }

  /** Flattened, those selectors ask for x, y, z and z. */
  lemma FlatExample()
    ensures Flat([Selector("D0", ["x", "y", "z"]), Selector("D1", ["z"])]) == ["x", "y", "z", "z"]
  {
    var a := Selector("D0", ["x", "y", "z"]);
    var b := Selector("D1", ["z"]);
    assert [a, b][..1] == [a];
    assert [a][..0] == [];
  }
}
