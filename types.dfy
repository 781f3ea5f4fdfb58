/** Package `types`, file types/types.go: a dataset (name, ordered column
    names, and a matrix of values that may be missing), read row by row with
    `Next`; and the older `Query` shape, built by `NewQuery(args, function,
    max, col)`. */
module Types {
  import opened Base
  import opened GoStrings
  import opened Mat
  import opened Reduce
  import StoreTypes
  import MemReader
  import StoreMatrix
  import TypesFunction

  datatype Dataset = Dataset(name: string, columns: seq<string>, mtx: Option<Matrix>)

  /** `Dataset.Len`: the number of rows, 0 without a matrix. */
  function Len(ds: Dataset): (n: nat)
    ensures ds.mtx.None? ==> n == 0
    ensures ds.mtx.Some? ==> n == |ds.mtx.value.rows|
  {
    if ds.mtx.Some? then |ds.mtx.value.rows| else 0
  }

  /** `Dataset.CPos`: the position of the first column called `name`, or -1
      when there is none. */
  function CPos(ds: Dataset, name: string): (pos: int)
    ensures -1 <= pos < |ds.columns|
    ensures pos == -1 <==> name !in ds.columns
    ensures pos >= 0 ==> ds.columns[pos] == name && name !in ds.columns[..pos]
  {
    StoreTypes.CPos(ds.columns, name)
  }

  /** A `*Dataset` as its `Next` method sees it: the dataset and the index of
      the next row to hand out. */
  class Rows {
    const ds: Dataset
    var index: nat

    constructor (ds: Dataset)
      ensures this.ds == ds && index == 0
    {
      this.ds := ds;
      index := 0;
    }

    /** `Dataset.Next`: without a matrix, `ErrNoData`; past the last row,
        end of input, and the index goes back to 0 so that the next call
        starts over; otherwise the row at the index, which then advances. */
    method Next() returns (r: Result<seq<real>>)
      modifies this
      ensures ds.mtx.None? ==> r == Err(NoData) && index == old(index)
      ensures ds.mtx.Some? && old(index) >= Len(ds) ==> r == Err(Eof) && index == 0
      ensures ds.mtx.Some? && old(index) < Len(ds) ==>
                r == Ok(ds.mtx.value.rows[old(index)]) && index == old(index) + 1
      ensures ds.mtx.Some? ==> r == StoreTypes.Reply(MemReader.Replies(ds.mtx.value.rows), old(index))
    {
      if ds.mtx.None? {
        return Err(NoData);
      }
      var n := |ds.mtx.value.rows|;
      if index >= n {
        index := 0;
        return Err(Eof);
      }
      var row := ds.mtx.value.rows[index];
      index := index + 1;
      return Ok(row);
    }
  }

  /** Read with `Next` from the first row to the end, a dataset with a
      matrix gives back exactly that matrix's rows, each as wide as the
      matrix. */
  lemma ReadBack(m: Matrix)
    ensures StoreMatrix.Collect(MemReader.Replies(m.rows), 0, m.width) == Ok(m.rows)
  {
    MemReader.ReadAllRows(m.rows, m.width);
  }

  // ---------------------------------------------------------------------
  // Query

  /** The older `Query`: dataset names in argument order, the columns of
      each name, the function (`None` for an unknown name) with its name,
      and the `Max` and `Col` settings. */
  datatype Query = Query(
    datasets: seq<string>,
    columns: map<string, seq<string>>,
    fn: Option<Reducer>,
    fnStr: string,
    max: int,
    col: int)

  /** `Query.Len`. */
  function QueryLen(q: Query): nat
  {
    |q.datasets|
  }

  /** The function a name selects: exactly `sum`, `min`, `max` or `avg`. */
  function FunctionOf(name: string): Option<Reducer>
  {
    if name == "sum" then Some(Sum)
    else if name == "min" then Some(Min)
    else if name == "max" then Some(Max)
    else if name == "avg" then Some(Avg)
    else None
  }

  /** The exact names select what the case-insensitive dispatch of
      types/functions.go selects for them. */
  lemma FunctionOfAgrees(name: string)
    requires FunctionOf(name).Some?
    ensures TypesFunction.Choose(name) == FunctionOf(name).value
  {
    ToLowerKeepsLower(name);
  }

  /** The column map `NewQuery` builds from `args`: for each name, the
      fields after the first of the last argument with that name. */
  function ColumnsMap(args: seq<string>): map<string, seq<string>>
  {
    if |args| == 0 then map[]
    else
      var split := Split(args[|args| - 1], ',');
      ColumnsMap(args[..|args| - 1])[split[0] := split[1..]]
  }

  /** One pass of `NewQuery`'s loop: the argument's first field, and the
      column map with that name now mapped to the other fields. */
  method AddArg(columns: map<string, seq<string>>, arg: string) returns (name: string, out: map<string, seq<string>>)
    ensures name == Split(arg, ',')[0] && out == columns[name := Split(arg, ',')[1..]]
  {
    var split := Split(arg, ',');
    name := "";
    out := columns;
    if |split| >= 1 {
      name := split[0];
      out := out[split[0] := []];
    }
    if |split| > 1 {
      UpdateTwice(columns, split[0], [], split[1..]);
      out := out[split[0] := split[1..]];
    } else {
      assert split[1..] == [];
    }
  }

  /** A key written twice keeps the second value. */
  lemma UpdateTwice<K, V>(m: map<K, V>, k: K, a: V, b: V)
    ensures m[k := a][k := b] == m[k := b]
  {
  }

  lemma ColumnsMapStep(args: seq<string>, i: nat)
    requires i < |args|
    ensures ColumnsMap(args[..i + 1]) == ColumnsMap(args[..i])[Split(args[i], ',')[0] := Split(args[i], ',')[1..]]
  {
    assert args[..i + 1][..i] == args[..i];
  }

  /** `NewQuery`: the first field of each argument, in order and with
      repeats; the column map; the function chosen by exact name. */
  method NewQuery(args: seq<string>, fnName: string, max: int, col: int) returns (q: Query)
    ensures QueryLen(q) == |args|
    ensures forall i | 0 <= i < |args| :: q.datasets[i] == Split(args[i], ',')[0]
    ensures q.columns == ColumnsMap(args)
    ensures q.fn == FunctionOf(fnName) && q.fnStr == fnName && q.max == max && q.col == col
  {
    var datasets := new string[|args|](_ => "");
    var columns: map<string, seq<string>> := map[];
    for i := 0 to |args|
      invariant forall k | 0 <= k < i :: datasets[k] == Split(args[k], ',')[0]
      invariant columns == ColumnsMap(args[..i])
    {
      ColumnsMapStep(args, i);
      var name;
      name, columns := AddArg(columns, args[i]);
      datasets[i] := name;
    }
    assert args[..|args|] == args;
    var fn: Option<Reducer> := None;
    if fnName == "sum" {
      fn := Some(Sum);
    } else if fnName == "min" {
      fn := Some(Min);
    } else if fnName == "max" {
      fn := Some(Max);
    } else if fnName == "avg" {
      fn := Some(Avg);
    }
    q := Query(datasets[..], columns, fn, fnName, max, col);
  }

  /** The column map has a list for exactly the names of the arguments, and
      a name's list is that of the last argument with that name. */
  lemma {:induction false} ColumnsMapLastWins(args: seq<string>, k: nat)
    requires k < |args|
    requires forall l | k < l < |args| :: Split(args[l], ',')[0] != Split(args[k], ',')[0]
    ensures Split(args[k], ',')[0] in ColumnsMap(args)
    ensures ColumnsMap(args)[Split(args[k], ',')[0]] == Split(args[k], ',')[1..]
  {
    var n := |args| - 1;
    var init := args[..n];
    var last, mine := Split(args[n], ','), Split(args[k], ',');
    assert ColumnsMap(args) == ColumnsMap(init)[last[0] := last[1..]];
    if k < n {
      assert init[k] == args[k];
      forall l | k < l < |init| ensures Split(init[l], ',')[0] != Split(init[k], ',')[0] {
        assert init[l] == args[l];
      }
      ColumnsMapLastWins(init, k);
      assert mine[0] in ColumnsMap(init) && ColumnsMap(init)[mine[0]] == mine[1..];
      assert last[0] != mine[0];
    }
  }

  lemma {:induction false} ColumnsMapKeys(args: seq<string>)
    ensures forall name :: name in ColumnsMap(args) <==> exists k | 0 <= k < |args| :: Split(args[k], ',')[0] == name
  {
    if |args| > 0 {
      var init := args[..|args| - 1];
      ColumnsMapKeys(init);
      assert forall k | 0 <= k < |init| :: init[k] == args[k];
    }
  }

  /** `Query.Columns(name)`: a copy of that name's columns; none for a name
      the query does not have. */
  method Columns(q: Query, name: string) returns (result: seq<string>)
    ensures name in q.columns ==> result == q.columns[name]
    ensures name !in q.columns ==> result == []
  {
    result := [];
    if name in q.columns {
      var columns := q.columns[name];
      for k := 0 to |columns|
        invariant result == columns[..k]
      {
        assert columns[..k + 1] == columns[..k] + [columns[k]];
        result := result + [columns[k]];
      }
      assert columns[..|columns|] == columns;
    }
  }

  /** The columns of the names `names`, in that order (none for a name
      without a list). */
  function FlatOf(names: seq<string>, columns: map<string, seq<string>>): seq<string>
  {
    if |names| == 0 then []
    else
      var last := names[|names| - 1];
      FlatOf(names[..|names| - 1], columns) + (if last in columns then columns[last] else [])
  }

  /** `Query.ColumnsFlat`: the columns of every dataset name in `Datasets`
      order, a repeated name contributing its list each time. */
  method ColumnsFlat(q: Query) returns (result: seq<string>)
    ensures result == FlatOf(q.datasets, q.columns)
  {
    result := [];
    for i := 0 to |q.datasets|
      invariant result == FlatOf(q.datasets[..i], q.columns)
    {
      assert q.datasets[..i + 1][..i] == q.datasets[..i];
      var name := q.datasets[i];
      var columns := if name in q.columns then q.columns[name] else [];
      for k := 0 to |columns|
        invariant result == FlatOf(q.datasets[..i], q.columns) + columns[..k]
      {
        assert columns[..k + 1] == columns[..k] + [columns[k]];
        result := result + [columns[k]];
      }
      assert columns[..|columns|] == columns;
    }
    assert q.datasets[..|q.datasets|] == q.datasets;
  }

  /** The columns of two name lists one after the other are the columns of
      the first list followed by those of the second. */
  lemma {:induction false} FlatOfAppend(a: seq<string>, b: seq<string>, columns: map<string, seq<string>>)
    ensures FlatOf(a + b, columns) == FlatOf(a, columns) + FlatOf(b, columns)
    decreases |b|
  {
    if |b| == 0 {
      assert a + b == a;
    } else {
      var n := |b| - 1;
      assert (a + b)[..|a + b| - 1] == a + b[..n];
      FlatOfAppend(a, b[..n], columns);
    }
  }
}
