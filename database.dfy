/** Package `store`, file store/database.go: the older Bolt store. Either
    bucket may be missing until the first `Write` creates it; a missing
    bucket is `None` here, a present one the map from dataset name to what
    it holds. Its `Query` reads a dataset once per selector, with no cache. */
module Database {
  import opened Base
  import opened Mat
  import opened GoStrings
  import opened Stack
  import StoreTypes
  import TypesQuery

  /** `store.Query`: a function name (never set), a dataset name and the
      columns wanted from it. */
  datatype Query = Query(fn: string, name: string, columns: seq<string>)

  /** `QueryFromArgs`: one query per argument, in order, split at commas as
      a selector argument is (the name is the first field, the columns the
      others). */
  method QueryFromArgs(args: seq<string>) returns (qs: seq<Query>)
    ensures |qs| == |args|
    ensures forall i | 0 <= i < |args| ::
              qs[i] == Query("", TypesQuery.SelectorOf(args[i]).name, TypesQuery.SelectorOf(args[i]).columns)
  {
    var q := new Query[|args|](_ => Query("", "", []));
    for i := 0 to |args|
      invariant forall k | 0 <= k < i ::
                  q[k] == Query("", TypesQuery.SelectorOf(args[k]).name, TypesQuery.SelectorOf(args[k]).columns)
    {
      var split := Split(args[i], ',');
      q[i] := Query("", split[0], split[1..]);
    }
    qs := q[..];
  }

  /** What `Read` hands back: a dataset, a matrix and an error, each
      possibly nil. */
  datatype Lookup = Lookup(ds: Option<StoreTypes.Dataset>, m: Option<Matrix>, err: Option<Error>)

  /** `Read`: without a datasets bucket, nothing and no error; a name with no
      dataset, `ErrNotFound`; a dataset without a matrices bucket or without
      a matrix, the dataset with `ErrNotFound`; else the dataset and its
      matrix. */
  function Read(datasets: Option<map<string, StoreTypes.Dataset>>, matrices: Option<map<string, Matrix>>, name: string)
    : (r: Lookup)
    ensures datasets.None? <==> r == Lookup(None, None, None)
    ensures r.err.None? <==> datasets.None? || (name in datasets.value && matrices.Some? && name in matrices.value)
    ensures r.err.Some? ==> r.err == Some(NotFound) && r.m.None?
    ensures datasets.Some? && name in datasets.value ==> r.ds == Some(datasets.value[name])
    ensures datasets.Some? && name !in datasets.value ==> r.ds.None?
    ensures r.err.None? && datasets.Some? ==> r.m == Some(matrices.value[name])
  {
    if datasets.None? then Lookup(None, None, None)
    else if name !in datasets.value then Lookup(None, None, Some(NotFound))
    else
      var ds := datasets.value[name];
      if matrices.None? || name !in matrices.value then Lookup(Some(ds), None, Some(NotFound))
      else Lookup(Some(ds), Some(matrices.value[name]), None)
  }

  /** Every stored dataset that `Query` reaches has a matrix at least as wide
      as its column list, and a query that reads anything finds the datasets
      bucket (the source dereferences what `Read` returns). */
  predicate Servable(queries: seq<Query>, datasets: Option<map<string, StoreTypes.Dataset>>, matrices: Option<map<string, Matrix>>)
  {
    && (|queries| > 0 ==> datasets.Some?)
    && forall k | 0 <= k < |queries| ::
         var r := Read(datasets, matrices, queries[k].name);
         r.err.None? && r.ds.Some? ==> |r.ds.value.columns| <= r.m.value.width
  }

  /** The stacked column names and vectors, and the row count. */
  datatype Stacked = Stacked(names: seq<string>, vectors: seq<seq<real>>, rows: nat)

  /** What the queries stack, query after query: each query's dataset read
      again and its rows added, its columns picked; `ErrNotFound` at the
      first query whose dataset, matrix or column is missing. */
  function Stacking(queries: seq<Query>, datasets: Option<map<string, StoreTypes.Dataset>>, matrices: Option<map<string, Matrix>>)
    : (r: Result<Stacked>)
    requires Servable(queries, datasets, matrices)
    ensures r.Ok? ==> |r.value.names| == |r.value.vectors|
    ensures r.Err? ==> r.error == NotFound
  {
    if |queries| == 0 then Ok(Stacked([], [], 0))
    else
      var n := |queries| - 1;
      ServablePrefix(queries, datasets, matrices, n);
      match Stacking(queries[..n], datasets, matrices)
      case Err(e) => Err(e)
      case Ok(s) =>
        var read := Read(datasets, matrices, queries[n].name);
        if read.err.Some? then Err(NotFound)
        else
          var d := read.ds.value;
          match Pick(queries[n].columns, d.columns, read.m.value)
          case Err(e) => Err(e)
          case Ok(vs) =>
            Ok(Stacked(s.names + queries[n].columns, s.vectors + vs, s.rows + |read.m.value.rows|))
  }

  lemma ServablePrefix(queries: seq<Query>, datasets: Option<map<string, StoreTypes.Dataset>>, matrices: Option<map<string, Matrix>>, i: nat)
    requires Servable(queries, datasets, matrices) && i <= |queries|
    ensures Servable(queries[..i], datasets, matrices)
  {
    assert forall k | 0 <= k < i :: queries[..i][k] == queries[k];
  }

  /** The names of the queries, in order. */
  function Names(queries: seq<Query>): (ns: seq<string>)
    ensures |ns| == |queries| && forall k | 0 <= k < |queries| :: ns[k] == queries[k].name
  {
    seq(|queries|, k requires 0 <= k < |queries| => queries[k].name)
  }

  /** The row count sums the rows of every query's dataset, a dataset
      named twice counted twice. */
  lemma {:induction false} StackRows(queries: seq<Query>, datasets: Option<map<string, StoreTypes.Dataset>>, matrices: Option<map<string, Matrix>>)
    requires Servable(queries, datasets, matrices) && Stacking(queries, datasets, matrices).Ok?
    ensures matrices.Some? || |queries| == 0
    ensures matrices.Some? ==>
              (forall k | 0 <= k < |queries| :: queries[k].name in matrices.value)
              && Stacking(queries, datasets, matrices).value.rows == SumRows(Names(queries), matrices.value)
  {
    if |queries| > 0 {
      var n := |queries| - 1;
      ServablePrefix(queries, datasets, matrices, n);
      StackRows(queries[..n], datasets, matrices);
      assert Names(queries)[..n] == Names(queries[..n]);
    }
  }

  /** The query fails exactly when some query names a dataset that is
      missing, has no matrix, or lacks one of the columns asked for. */
  lemma {:induction false} StackFails(queries: seq<Query>, datasets: Option<map<string, StoreTypes.Dataset>>, matrices: Option<map<string, Matrix>>)
    requires Servable(queries, datasets, matrices)
    ensures Stacking(queries, datasets, matrices).Err? <==> exists k | 0 <= k < |queries| :: Unservable(queries[k], datasets, matrices)
  {
    if |queries| > 0 {
      var n := |queries| - 1;
      StackSnocFails(queries, datasets, matrices);
      StackFails(queries[..n], datasets, matrices);
      assert forall k | 0 <= k < n :: queries[..n][k] == queries[k];
    }
  }

  /** A query the store cannot serve: its dataset or matrix is missing, or
      a column it asks for. */
  predicate Unservable(q: Query, datasets: Option<map<string, StoreTypes.Dataset>>, matrices: Option<map<string, Matrix>>)
  {
    var r := Read(datasets, matrices, q.name);
    r.err.Some? || (r.ds.Some? && exists k | 0 <= k < |q.columns| :: q.columns[k] !in r.ds.value.columns)
  }

  lemma StackSnocFails(queries: seq<Query>, datasets: Option<map<string, StoreTypes.Dataset>>, matrices: Option<map<string, Matrix>>)
    requires Servable(queries, datasets, matrices) && |queries| > 0
    ensures Servable(queries[..|queries| - 1], datasets, matrices)
    ensures Stacking(queries, datasets, matrices).Err? <==>
              Stacking(queries[..|queries| - 1], datasets, matrices).Err? || Unservable(queries[|queries| - 1], datasets, matrices)
  {
    var n := |queries| - 1;
    ServablePrefix(queries, datasets, matrices, n);
    var r := Read(datasets, matrices, queries[n].name);
    if r.err.None? {
      PickFails(queries[n].columns, r.ds.value.columns, r.m.value);
    }
  }

  /** Once a prefix of the queries fails, the whole query fails. */
  lemma {:induction false} StackStops(queries: seq<Query>, datasets: Option<map<string, StoreTypes.Dataset>>, matrices: Option<map<string, Matrix>>, i: nat)
    requires Servable(queries, datasets, matrices) && i <= |queries|
    requires Servable(queries[..i], datasets, matrices) && Stacking(queries[..i], datasets, matrices).Err?
    ensures Stacking(queries, datasets, matrices).Err?
    decreases |queries| - i
  {
    if i < |queries| {
      assert queries[..i + 1][..i] == queries[..i];
      ServablePrefix(queries, datasets, matrices, i + 1);
      StackStops(queries, datasets, matrices, i + 1);
    } else {
      assert queries[..i] == queries;
    }
  }

  /** One more query, after a prefix that succeeded. */
  lemma StackStep(queries: seq<Query>, i: nat, datasets: Option<map<string, StoreTypes.Dataset>>, matrices: Option<map<string, Matrix>>, s: Stacked)
    requires Servable(queries, datasets, matrices) && i < |queries|
    requires Servable(queries[..i], datasets, matrices) && Stacking(queries[..i], datasets, matrices) == Ok(s)
    ensures Servable(queries[..i + 1], datasets, matrices)
    ensures var r := Read(datasets, matrices, queries[i].name);
            && (r.err.Some? ==> Stacking(queries[..i + 1], datasets, matrices) == Err(NotFound))
            && (r.err.None? ==>
                  var p := Pick(queries[i].columns, r.ds.value.columns, r.m.value);
                  && (p.Err? ==> Stacking(queries[..i + 1], datasets, matrices) == Err(NotFound))
                  && (p.Ok? ==> Stacking(queries[..i + 1], datasets, matrices)
                                 == Ok(Stacked(s.names + queries[i].columns, s.vectors + p.value, s.rows + |r.m.value.rows|))))
  {
    ServablePrefix(queries, datasets, matrices, i + 1);
    assert queries[..i + 1][..i] == queries[..i];
  }

  class DB {
    var datasets: Option<map<string, StoreTypes.Dataset>>
    var matrices: Option<map<string, Matrix>>

    /** `NewDB`: a fresh file has neither bucket. */
    constructor ()
      ensures datasets == None && matrices == None
    {
      datasets := None;
      matrices := None;
    }

    /** `Write`: both buckets created when missing, then the dataset and
        the matrix put under the dataset's name; reading the name back gives
        both and no error. */
    method Write(ds: StoreTypes.Dataset, m: Matrix)
      modifies this
      ensures datasets == Some((if old(datasets).Some? then old(datasets).value else map[])[ds.name := ds])
      ensures matrices == Some((if old(matrices).Some? then old(matrices).value else map[])[ds.name := m])
      ensures Read(datasets, matrices, ds.name) == Lookup(Some(ds), Some(m), None)
    {
      var b := if datasets.Some? then datasets.value else map[];
      datasets := Some(b[ds.name := ds]);
      var c := if matrices.Some? then matrices.value else map[];
      matrices := Some(c[ds.name := m]);
    }

    /** `Datasets`: nothing while there is no datasets bucket; otherwise
        every stored dataset, once per name. Bolt lists them in key order,
        which is not modelled. */
    method Datasets() returns (result: seq<StoreTypes.Dataset>)
      ensures datasets.None? ==> result == []
      ensures datasets.Some? ==> |result| == |datasets.value|
      ensures datasets.Some? ==> forall name | name in datasets.value :: datasets.value[name] in result
      ensures datasets.Some? ==> forall k | 0 <= k < |result| :: exists name | name in datasets.value :: datasets.value[name] == result[k]
    {
      result := [];
      if datasets.None? {
        return;
      }
      var bucket := datasets.value;
      var left := bucket.Keys;
      while left != {}
        invariant left <= bucket.Keys
        invariant |result| + |left| == |bucket|
        invariant forall name | name in bucket && name !in left :: bucket[name] in result
        invariant forall k | 0 <= k < |result| :: exists name | name in bucket :: bucket[name] == result[k]
        decreases |left|
      {
        var name :| name in left;
        result := result + [bucket[name]];
        left := left - {name};
      }
    }

    /** `Query`: the columns each query asks for, side by side in query
        order, named after them; as many rows as the queried datasets have
        together, a dataset counted once per query naming it; shorter
        columns zero-filled. A missing dataset, matrix or column is
        `ErrNotFound`. */
    method Query(queries: seq<Query>) returns (r: Result<(StoreTypes.Dataset, Matrix)>)
      requires Servable(queries, datasets, matrices)
      ensures Stacking(queries, datasets, matrices).Err? ==> r == Err(NotFound)
      ensures Stacking(queries, datasets, matrices).Ok? ==>
                var s := Stacking(queries, datasets, matrices).value;
                r == Ok((StoreTypes.Dataset("QueryResult", s.names), Filled(s.rows, s.vectors)))
    {
      var names: seq<string> := [];
      var vectors: seq<seq<real>> := [];
      var rows: nat := 0;
      for i := 0 to |queries|
        invariant Servable(queries[..i], datasets, matrices)
        invariant Stacking(queries[..i], datasets, matrices) == Ok(Stacked(names, vectors, rows))
      {
        StackStep(queries, i, datasets, matrices, Stacked(names, vectors, rows));
        var read := Read(datasets, matrices, queries[i].name);
        if read.err.Some? {
          StackStops(queries, datasets, matrices, i + 1);
          return Err(read.err.value);
        }
        var d, other := read.ds.value, read.m.value;
        rows := rows + |other.rows|;
        var picked := PickColumns(queries[i].columns, d.columns, other);
        if picked.Err? {
          StackStops(queries, datasets, matrices, i + 1);
          return Err(picked.error);
        }
        vectors := vectors + picked.value;
        names := names + queries[i].columns;
      }
      assert queries[..|queries|] == queries;
      var mx := Fill(rows, vectors);
      r := Ok((StoreTypes.Dataset("QueryResult", names), mx));
    }
  }
}
