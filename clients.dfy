/** Package `clients`, file clients/bolt.go: the Bolt store of datasets and
    the query resolver over it. The store holds two buckets, modelled as two
    maps keyed by dataset name: the datasets bucket (a dataset's column
    names; its name is the key) and the matrices bucket. */
module Clients {
  import opened Base
  import opened Mat
  import opened Buckets
  import opened Stack
  import Types
  import TypesQuery

  /** The columns a selector asks of a dataset whose columns are `stored`: a
      lone `*` asks for all of them, in stored order. */
  function Wanted(sel: TypesQuery.Selector, stored: seq<string>): (cols: seq<string>)
    ensures sel.columns == ["*"] ==> cols == stored
    ensures sel.columns != ["*"] ==> cols == sel.columns
  {
    if |sel.columns| == 1 && sel.columns[0] == "*" then stored else sel.columns
  }

  /** The names of the selectors, in order. */
  function Names(sels: seq<TypesQuery.Selector>): (ns: seq<string>)
    ensures |ns| == |sels| && forall k | 0 <= k < |sels| :: ns[k] == sels[k].name
  {
    seq(|sels|, k requires 0 <= k < |sels| => sels[k].name)
  }

  /** `read`: the dataset stored under `name`, with its matrix when one is
      stored; `ErrNotFound` when the name has no dataset. */
  function Read(datasets: map<string, seq<string>>, matrices: map<string, Matrix>, name: string)
    : (r: Result<Types.Dataset>)
    ensures name !in datasets <==> r == Err(NotFound)
    ensures r.Ok? ==> r.value.name == name && r.value.columns == datasets[name]
    ensures r.Ok? ==> (r.value.mtx.Some? <==> name in matrices)
    ensures r.Ok? && name in matrices ==> r.value.mtx == Some(matrices[name])
  {
    if name !in datasets then Err(NotFound)
    else Ok(Types.Dataset(name, datasets[name], if name in matrices then Some(matrices[name]) else None))
  }

  /** Every selected dataset that exists has a matrix at least as wide as
      its column list (the resolver dereferences and indexes both). */
  predicate Servable(sels: seq<TypesQuery.Selector>, datasets: map<string, seq<string>>, matrices: map<string, Matrix>)
  {
    forall k | 0 <= k < |sels| :: sels[k].name in datasets ==>
      sels[k].name in matrices && |datasets[sels[k].name]| <= matrices[sels[k].name].width
  }

  /** The column names and column vectors the selectors pick, in selector
      order. */
  datatype Gathered = Gathered(names: seq<string>, vectors: seq<seq<real>>)

  /** What the selectors pick, selector after selector; `ErrNotFound` for
      the first selector naming no dataset or a missing column. */
  function Gather(sels: seq<TypesQuery.Selector>, datasets: map<string, seq<string>>, matrices: map<string, Matrix>)
    : (r: Result<Gathered>)
    requires Servable(sels, datasets, matrices)
    ensures r.Ok? ==> |r.value.names| == |r.value.vectors|
    ensures r.Err? ==> r.error == NotFound
  {
    if |sels| == 0 then Ok(Gathered([], []))
    else
      var n := |sels| - 1;
      var s := sels[n];
      assert Servable(sels[..n], datasets, matrices) by {
        forall k | 0 <= k < n ensures sels[..n][k] == sels[k] {
        }
      }
      match Gather(sels[..n], datasets, matrices)
      case Err(e) => Err(e)
      case Ok(g) =>
        if s.name !in datasets then Err(NotFound)
        else
          var cols := Wanted(s, datasets[s.name]);
          match Stack.Pick(cols, datasets[s.name], matrices[s.name])
          case Err(e) => Err(e)
          case Ok(vs) => Ok(Gathered(g.names + cols, g.vectors + vs))
  }

  /** The result's row count: the rows of every distinct selected dataset,
      each counted once. */
  function RowCount(sels: seq<TypesQuery.Selector>, matrices: map<string, Matrix>): nat
    requires forall k | 0 <= k < |sels| :: sels[k].name in matrices
  {
    DistinctNamesIn(sels, matrices);
    SumRows(Distinct(Names(sels)), matrices)
  }

  lemma DistinctNamesIn(sels: seq<TypesQuery.Selector>, matrices: map<string, Matrix>)
    requires forall k | 0 <= k < |sels| :: sels[k].name in matrices
    ensures forall k | 0 <= k < |Distinct(Names(sels))| :: Distinct(Names(sels))[k] in matrices
  {
    var ns := Names(sels);
    forall k | 0 <= k < |Distinct(ns)| ensures Distinct(ns)[k] in matrices {
      var x := Distinct(ns)[k];
      assert x in ns;
      var j :| 0 <= j < |ns| && ns[j] == x;
    }
  }

  /** A name chosen again adds no rows. */
  lemma RowCountRepeat(sels: seq<TypesQuery.Selector>, s: TypesQuery.Selector, matrices: map<string, Matrix>)
    requires forall k | 0 <= k < |sels| :: sels[k].name in matrices
    requires s.name in Names(sels)
    ensures RowCount(sels + [s], matrices) == RowCount(sels, matrices)
  {
    NamesSnoc(sels, s);
    DistinctSnoc(Names(sels), s.name);
  }

  /** A name chosen for the first time adds its matrix's rows. */
  lemma RowCountNew(sels: seq<TypesQuery.Selector>, s: TypesQuery.Selector, matrices: map<string, Matrix>)
    requires forall k | 0 <= k < |sels| :: sels[k].name in matrices
    requires s.name in matrices && s.name !in Names(sels)
    ensures RowCount(sels + [s], matrices) == RowCount(sels, matrices) + |matrices[s.name].rows|
  {
    NamesSnoc(sels, s);
    DistinctSnoc(Names(sels), s.name);
    var d := Distinct(Names(sels));
    assert (d + [s.name])[..|d|] == d;
  }

  lemma NamesSnoc(sels: seq<TypesQuery.Selector>, s: TypesQuery.Selector)
    ensures Names(sels + [s]) == Names(sels) + [s.name]
  {
  }

  lemma DistinctSnoc(ns: seq<string>, x: string)
    ensures Distinct(ns + [x]) == if x in ns then Distinct(ns) else Distinct(ns) + [x]
  {
    assert (ns + [x])[..|ns|] == ns;
  }

  /** A selector the store cannot serve: it names no dataset, or a column
      its dataset does not have. */
  predicate Unservable(sel: TypesQuery.Selector, datasets: map<string, seq<string>>)
  {
    sel.name !in datasets ||
    var cols := Wanted(sel, datasets[sel.name]);
    exists k | 0 <= k < |cols| :: cols[k] !in datasets[sel.name]
  }

  /** One more selector: the query fails when it failed before or the new
      selector cannot be served. */
  lemma GatherSnocFails(sels: seq<TypesQuery.Selector>, datasets: map<string, seq<string>>, matrices: map<string, Matrix>)
    requires Servable(sels, datasets, matrices) && |sels| > 0
    ensures Servable(sels[..|sels| - 1], datasets, matrices)
    ensures Gather(sels, datasets, matrices).Err? <==>
              Gather(sels[..|sels| - 1], datasets, matrices).Err? || Unservable(sels[|sels| - 1], datasets)
  {
    var n := |sels| - 1;
    ServablePrefix(sels, datasets, matrices, n);
    var s := sels[n];
    if s.name in datasets {
      PickFails(Wanted(s, datasets[s.name]), datasets[s.name], matrices[s.name]);
    }
  }

  /** The query fails exactly when some selector cannot be served. */
  lemma {:induction false} GatherFails(sels: seq<TypesQuery.Selector>, datasets: map<string, seq<string>>, matrices: map<string, Matrix>)
    requires Servable(sels, datasets, matrices)
    ensures Gather(sels, datasets, matrices).Err? <==> exists k | 0 <= k < |sels| :: Unservable(sels[k], datasets)
  {
    if |sels| > 0 {
      var n := |sels| - 1;
      var init := sels[..n];
      GatherSnocFails(sels, datasets, matrices);
      GatherFails(init, datasets, matrices);
      assert forall k | 0 <= k < n :: init[k] == sels[k];
    }
  }

  /** Once a prefix of the selectors fails, the whole query fails. */
  lemma {:induction false} GatherStops(sels: seq<TypesQuery.Selector>, datasets: map<string, seq<string>>, matrices: map<string, Matrix>, i: nat)
    requires Servable(sels, datasets, matrices) && i <= |sels|
    requires Servable(sels[..i], datasets, matrices) && Gather(sels[..i], datasets, matrices).Err?
    ensures Gather(sels, datasets, matrices).Err?
    decreases |sels| - i
  {
    if i < |sels| {
      assert sels[..i + 1][..i] == sels[..i];
      assert Servable(sels[..i + 1], datasets, matrices) by {
        forall k | 0 <= k < i + 1 ensures sels[..i + 1][k] == sels[k] {
        }
      }
      GatherStops(sels, datasets, matrices, i + 1);
    } else {
      assert sels[..i] == sels;
    }
  }

  lemma ServablePrefix(sels: seq<TypesQuery.Selector>, datasets: map<string, seq<string>>, matrices: map<string, Matrix>, i: nat)
    requires Servable(sels, datasets, matrices) && i <= |sels|
    ensures Servable(sels[..i], datasets, matrices)
  {
    assert forall k | 0 <= k < i :: sels[..i][k] == sels[k];
  }

  /** A grouping's time column must exist in a result that has rows (the
      grouping reads it). */
  predicate Groupable(q: TypesQuery.Query, datasets: map<string, seq<string>>, matrices: map<string, Matrix>)
    requires Servable(q.datasets, datasets, matrices)
  {
    var g := Gather(q.datasets, datasets, matrices);
    g.Ok? && q.grouping.Some? ==>
      (forall k | 0 <= k < |q.datasets| :: q.datasets[k].name in matrices) &&
      (RowCount(q.datasets, matrices) > 0 ==> 0 <= q.grouping.value.index < |g.value.vectors|)
  }

  /** One more selector, after a prefix that succeeded: a missing dataset
      fails, otherwise the wanted columns are picked and appended. */
  lemma GatherStep(sels: seq<TypesQuery.Selector>, i: nat, datasets: map<string, seq<string>>, matrices: map<string, Matrix>, g: Gathered)
    requires Servable(sels, datasets, matrices) && i < |sels|
    requires Servable(sels[..i], datasets, matrices) && Gather(sels[..i], datasets, matrices) == Ok(g)
    ensures Servable(sels[..i + 1], datasets, matrices)
    ensures sels[i].name !in datasets ==> Gather(sels[..i + 1], datasets, matrices) == Err(NotFound)
    ensures sels[i].name in datasets ==>
              var cols := Wanted(sels[i], datasets[sels[i].name]);
              var p := Stack.Pick(cols, datasets[sels[i].name], matrices[sels[i].name]);
              && (p.Err? ==> Gather(sels[..i + 1], datasets, matrices) == Err(NotFound))
              && (p.Ok? ==> Gather(sels[..i + 1], datasets, matrices) == Ok(Gathered(g.names + cols, g.vectors + p.value)))
  {
    ServablePrefix(sels, datasets, matrices, i + 1);
    assert sels[..i + 1][..i] == sels[..i];
  }

  /** What `Query` has seen after the selectors `pre`: each named dataset
      exists with a matrix, `processed` holds exactly the names seen, each
      with the dataset `read` gives for it, and `rows` is their row count. */
  ghost predicate Tracked(pre: seq<TypesQuery.Selector>, processed: map<string, Types.Dataset>, rows: nat,
                    datasets: map<string, seq<string>>, matrices: map<string, Matrix>)
  {
    && (forall k | 0 <= k < |pre| :: pre[k].name in datasets && pre[k].name in matrices)
    && (forall n :: n in processed <==> n in Names(pre))
    && (forall n | n in processed :: Read(datasets, matrices, n) == Ok(processed[n]))
    && rows == RowCount(pre, matrices)
  }

  /** One more selector whose dataset exists: a new name is read and its
      rows counted, a name seen before changes nothing. */
  lemma TrackedSnoc(pre: seq<TypesQuery.Selector>, sel: TypesQuery.Selector, processed: map<string, Types.Dataset>, rows: nat,
                    datasets: map<string, seq<string>>, matrices: map<string, Matrix>)
    requires Tracked(pre, processed, rows, datasets, matrices)
    requires sel.name in datasets && sel.name in matrices
    ensures sel.name in processed ==> Tracked(pre + [sel], processed, rows, datasets, matrices)
    ensures sel.name !in processed ==>
              Tracked(pre + [sel], processed[sel.name := Read(datasets, matrices, sel.name).value],
                      rows + |matrices[sel.name].rows|, datasets, matrices)
  {
    if sel.name in processed {
      TrackedRepeat(pre, sel, processed, rows, datasets, matrices);
    } else {
      TrackedNew(pre, sel, processed, rows, datasets, matrices);
    }
  }

  lemma TrackedRepeat(pre: seq<TypesQuery.Selector>, sel: TypesQuery.Selector, processed: map<string, Types.Dataset>, rows: nat,
                      datasets: map<string, seq<string>>, matrices: map<string, Matrix>)
    requires Tracked(pre, processed, rows, datasets, matrices)
    requires sel.name in datasets && sel.name in matrices && sel.name in processed
    ensures Tracked(pre + [sel], processed, rows, datasets, matrices)
  {
    NamesSnoc(pre, sel);
    RowCountRepeat(pre, sel, matrices);
  }

  lemma TrackedNew(pre: seq<TypesQuery.Selector>, sel: TypesQuery.Selector, processed: map<string, Types.Dataset>, rows: nat,
                   datasets: map<string, seq<string>>, matrices: map<string, Matrix>)
    requires Tracked(pre, processed, rows, datasets, matrices)
    requires sel.name in datasets && sel.name in matrices && sel.name !in processed
    ensures Tracked(pre + [sel], processed[sel.name := Read(datasets, matrices, sel.name).value],
                    rows + |matrices[sel.name].rows|, datasets, matrices)
  {
    var post, processed' := pre + [sel], processed[sel.name := Read(datasets, matrices, sel.name).value];
    assert forall k | 0 <= k < |post| :: post[k].name in datasets && post[k].name in matrices by {
      ServedSnoc(pre, sel, datasets, matrices);
    }
    assert forall n :: n in processed' <==> n in Names(post) by {
      NamesSnoc(pre, sel);
      ProcessedSnoc(processed, Names(pre), sel.name, Read(datasets, matrices, sel.name).value);
    }
    assert forall n | n in processed' :: Read(datasets, matrices, n) == Ok(processed'[n]) by {
      ReadsSnoc(processed, datasets, matrices, sel.name);
    }
    assert rows + |matrices[sel.name].rows| == RowCount(post, matrices) by {
      RowCountNew(pre, sel, matrices);
    }
  }

  lemma ServedSnoc(pre: seq<TypesQuery.Selector>, sel: TypesQuery.Selector,
                   datasets: map<string, seq<string>>, matrices: map<string, Matrix>)
    requires forall k | 0 <= k < |pre| :: pre[k].name in datasets && pre[k].name in matrices
    requires sel.name in datasets && sel.name in matrices
    ensures forall k | 0 <= k < |pre + [sel]| :: (pre + [sel])[k].name in datasets && (pre + [sel])[k].name in matrices
  {
  }

  lemma ProcessedSnoc<V>(processed: map<string, V>, names: seq<string>, x: string, v: V)
    requires forall n :: n in processed <==> n in names
    ensures forall n :: n in processed[x := v] <==> n in names + [x]
  {
  }

  lemma ReadsSnoc(processed: map<string, Types.Dataset>, datasets: map<string, seq<string>>, matrices: map<string, Matrix>, x: string)
    requires forall n | n in processed :: Read(datasets, matrices, n) == Ok(processed[n])
    requires Read(datasets, matrices, x).Ok?
    ensures forall n | n in processed[x := Read(datasets, matrices, x).value] ::
              Read(datasets, matrices, n) == Ok(processed[x := Read(datasets, matrices, x).value][n])
  {
  }

  lemma TrackedStep(sels: seq<TypesQuery.Selector>, i: nat, processed: map<string, Types.Dataset>, rows: nat,
                    datasets: map<string, seq<string>>, matrices: map<string, Matrix>)
    requires i < |sels| && Tracked(sels[..i], processed, rows, datasets, matrices)
    requires sels[i].name in datasets && sels[i].name in matrices
    ensures sels[i].name in processed ==> Tracked(sels[..i + 1], processed, rows, datasets, matrices)
    ensures sels[i].name !in processed ==>
              Tracked(sels[..i + 1], processed[sels[i].name := Read(datasets, matrices, sels[i].name).value],
                      rows + |matrices[sels[i].name].rows|, datasets, matrices)
  {
    assert sels[..i + 1] == sels[..i] + [sels[i]];
    TrackedSnoc(sels[..i], sels[i], processed, rows, datasets, matrices);
  }

  /** The first half of a pass of `Query`'s loop: the dataset of selector
      i, read the first time its name comes up and taken from `processed`
      afterwards. */
  method Lookup(sels: seq<TypesQuery.Selector>, i: nat, processed: map<string, Types.Dataset>, rows: nat,
                datasets: map<string, seq<string>>, matrices: map<string, Matrix>)
    returns (other: Result<Types.Dataset>, processed': map<string, Types.Dataset>, rows': nat)
    requires i < |sels| && Tracked(sels[..i], processed, rows, datasets, matrices)
    requires sels[i].name in datasets ==> sels[i].name in matrices
    ensures sels[i].name !in datasets ==> other == Err(NotFound)
    ensures sels[i].name in datasets ==>
              && other == Ok(Types.Dataset(sels[i].name, datasets[sels[i].name], Some(matrices[sels[i].name])))
              && Tracked(sels[..i + 1], processed', rows', datasets, matrices)
  {
    var name := sels[i].name;
    processed', rows' := processed, rows;
    if name !in processed {
      var read := Read(datasets, matrices, name);
      if read.Err? {
        return read, processed', rows';
      }
      TrackedStep(sels, i, processed, rows, datasets, matrices);
      rows' := rows + |read.value.mtx.value.rows|;
      processed' := processed[name := read.value];
    } else {
      TrackedStep(sels, i, processed, rows, datasets, matrices);
    }
    other := Ok(processed'[name]);
  }

  /** The loop of `Query` over its selectors: each dataset read once (the
      first time it is named), its rows counted then; the wanted columns of
      each selector picked in turn. */
  method Resolve(sels: seq<TypesQuery.Selector>, datasets: map<string, seq<string>>, matrices: map<string, Matrix>)
    returns (r: Result<Gathered>, rows: nat)
    requires Servable(sels, datasets, matrices)
    ensures r == Gather(sels, datasets, matrices)
    ensures r.Ok? ==> (forall k | 0 <= k < |sels| :: sels[k].name in matrices) && rows == RowCount(sels, matrices)
  {
    rows := 0;
    var names: seq<string> := [];
    var vectors: seq<seq<real>> := [];
    var processed: map<string, Types.Dataset> := map[];
    for i := 0 to |sels|
      invariant Servable(sels[..i], datasets, matrices)
      invariant Gather(sels[..i], datasets, matrices) == Ok(Gathered(names, vectors))
      invariant Tracked(sels[..i], processed, rows, datasets, matrices)
    {
      var sel := sels[i];
      GatherStep(sels, i, datasets, matrices, Gathered(names, vectors));
      var columns := sel.columns;
      var found;
      found, processed, rows := Lookup(sels, i, processed, rows, datasets, matrices);
      if found.Err? {
        GatherStops(sels, datasets, matrices, i + 1);
        return Err(found.error), rows;
      }
      var other := found.value;
      if |columns| == 1 {
        if columns[0] == "*" {
          columns := other.columns;
        }
      }
      var picked := PickColumns(columns, other.columns, other.mtx.value);
      if picked.Err? {
        GatherStops(sels, datasets, matrices, i + 1);
        return Err(picked.error), rows;
      }
      vectors := vectors + picked.value;
      names := names + columns;
    }
    assert sels[..|sels|] == sels;
    r := Ok(Gathered(names, vectors));
  }

  class BoltClient {
    var datasets: map<string, seq<string>>
    var matrices: map<string, Matrix>

    /** `NewBoltClient`: both buckets exist and are empty. */
    constructor ()
      ensures datasets == map[] && matrices == map[]
    {
      datasets := map[];
      matrices := map[];
    }

    /** `Write`: the dataset's columns under its name, and its matrix when it
        has one; a dataset without a matrix leaves a matrix stored earlier
        under that name in place. Reading the name back gives the
        dataset. */
    method Write(ds: Types.Dataset)
      modifies this
      ensures datasets == old(datasets)[ds.name := ds.columns]
      ensures matrices == if ds.mtx.Some? then old(matrices)[ds.name := ds.mtx.value] else old(matrices)
      ensures ds.mtx.Some? ==> Read(datasets, matrices, ds.name) == Ok(ds)
      ensures ds.mtx.None? && ds.name !in old(matrices) ==> Read(datasets, matrices, ds.name) == Ok(ds)
    {
      datasets := datasets[ds.name := ds.columns];
      if ds.mtx.None? {
        return;
      }
      matrices := matrices[ds.name := ds.mtx.value];
    }

    /** `Delete`: the name leaves both buckets (deleting a missing key is
        not an error), and reading it gives `ErrNotFound`. */
    method Delete(name: string)
      modifies this
      ensures datasets == old(datasets) - {name} && matrices == old(matrices) - {name}
      ensures Read(datasets, matrices, name) == Err(NotFound)
    {
      datasets := datasets - {name};
      matrices := matrices - {name};
    }

    /** `Datasets`: every stored dataset, once, without its matrix (the
        listing does not carry values). Bolt lists them in key order, which
        is not modelled. */
    method Datasets() returns (result: seq<Types.Dataset>)
      ensures |result| == |datasets|
      ensures forall name | name in datasets :: Types.Dataset(name, datasets[name], None) in result
      ensures forall k | 0 <= k < |result| ::
                result[k].name in datasets && result[k] == Types.Dataset(result[k].name, datasets[result[k].name], None)
    {
      result := [];
      var left := datasets.Keys;
      while left != {}
        invariant left <= datasets.Keys
        invariant |result| + |left| == |datasets|
        invariant forall name | name in datasets && name !in left :: Types.Dataset(name, datasets[name], None) in result
        invariant forall k | 0 <= k < |result| ::
                    result[k].name in datasets && result[k].name !in left
                    && result[k] == Types.Dataset(result[k].name, datasets[result[k].name], None)
        decreases |left|
      {
        var name :| name in left;
        result := result + [Types.Dataset(name, datasets[name], None)];
        left := left - {name};
      }
    }

    /** `Query`: the selected columns of the selected datasets, side by side,
        in selector order and with repeats, named after the columns asked
        for; as many rows as the distinct selected datasets have together,
        shorter columns zero-filled; the query's grouping and function
        applied last. A missing dataset or column is `ErrNotFound`. */
    method Query(q: TypesQuery.Query) returns (r: Result<Types.Dataset>)
      requires Servable(q.datasets, datasets, matrices) && Groupable(q, datasets, matrices)
      ensures Gather(q.datasets, datasets, matrices).Err? ==> r == Err(NotFound)
      ensures Gather(q.datasets, datasets, matrices).Ok? ==>
                var g := Gather(q.datasets, datasets, matrices).value;
                && (forall k | 0 <= k < |q.datasets| :: q.datasets[k].name in matrices)
                && r == Ok(Types.Dataset("QueryResult", g.names,
                             TypesQuery.Applied(q, Filled(RowCount(q.datasets, matrices), g.vectors))))
    {
      var g, rows := Resolve(q.datasets, datasets, matrices);
      if g.Err? {
        return Err(g.error);
      }
      var mx := Fill(rows, g.value.vectors);
      var applied := TypesQuery.Apply(q, mx);
      r := Ok(Types.Dataset("QueryResult", g.value.names, applied));
    }
  }
}
