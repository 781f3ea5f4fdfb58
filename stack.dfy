/** The column stacking that both query resolvers (clients/bolt.go and
    store/database.go) do: pick named columns out of a dataset's matrix,
    then lay the picked columns side by side in a matrix of a given height,
    zero-filling the columns that are too short. */
module Stack {
  import opened Base
  import opened Mat
  import opened StoreTypes

  /** The columns called `names` of a dataset whose columns are `stored` and
      whose matrix is `m`, in the order asked; `ErrNotFound` at the first
      name the dataset does not have. */
  function Pick(names: seq<string>, stored: seq<string>, m: Matrix): (r: Result<seq<seq<real>>>)
    requires |stored| <= m.width
    ensures r.Ok? ==> |r.value| == |names|
    ensures r.Ok? ==> forall k | 0 <= k < |names| ::
                        0 <= CPos(stored, names[k]) && r.value[k] == Column(m, CPos(stored, names[k]))
    ensures r.Err? ==> r.error == NotFound
  {
    if |names| == 0 then Ok([])
    else
      var n := |names| - 1;
      match Pick(names[..n], stored, m)
      case Err(e) => Err(e)
      case Ok(vs) =>
        var pos := CPos(stored, names[n]);
        if pos < 0 then Err(NotFound) else Ok(vs + [Column(m, pos)])
  }

  /** The pick fails exactly when some asked name is not a column. */
  lemma {:induction false} PickFails(names: seq<string>, stored: seq<string>, m: Matrix)
    requires |stored| <= m.width
    ensures Pick(names, stored, m).Err? <==> exists k | 0 <= k < |names| :: names[k] !in stored
  {
    if |names| > 0 {
      var n := |names| - 1;
      PickFails(names[..n], stored, m);
      if Pick(names[..n], stored, m).Err? {
        var k :| 0 <= k < n && names[..n][k] !in stored;
        assert names[k] !in stored;
      } else if names[n] in stored {
        forall k | 0 <= k < |names| ensures names[k] in stored {
          if k < n {
            assert names[..n][k] == names[k];
          }
        }
      }
    }
  }

  /** The inner loop of both resolvers: each name's position, `ErrNotFound`
      for a name that has none, and its column of the matrix. */
  method PickColumns(names: seq<string>, stored: seq<string>, m: Matrix) returns (r: Result<seq<seq<real>>>)
    requires |stored| <= m.width
    ensures r == Pick(names, stored, m)
  {
    var vectors: seq<seq<real>> := [];
    for k := 0 to |names|
      invariant Pick(names[..k], stored, m) == Ok(vectors)
    {
      assert names[..k + 1][..k] == names[..k];
      var pos := CPos(stored, names[k]);
      if pos < 0 {
        PickStops(names, stored, m, k + 1);
        return Err(NotFound);
      }
      vectors := vectors + [Column(m, pos)];
    }
    assert names[..|names|] == names;
    r := Ok(vectors);
  }

  /** Once a prefix of the names fails, the whole pick fails the same way. */
  lemma {:induction false} PickStops(names: seq<string>, stored: seq<string>, m: Matrix, k: nat)
    requires |stored| <= m.width && k <= |names| && Pick(names[..k], stored, m).Err?
    ensures Pick(names, stored, m) == Pick(names[..k], stored, m)
    decreases |names| - k
  {
    if k < |names| {
      assert names[..k + 1][..k] == names[..k];
      PickStops(names, stored, m, k + 1);
    } else {
      assert names[..k] == names;
    }
  }

  /** A matrix `rows` high with one column per vector: entry (i, j) is
      `vectors[j][i]` where that vector is long enough, and 0 below its
      end. */
  function Filled(rows: nat, vectors: seq<seq<real>>): (m: Matrix)
    ensures |m.rows| == rows && m.width == |vectors|
    ensures forall i, j | 0 <= i < rows && 0 <= j < |vectors| ::
              m.rows[i][j] == if i < |vectors[j]| then vectors[j][i] else 0.0
  {
    var w := |vectors|;
    Dense(seq(rows, i requires 0 <= i < rows =>
            seq(w, j requires 0 <= j < w => if i < |vectors[j]| then vectors[j][i] else 0.0)), w)
  }

  /** Column j of the filled matrix is vector j, cut to the height, with
      zeros below it when it is shorter. */
  lemma FilledColumn(rows: nat, vectors: seq<seq<real>>, j: nat)
    requires j < |vectors|
    ensures |vectors[j]| >= rows ==> Column(Filled(rows, vectors), j) == vectors[j][..rows]
    ensures |vectors[j]| < rows ==>
              Column(Filled(rows, vectors), j) == vectors[j] + seq(rows - |vectors[j]|, _ => 0.0)
  {
    var col := Column(Filled(rows, vectors), j);
    if |vectors[j]| < rows {
      var padded := vectors[j] + seq(rows - |vectors[j]|, _ => 0.0);
      forall i | 0 <= i < rows ensures col[i] == padded[i] {
      }
    }
  }

  /** Entry (a, b) once the fill has reached entry (i, j), row by row. */
  function FilledUpTo(vectors: seq<seq<real>>, a: nat, b: nat, i: nat, j: nat): real
    requires b < |vectors|
  {
    if (a < i || (a == i && b < j)) && a < |vectors[b]| then vectors[b][a] else 0.0
  }

  /** The fill of both resolvers: a zero matrix, then every entry a vector
      reaches set from it. */
  method Fill(rows: nat, vectors: seq<seq<real>>) returns (m: Matrix)
    ensures m == Filled(rows, vectors)
  {
    var cols := |vectors|;
    m := Zeros(rows, cols);
    for i := 0 to rows
      invariant |m.rows| == rows && m.width == cols
      invariant forall a, b | 0 <= a < rows && 0 <= b < cols :: m.rows[a][b] == FilledUpTo(vectors, a, b, i, 0)
    {
      for j := 0 to cols
        invariant |m.rows| == rows && m.width == cols
        invariant forall a, b | 0 <= a < rows && 0 <= b < cols :: m.rows[a][b] == FilledUpTo(vectors, a, b, i, j)
      {
        if |vectors[j]| > i {
          m := Set(m, i, j, vectors[j][i]);
        }
      }
    }
    SameEntries(m, Filled(rows, vectors));
  }

  /** The total row count of the matrices of `names`, a name counted each
      time it is listed. */
  function SumRows(names: seq<string>, matrices: map<string, Matrix>): nat
    requires forall k | 0 <= k < |names| :: names[k] in matrices
  {
    if |names| == 0 then 0
    else SumRows(names[..|names| - 1], matrices) + |matrices[names[|names| - 1]].rows|
  }
}
