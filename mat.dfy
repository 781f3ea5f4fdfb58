/** The part of gonum's `mat64.Dense` that the engine relies on: a dense
    matrix of reals, kept as its rows. Every operation returns a new value;
    the engine never shares a view with a matrix that is later changed, so
    gonum's shared views are modelled as copies. */
module Mat {

  datatype Dense = Dense(rows: seq<seq<real>>, width: nat)

  /** Every row has `width` entries. */
  predicate Rectangular(m: Dense)
  {
    forall i | 0 <= i < |m.rows| :: |m.rows[i]| == m.width
  }

  type Matrix = m: Dense | Rectangular(m) witness Dense([], 0)

  /** Two matrices with the same shape and the same entries are equal. */
  lemma SameEntries(a: Matrix, b: Matrix)
    requires |a.rows| == |b.rows| && a.width == b.width
    requires forall i, j | 0 <= i < |a.rows| && 0 <= j < a.width :: a.rows[i][j] == b.rows[i][j]
    ensures a == b
  {
    forall i | 0 <= i < |a.rows| ensures a.rows[i] == b.rows[i] {
    }
  }

  /** `NewDense(r, c, nil)`: an r×c matrix of zeros. */
  function Zeros(r: nat, c: nat): (m: Matrix)
    ensures |m.rows| == r && m.width == c
    ensures forall i, j | 0 <= i < r && 0 <= j < c :: m.rows[i][j] == 0.0
  {
    Dense(seq(r, _ => seq(c, _ => 0.0)), c)
  }

  /** `Set(i, j, v)`: the same matrix with one cell replaced. */
  function Set(m: Matrix, i: nat, j: nat, v: real): (r: Matrix)
    requires i < |m.rows| && j < m.width
    ensures |r.rows| == |m.rows| && r.width == m.width
    ensures r.rows[i][j] == v
    ensures forall a, b | 0 <= a < |m.rows| && 0 <= b < m.width && (a != i || b != j) ::
              r.rows[a][b] == m.rows[a][b]
  {
    Dense(m.rows[i := m.rows[i][j := v]], m.width)
  }

  /** `ColView(j)`: column j, top to bottom. */
  function Column(m: Matrix, j: nat): (col: seq<real>)
    requires j < m.width
    ensures |col| == |m.rows|
    ensures forall i | 0 <= i < |m.rows| :: col[i] == m.rows[i][j]
  {
    seq(|m.rows|, i requires 0 <= i < |m.rows| => m.rows[i][j])
  }

  /** `View(i, 0, n, width)`: rows i .. i+n-1, every column. */
  function RowsView(m: Matrix, i: nat, n: nat): (v: Matrix)
    requires i + n <= |m.rows|
    ensures v.width == m.width && v.rows == m.rows[i..i + n]
  {
    Dense(m.rows[i..i + n], m.width)
  }

  /** `Grow(1, 0)`: one more row, all zeros, at the bottom. */
  function GrowRow(m: Matrix): (g: Matrix)
    ensures g.width == m.width
    ensures |g.rows| == |m.rows| + 1 && g.rows[..|m.rows|] == m.rows
    ensures forall j | 0 <= j < m.width :: g.rows[|m.rows|][j] == 0.0
  {
    Dense(m.rows + [seq(m.width, _ => 0.0)], m.width)
  }

  /** `SetRow(i, row)`: row i replaced. */
  function SetRow(m: Matrix, i: nat, row: seq<real>): (r: Matrix)
    requires i < |m.rows| && |row| == m.width
    ensures r.width == m.width && r.rows == m.rows[i := row]
  {
    Dense(m.rows[i := row], m.width)
  }

  /** `NewDense(r, c, data)` over a row-major buffer: the first c values
      are row 0, the next c values row 1, and so on. */
  function FromFlat(r: nat, c: nat, data: seq<real>): (m: Matrix)
    requires |data| == r * c
    ensures |m.rows| == r && m.width == c
  {
    if r == 0 then Dense([], c)
    else
      assert |data[c..]| == (r - 1) * c;
      var rest := FromFlat(r - 1, c, data[c..]);
      Dense([data[..c]] + rest.rows, c)
  }

  /** The row-major buffer of a list of rows. */
  function Flatten(rows: seq<seq<real>>): seq<real>
  {
    if |rows| == 0 then [] else rows[0] + Flatten(rows[1..])
  }

  lemma {:induction false} FlattenAppend(rows: seq<seq<real>>, row: seq<real>)
    ensures Flatten(rows + [row]) == Flatten(rows) + row
  {
    if |rows| > 0 {
      assert (rows + [row])[1..] == rows[1..] + [row];
      FlattenAppend(rows[1..], row);
    }
  }

  /** Rebuilding a matrix from the buffer of c-wide rows gives back those
      rows: cell (i, j) of the result is entry j of row i. */
  lemma {:induction false} FromFlatten(rows: seq<seq<real>>, c: nat)
    requires forall i | 0 <= i < |rows| :: |rows[i]| == c
    ensures |Flatten(rows)| == |rows| * c
    ensures FromFlat(|rows|, c, Flatten(rows)).rows == rows
  {
    if |rows| > 0 {
      FromFlatten(rows[1..], c);
      var data := Flatten(rows);
      assert data == rows[0] + Flatten(rows[1..]);
      assert data[..c] == rows[0];
      assert data[c..] == Flatten(rows[1..]);
      assert rows == [rows[0]] + rows[1..];
    }
  }
}
