/** Package `loader`, file loader/loader.go: `Load` reads every row of a
    loader into a matrix, passing each value through a filter; `ReadPath`
    names a dataset and picks an encoding from a path, then loads the file. */
module Loader {
  import opened Base
  import opened Mat
  import opened GoStrings
  import opened StoreTypes
  import opened StoreMatrix
  import Types

  /** Each value of a row passed through `filter`. */
  function FilterRow(row: seq<real>, filter: real -> real): (fr: seq<real>)
    ensures |fr| == |row| && forall j | 0 <= j < |row| :: fr[j] == filter(row[j])
  {
    seq(|row|, j requires 0 <= j < |row| => filter(row[j]))
  }

  /** Every row of `rows` filtered. */
  function Filtered(rows: seq<seq<real>>, filter: real -> real): (fs: seq<seq<real>>)
    ensures |fs| == |rows|
  {
    if |rows| == 0 then []
    else Filtered(rows[..|rows| - 1], filter) + [FilterRow(rows[|rows| - 1], filter)]
  }

  /** The matrix `Load` builds from the rows a loader yields (see
      `LoadedCells`). */
  function Loaded(rows: Result<seq<seq<real>>>, c: nat, filter: real -> real): Result<Matrix>
    requires rows.Ok? ==> forall i | 0 <= i < |rows.value| :: |rows.value[i]| == c
  {
    match rows
    case Ok(rs) =>
      FilteredWidth(rs, c, filter);
      Ok(Dense(Filtered(rs, filter), c))
    case Err(e) => Err(e)
  }

  /** An error while reading is the result; otherwise the matrix has the
      rows read, in order, each value passed through the filter. */
  lemma LoadedCells(rows: Result<seq<seq<real>>>, c: nat, filter: real -> real)
    requires rows.Ok? ==> forall i | 0 <= i < |rows.value| :: |rows.value[i]| == c
    ensures rows.Err? ==> Loaded(rows, c, filter) == Err(rows.error)
    ensures rows.Ok? ==> var m := Loaded(rows, c, filter);
              m.Ok? && m.value.width == c && |m.value.rows| == |rows.value|
              && forall i, j | 0 <= i < |rows.value| && 0 <= j < c :: m.value.rows[i][j] == filter(rows.value[i][j])
  {
    if rows.Ok? {
      FilteredAt(rows.value, filter);
    }
  }

  /** Filtering one more row appends its filtered form. */
  lemma FilteredSnoc(rows: seq<seq<real>>, row: seq<real>, filter: real -> real)
    ensures Filtered(rows + [row], filter) == Filtered(rows, filter) + [FilterRow(row, filter)]
  {
    assert (rows + [row])[..|rows|] == rows;
  }

  /** Row i of the filtered rows is row i filtered. */
  lemma {:induction false} FilteredAt(rows: seq<seq<real>>, filter: real -> real)
    ensures forall i | 0 <= i < |rows| :: Filtered(rows, filter)[i] == FilterRow(rows[i], filter)
  {
    if |rows| > 0 {
      FilteredAt(rows[..|rows| - 1], filter);
    }
  }

  /** Filtering keeps every row's width. */
  lemma FilteredWidth(rows: seq<seq<real>>, c: nat, filter: real -> real)
    requires forall i | 0 <= i < |rows| :: |rows[i]| == c
    ensures forall i | 0 <= i < |Filtered(rows, filter)| :: |Filtered(rows, filter)[i]| == c
  {
    FilteredAt(rows, filter);
  }

  /** A prefix of a row, filtered, grows by the filtered next value. */
  lemma FilterRowStep(row: seq<real>, k: nat, filter: real -> real)
    requires k < |row|
    ensures FilterRow(row, filter)[..k + 1] == FilterRow(row, filter)[..k] + [filter(row[k])]
  {
  }

  /** The inner loop of `Load`: each value of `row`, filtered, appended to
      `values`. */
  method AppendFiltered(values: seq<real>, row: seq<real>, filter: real -> real) returns (out: seq<real>)
    ensures out == values + FilterRow(row, filter)
  {
    out := values;
    for k := 0 to |row|
      invariant out == values + FilterRow(row, filter)[..k]
    {
      FilterRowStep(row, k, filter);
      out := out + [filter(row[k])];
    }
    assert FilterRow(row, filter)[..|row|] == FilterRow(row, filter);
  }

  /** The values of the filtered rows, laid out row after row, make the
      matrix of the filtered rows. */
  lemma LoadedMatrix(acc: seq<seq<real>>, c: nat, filter: real -> real)
    requires forall i | 0 <= i < |acc| :: |acc[i]| == c
    ensures |Flatten(Filtered(acc, filter))| == |acc| * c
    ensures Loaded(Ok(acc), c, filter) == Ok(FromFlat(|acc|, c, Flatten(Filtered(acc, filter))))
  {
    FilteredWidth(acc, c, filter);
    FromFlatten(Filtered(acc, filter), c);
  }

  /** `Load`: the rows the loader yields up to end of input, every value
      passed through `filter`, in a matrix as wide as the loader has
      columns; a loader error, or a row of another width
      (`ErrUnequalValues`), is returned instead. */
  method Load(loader: Reader, filter: real -> real) returns (r: Result<Matrix>)
    modifies loader
    ensures r == Loaded(Collect(loader.replies, old(loader.pos), |loader.columns|), |loader.columns|, filter)
  {
    var values: seq<real> := [];
    var rows := 0;
    var width := |loader.columns|;
    ghost var acc: seq<seq<real>> := [];
    ghost var start := loader.pos;
    ThenNothing(Collect(loader.replies, start, width));
    while true
      invariant values == Flatten(Filtered(acc, filter)) && rows == |acc|
      invariant forall i | 0 <= i < |acc| :: |acc[i]| == width
      invariant Collect(loader.replies, start, width) == Then(acc, Collect(loader.replies, loader.pos, width))
      decreases |loader.replies| - loader.pos
    {
      var v := loader.Next();
      if v == Err(Eof) {
        break;
      }
      if v.Err? {
        return Err(v.error);
      }
      if |v.value| != width {
        return Err(UnequalValues);
      }
      ThenRow(acc, loader.replies, loader.pos - 1, width);
      values := AppendFiltered(values, v.value, filter);
      FlattenAppend(Filtered(acc, filter), FilterRow(v.value, filter));
      FilteredSnoc(acc, v.value, filter);
      rows := rows + 1;
      acc := acc + [v.value];
    }
    LoadedMatrix(acc, width, filter);
    assert acc + [] == acc;
    r := Ok(FromFlat(rows, width, values));
  }

  /** `loader.Encoding`. */
  datatype Encoding = NONE | CSV | TCX | BYTES | JSON

  /** The number of an encoding, as Go's `iota` numbers them. */
  function Code(e: Encoding): int
  {
    match e
    case NONE => 0
    case CSV => 1
    case TCX => 2
    case BYTES => 3
    case JSON => 4
  }

  /** The dataset name `ReadPath` uses: the given one, or else the last
      `/`-separated segment of the path. */
  function DatasetName(name: string, path: string): (n: string)
    ensures name != "" ==> n == name
    ensures name == "" ==> '/' !in n && |n| <= |path| && path[|path| - |n|..] == n
    ensures name == "" && |n| < |path| ==> path[|path| - |n| - 1] == '/'
  {
    if name == "" then
      LastPieceSuffix(path, '/');
      LastPiece(path, '/')
    else name
  }

  /** The encoding `ReadPath` uses: the given one, or else CSV when the text
      after the last `.` of the path is `csv` (and still none otherwise). */
  function EncodingOf(enc: Encoding, path: string): (e: Encoding)
    ensures enc != NONE ==> e == enc
    ensures enc == NONE ==> (e == CSV <==> LastPiece(path, '.') == "csv")
    ensures enc == NONE && e != CSV ==> e == NONE
  {
    if enc == NONE && LastPiece(path, '.') == "csv" then CSV else enc
  }

  /** `Invalid`, the filter `ReadPath` loads with: it zeroes NaN and the
      infinities, which real numbers do not have, so every real is kept. */
  function Invalid(x: real): real
  {
    x
  }

  /** `ReadPath`. Opening the file is outside the model: `openErr` is what
      `os.Open(path)` reported. For CSV, `loader` is what `csv.New` gave over
      the opened file (the header error, or the loader, described by the
      replies its `Next` gives). An encoding other than CSV makes the source
      panic; here it is the error `UnknownEncoding`. The dataset carries the
      derived name, the loader's columns and the loaded matrix. */
  method ReadPath(name: string, path: string, enc: Encoding, openErr: Option<Error>, loader: Result<Reader>)
    returns (r: Result<Types.Dataset>)
    modifies if loader.Ok? then {loader.value} else {}
    ensures openErr.Some? ==> r == Err(openErr.value)
    ensures openErr.None? && EncodingOf(enc, path) != CSV ==> r == Err(UnknownEncoding(Code(EncodingOf(enc, path))))
    ensures openErr.None? && EncodingOf(enc, path) == CSV && loader.Err? ==> r == Err(loader.error)
    ensures openErr.None? && EncodingOf(enc, path) == CSV && loader.Ok? ==>
              var rd := loader.value;
              var m := Loaded(Collect(rd.replies, old(rd.pos), |rd.columns|), |rd.columns|, Invalid);
              && (m.Err? ==> r == Err(m.error))
              && (m.Ok? ==> r == Ok(Types.Dataset(DatasetName(name, path), rd.columns, Some(m.value))))
  {
    var dsName := name;
    if dsName == "" {
      dsName := LastPiece(path, '/');
    }
    var e := enc;
    if e == NONE && LastPiece(path, '.') == "csv" {
      e := CSV;
    }
    if openErr.Some? {
      return Err(openErr.value);
    }
    if e != CSV {
      return Err(UnknownEncoding(Code(e)));
    }
    if loader.Err? {
      return Err(loader.error);
    }
    var mx := Load(loader.value, Invalid);
    if mx.Err? {
      return Err(mx.error);
    }
    r := Ok(Types.Dataset(dsName, loader.value.columns, Some(mx.value)));
  }
}
