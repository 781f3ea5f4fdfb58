/** Package `store`, file store/matrix.go: `ReadMatrix` pulls rows from a
    reader until end of input and stacks them into a matrix, row-major. */
module StoreMatrix {
  import opened Base
  import opened Mat
  import opened StoreTypes

  /** What a reader yields from its k-th reply on: the rows up to the end of
      input, each `c` wide; the first other error, or `UnequalValues` at the
      first row of another width, ends the read. */
  function Collect(replies: seq<Result<seq<real>>>, k: nat, c: nat): (r: Result<seq<seq<real>>>)
    ensures r.Ok? ==> forall i | 0 <= i < |r.value| :: |r.value[i]| == c
    decreases |replies| - k
  {
    if k >= |replies| then Ok([])
    else
      match replies[k]
      case Err(e) => if e == Eof then Ok([]) else Err(e)
      case Ok(v) =>
        if |v| != c then Err(UnequalValues)
        else
          match Collect(replies, k + 1, c)
          case Ok(rest) => Ok([v] + rest)
          case Err(e) => Err(e)
  }

  /** The rows `acc` already read, followed by what is still to come. */
  function Then(acc: seq<seq<real>>, rest: Result<seq<seq<real>>>): Result<seq<seq<real>>>
  {
    match rest
    case Ok(rows) => Ok(acc + rows)
    case Err(e) => Err(e)
  }

  lemma ThenNothing(rest: Result<seq<seq<real>>>)
    ensures Then([], rest) == rest
  {
    if rest.Ok? {
      assert [] + rest.value == rest.value;
    }
  }

  /** One more row read: it moves from what is to come to what was read. */
  lemma ThenRow(acc: seq<seq<real>>, replies: seq<Result<seq<real>>>, k: nat, c: nat)
    requires k < |replies| && replies[k].Ok? && |replies[k].value| == c
    ensures Then(acc, Collect(replies, k, c)) == Then(acc + [replies[k].value], Collect(replies, k + 1, c))
  {
    var v := replies[k].value;
    match Collect(replies, k + 1, c)
    case Ok(rest) =>
      assert acc + ([v] + rest) == acc + [v] + rest;
    case Err(e) =>
  }

  /** `ReadMatrix`: the rows the reader yields, as a matrix as wide as the
      reader has columns; a reader error or a row of another width is
      returned instead. */
  method ReadMatrix(reader: Reader) returns (r: Result<Matrix>)
    modifies reader
    ensures r == match Collect(reader.replies, old(reader.pos), |reader.columns|)
                 case Ok(rows) => Ok(Dense(rows, |reader.columns|))
                 case Err(e) => Err(e)
  {
    var values: seq<real> := [];
    var rows := 0;
    var c := |reader.columns|;
    ghost var acc: seq<seq<real>> := [];
    ghost var start := reader.pos;
    ThenNothing(Collect(reader.replies, start, c));
    while true
      invariant values == Flatten(acc) && rows == |acc|
      invariant forall i | 0 <= i < |acc| :: |acc[i]| == c
      invariant Collect(reader.replies, start, c) == Then(acc, Collect(reader.replies, reader.pos, c))
      decreases |reader.replies| - reader.pos
    {
      var v := reader.Next();
      if v == Err(Eof) {
        break;
      }
      if v.Err? {
        return Err(v.error);
      }
      if |v.value| != c {
        return Err(UnequalValues);
      }
      ThenRow(acc, reader.replies, reader.pos - 1, c);
      var k := 0;
      while k < |v.value|
        invariant k <= |v.value| && values == Flatten(acc) + v.value[..k]
      {
        values := values + [v.value[k]];
        k := k + 1;
      }
      assert v.value[..k] == v.value;
      FlattenAppend(acc, v.value);
      rows := rows + 1;
      acc := acc + [v.value];
    }
    FromFlatten(acc, c);
    assert acc + [] == acc;
    r := Ok(FromFlat(rows, c, values));
  }
}
