/** Package `store`, file store/types.go: a dataset is a name and an ordered
    list of column names; `CPos` finds a column; a `Reader` hands out rows of
    values one `Next` call at a time. */
module StoreTypes {
  import opened Base

  datatype Dataset = Dataset(name: string, columns: seq<string>)

  /** `Dataset.CPos`: the position of the first column called `name`, or -1
      when there is none. */
  function CPos(columns: seq<string>, name: string): (pos: int)
    ensures -1 <= pos < |columns|
    ensures pos == -1 <==> name !in columns
    ensures pos >= 0 ==> columns[pos] == name && name !in columns[..pos]
  {
    if |columns| == 0 then -1
    else if columns[0] == name then 0
    else
      var p := CPos(columns[1..], name);
      if p < 0 then -1
      else
        assert columns[..p + 1] == [columns[0]] + columns[1..][..p];
        p + 1
  }

  /** The reply of the k-th `Next` call of a reader whose replies are
      `replies`: once they are used up, the reader reports end of input. */
  function Reply(replies: seq<Result<seq<real>>>, k: nat): Result<seq<real>>
  {
    if k < |replies| then replies[k] else Err(Eof)
  }

  /** A `Reader` (and a `loader.Loader`, which has the same `Next` and
      `Columns`): its column names and the replies its `Next` calls give, in
      order. What produces the rows (a file, a matrix, memory) is outside
      this model; a reader is described by what it answers. */
  class Reader {
    const columns: seq<string>
    const replies: seq<Result<seq<real>>>
    var pos: nat

    constructor (columns: seq<string>, replies: seq<Result<seq<real>>>)
      ensures this.columns == columns && this.replies == replies && pos == 0
    {
      this.columns := columns;
      this.replies := replies;
      pos := 0;
    }

    /** `Next`: the next reply; every call consumes one. */
    method Next() returns (r: Result<seq<real>>)
      modifies this
      ensures r == Reply(replies, old(pos)) && pos == old(pos) + 1
    {
      r := Reply(replies, pos);
      pos := pos + 1;
    }
  }
}
