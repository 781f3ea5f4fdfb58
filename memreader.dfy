/** Package `loader`, file loader/memory.go: a reader over rows held in
    memory. */
module MemReader {
  import opened Base
  import opened StoreTypes
  import opened StoreMatrix

  /** The replies of a reader over `values`: each row in turn. */
  function Replies(values: seq<seq<real>>): (rs: seq<Result<seq<real>>>)
    ensures |rs| == |values| && forall k | 0 <= k < |values| :: rs[k] == Ok(values[k])
  {
    seq(|values|, k requires 0 <= k < |values| => Ok(values[k]))
  }

  class MemReader {
    var count: nat
    const columns: seq<string>
    const values: seq<seq<real>>

    /** `NewMemReader`: positioned at the first row. */
    constructor (columns: seq<string>, values: seq<seq<real>>)
      ensures this.columns == columns && this.values == values && count == 0
    {
      this.columns := columns;
      this.values := values;
      count := 0;
    }

    /** `Columns`: the column names given at construction. */
    function Columns(): (cs: seq<string>)
      ensures cs == columns
    {
      columns
    }

    /** `Close`: nothing to release, never an error. */
    method Close() returns (err: Option<Error>)
      ensures err == None
    {
      err := None;
    }

    /** `Next`: row `count`, which then advances; once the rows are used up,
        end of input on every call, and `count` stays where it is. */
    method Next() returns (r: Result<seq<real>>)
      modifies this
      ensures old(count) < |values| ==> r == Ok(values[old(count)]) && count == old(count) + 1
      ensures old(count) >= |values| ==> r == Err(Eof) && count == old(count)
      ensures r == Reply(Replies(values), old(count))
    {
      if count >= |values| {
        return Err(Eof);
      }
      r := Ok(values[count]);
      count := count + 1;
    }
  }

  /** Reading a memory reader whose rows are all `c` wide to the end gives
      back its rows, from any position on. */
  lemma {:induction false} CollectFrom(values: seq<seq<real>>, k: nat, c: nat)
    requires k <= |values|
    requires forall i | 0 <= i < |values| :: |values[i]| == c
    ensures Collect(Replies(values), k, c) == Ok(values[k..])
    decreases |values| - k
  {
    if k < |values| {
      CollectFrom(values, k + 1, c);
      assert values[k..] == [values[k]] + values[k + 1..];
    }
  }

  /** `ReadMatrix` over a fresh memory reader: every row is `c` wide, so the
      result holds exactly those rows, value j of row i at (i, j). */
  lemma ReadAllRows(values: seq<seq<real>>, c: nat)
    requires forall i | 0 <= i < |values| :: |values[i]| == c
    ensures Collect(Replies(values), 0, c) == Ok(values)
  {
    CollectFrom(values, 0, c);
  }

  /** Two rows of two values read back as the 2×2 matrix 1, 2 / 3, 4. */
  lemma TwoByTwo()
    ensures Collect(Replies([[1.0, 2.0], [3.0, 4.0]]), 0, 2) == Ok([[1.0, 2.0], [3.0, 4.0]])
  {
    ReadAllRows([[1.0, 2.0], [3.0, 4.0]], 2);
  }
}
