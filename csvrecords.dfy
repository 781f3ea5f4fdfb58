/** What the CSV loaders need of Go's `encoding/csv` reader, and the per-field
    value dispatch both CSV loaders (loader/csv/csv.go and loader/csv.go)
    share. */
module CsvRecords {
  import opened Base
  import opened Parser

  /** The outcome of one `Read` call and the reader's field count after it. */
  datatype Step = Step(record: Result<seq<string>>, fields: nat)

  /** `csv.Reader.Read` with `FieldsPerRecord` left at 0: the first record
      fixes the field count (0 meaning not yet fixed), and a later record with
      another count is an `ErrFieldCount`. `lines` are the records of the
      text, already unquoted and split, or a read error in their place; after
      them, end of input. */
  function ReadAt(lines: seq<Result<seq<string>>>, pos: nat, fields: nat): (s: Step)
    ensures s.record.Ok? ==> |s.record.value| == s.fields
    ensures fields > 0 ==> s.fields == fields
    ensures pos >= |lines| ==> s.record == Err(Eof)
  {
    if pos >= |lines| then Step(Err(Eof), fields)
    else
      match lines[pos]
      case Err(e) => Step(Err(e), fields)
      case Ok(rec) =>
        if fields == 0 then Step(Ok(rec), |rec|)
        else if |rec| != fields then Step(Err(FieldCount), fields)
        else Step(Ok(rec), fields)
  }

  /** An `encoding/csv` reader over the records `lines`. */
  class RecordReader {
    const lines: seq<Result<seq<string>>>
    var pos: nat
    var fields: nat

    constructor (lines: seq<Result<seq<string>>>)
      ensures this.lines == lines && pos == 0 && fields == 0
    {
      this.lines := lines;
      pos := 0;
      fields := 0;
    }

    /** `Read`: the next record, or why there is none. */
    method Read() returns (r: Result<seq<string>>)
      modifies this
      ensures r == ReadAt(lines, old(pos), old(fields)).record
      ensures fields == ReadAt(lines, old(pos), old(fields)).fields
      ensures pos == if old(pos) < |lines| then old(pos) + 1 else old(pos)
    {
      var s := ReadAt(lines, pos, fields);
      r := s.record;
      fields := s.fields;
      if pos < |lines| {
        pos := pos + 1;
      }
    }
  }

  /** The value of field `i`: what its column's parser gives, when there is
      a parser and it succeeds; otherwise the field read as a float, when that
      succeeds; otherwise 0. */
  function FieldValue(parsers: map<int, Parser>, i: int, field: string, codecs: Codecs): (v: real)
    ensures i in parsers && Parse(parsers[i], field, codecs).ok ==> v == Parse(parsers[i], field, codecs).value
    ensures !(i in parsers && Parse(parsers[i], field, codecs).ok) ==>
              v == (if codecs.parseFloat(field).ok then codecs.parseFloat(field).value else 0.0)
  {
    if i in parsers && Parse(parsers[i], field, codecs).ok then Parse(parsers[i], field, codecs).value
    else if codecs.parseFloat(field).ok then codecs.parseFloat(field).value
    else 0.0
  }

  /** The body of both loaders' `Next` after a record is read: a zeroed array
      of `n` values, field i of the record dispatched into slot i. */
  method Fill(rec: seq<string>, n: nat, parsers: map<int, Parser>, codecs: Codecs) returns (values: seq<real>)
    requires |rec| <= n
    ensures |values| == n
    ensures forall i | 0 <= i < |rec| :: values[i] == FieldValue(parsers, i, rec[i], codecs)
    ensures forall i | |rec| <= i < n :: values[i] == 0.0
  {
    var a := new real[n](_ => 0.0);
    for i := 0 to |rec|
      invariant forall j | 0 <= j < i :: a[j] == FieldValue(parsers, j, rec[j], codecs)
      invariant forall j | i <= j < n :: a[j] == 0.0
    {
      if i in parsers {
        var p := Parse(parsers[i], rec[i], codecs);
        if p.ok {
          a[i] := p.value;
          continue;
        }
      }
      var f := codecs.parseFloat(rec[i]);
      if f.ok {
        a[i] := f.value;
      }
    }
    values := a[..];
  }

  /** Both loaders copy the header record into a fresh column list. */
  method CopyNames(record: seq<string>) returns (names: seq<string>)
    ensures names == record
  {
    var a := new string[|record|](_ => "");
    for i := 0 to |record|
      invariant a[..i] == record[..i]
    {
      a[i] := record[i];
    }
    names := a[..];
  }
}
