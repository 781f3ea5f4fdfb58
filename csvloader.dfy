/** Package `loader/csv`, file loader/csv/csv.go: a loader reading rows of
    numbers from CSV text whose first record names the columns. */
module CsvLoader {
  import opened Base
  import opened Parser
  import opened CsvRecords

  /** The `CSV` loader: its record reader, the parser of each column that has
      one, and the column names from the header. */
  class Csv {
    const reader: RecordReader
    const parsers: map<int, Parser>
    const codecs: Codecs
    var columns: seq<string>

    constructor (reader: RecordReader, parsers: map<int, Parser>, codecs: Codecs)
      ensures this.reader == reader && this.parsers == parsers && this.codecs == codecs
      ensures columns == []
    {
      this.reader := reader;
      this.parsers := parsers;
      this.codecs := codecs;
      columns := [];
    }

    /** `Next`: the next record as exactly one value per column, each field
        dispatched by `FieldValue`; a read error, end of input included,
        comes back instead. The reader has read the header, so every record
        it returns has one field per column. */
    method Next() returns (r: Result<seq<real>>)
      requires reader.fields == |columns| && |columns| > 0
      modifies reader
      ensures var s := ReadAt(reader.lines, old(reader.pos), old(reader.fields));
              && reader.fields == s.fields
              && reader.pos == (if old(reader.pos) < |reader.lines| then old(reader.pos) + 1 else old(reader.pos))
              && (r.Err? <==> s.record.Err?)
              && (r.Err? ==> r.error == s.record.error)
              && (r.Ok? ==> |r.value| == |columns|)
              && (r.Ok? ==> forall i | 0 <= i < |columns| ::
                               r.value[i] == FieldValue(parsers, i, s.record.value[i], codecs))
    {
      var rec := reader.Read();
      if rec.Err? {
        return Err(rec.error);
      }
      var values := Fill(rec.value, |columns|, parsers, codecs);
      r := Ok(values);
    }
  }

  /** `New`: a missing parser map becomes an empty one; the first record
      read becomes the column names, in order; if it cannot be read, that
      error is returned beside a loader without columns. */
  method New(reader: RecordReader, parsers: Option<map<int, Parser>>, codecs: Codecs)
    returns (c: Csv, err: Option<Error>)
    modifies reader
    ensures fresh(c) && c.reader == reader && c.codecs == codecs
    ensures c.parsers == (if parsers.Some? then parsers.value else map[])
    ensures var s := ReadAt(reader.lines, old(reader.pos), old(reader.fields));
            && reader.fields == s.fields
            && (s.record.Err? ==> err == Some(s.record.error) && c.columns == [])
            && (s.record.Ok? ==> err == None && c.columns == s.record.value)
    ensures err == None ==> reader.fields == |c.columns|
  {
    var ps := if parsers.None? then map[] else parsers.value;
    c := new Csv(reader, ps, codecs);
    var record := reader.Read();
    if record.Err? {
      return c, Some(record.error);
    }
    var names := CopyNames(record.value);
    c.columns := names;
    err := None;
  }
}
