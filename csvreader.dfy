/** Package `loader`, file loader/csv.go: the `CSVReader` loader, configured by
    `CSVOptions` (a path, or a reader given directly, and column parsers). The
    package's own `Parser` and `TimeParser` are the same as those of package
    `parser` and are not repeated. */
module CsvReader {
  import opened Base
  import opened Parser
  import opened CsvRecords

  /** `CSVOptions`: `reader` is `None` when no `io.Reader` is given; a nil
      parser map is the empty map. */
  datatype CsvOptions = CsvOptions(path: string, reader: Option<RecordReader>, parsers: map<int, Parser>)

  class CsvReader {
    const reader: RecordReader
    const options: CsvOptions
    const codecs: Codecs
    /** Whether `reader` reads a file `NewCSV` opened (which `Close` closes). */
    const ownsFile: bool
    var columns: seq<string>

    constructor (reader: RecordReader, options: CsvOptions, codecs: Codecs, ownsFile: bool)
      ensures this.reader == reader && this.options == options && this.codecs == codecs
      ensures this.ownsFile == ownsFile && columns == []
    {
      this.reader := reader;
      this.options := options;
      this.codecs := codecs;
      this.ownsFile := ownsFile;
      columns := [];
    }

    /** `Next`: one value per column for the next record, each field
        dispatched with the options' parsers; a read error, end of input
        included, comes back instead. */
    method Next() returns (r: Result<seq<real>>)
      requires reader.fields == |columns| && |columns| > 0
      modifies reader
      ensures var s := ReadAt(reader.lines, old(reader.pos), old(reader.fields));
              && reader.fields == s.fields
              && reader.pos == (if old(reader.pos) < |reader.lines| then old(reader.pos) + 1 else old(reader.pos))
              && (r.Err? <==> s.record.Err?)
              && (r.Err? ==> r.error == s.record.error)
              && (r.Ok? ==> |r.value| == |columns|)
              && (r.Ok? ==> forall i | 0 <= i < |columns| ::
                               r.value[i] == FieldValue(options.parsers, i, s.record.value[i], codecs))
    {
      var rec := reader.Read();
      if rec.Err? {
        return Err(rec.error);
      }
      var values := Fill(rec.value, |columns|, options.parsers, codecs);
      r := Ok(values);
    }
  }

  /** The record reader `NewCSV` reads from: the given one, or else the file
      at the path, whose opening (`file`) may have failed. */
  function Source(opts: CsvOptions, file: Result<RecordReader>): (src: Result<RecordReader>)
    ensures opts.reader.Some? ==> src == Ok(opts.reader.value)
    ensures opts.reader.None? ==> src == file
  {
    if opts.reader.Some? then Ok(opts.reader.value) else file
  }

  /** `NewCSV`: reads from `opts.reader` when given, otherwise from the file
      opened at `opts.path` (`file` is what opening it gave; an opening error
      is returned, with no loader). The first record becomes the column
      names, in order; a header read error is returned beside a loader
      without columns. */
  method NewCsv(opts: CsvOptions, file: Result<RecordReader>, codecs: Codecs)
    returns (c: CsvReader?, err: Option<Error>)
    modifies if Source(opts, file).Ok? then {Source(opts, file).value} else {}
    ensures Source(opts, file).Err? ==> c == null && err == Some(Source(opts, file).error)
    ensures Source(opts, file).Ok? ==>
              var rd := Source(opts, file).value;
              var s := ReadAt(rd.lines, old(rd.pos), old(rd.fields));
              && c != null && fresh(c) && c.reader == rd && c.options == opts
              && c.ownsFile == opts.reader.None?
              && rd.fields == s.fields
              && (s.record.Err? ==> err == Some(s.record.error) && c.columns == [])
              && (s.record.Ok? ==> err == None && c.columns == s.record.value)
    ensures err == None ==> c != null && c.reader.fields == |c.columns|
  {
    var rd: RecordReader;
    if opts.reader.None? {
      if file.Err? {
        return null, Some(file.error);
      }
      rd := file.value;
    } else {
      rd := opts.reader.value;
    }
    c := new CsvReader(rd, opts, codecs, opts.reader.None?);
    var record := rd.Read();
    if record.Err? {
      return c, Some(record.error);
    }
    var names := CopyNames(record.value);
    c.columns := names;
    err := None;
  }
}
