/** Package `parser`, file parser/parser.go: field parsers for CSV columns and
    `ParsersFromArgs`, which reads them from `index,Name,option` arguments. */
module Parser {
  import opened Base
  import opened GoStrings

  /** The one parser kind: a `time.Parse` layout; a parsed time becomes its
      Unix seconds. */
  datatype Parser = TimeParser(format: string)

  /** `TimeParser.Parse`: the Unix seconds of `v` read with the layout, or a
      failure (value 0). */
  function Parse(p: Parser, v: string, codecs: Codecs): (r: Parsed<real>)
    ensures r.ok <==> codecs.parseTime(p.format, v).ok
    ensures r.ok ==> r.value == codecs.parseTime(p.format, v).value as real
    ensures !r.ok ==> r.value == 0.0
  {
    var t := codecs.parseTime(p.format, v);
    if t.ok then Parsed(t.value as real, true) else Parsed(0.0, false)
  }

  /** A parser and the column index it applies to. */
  datatype Entry = Entry(index: Int64, parser: Parser)

  /** One argument of `ParsersFromArgs`: at least three comma fields, the
      first an integer, the second `Time` with exactly three fields. */
  function ArgEntry(arg: string, codecs: Codecs): (r: Result<Entry>)
  {
    var split := Split(arg, ',');
    if |split| < 3 then Err(BadParserOpts(arg))
    else
      var index := codecs.parseInt(split[0]);
      if !index.ok then Err(BadParserOpts(arg))
      else if split[1] == "Time" then
        if |split| != 3 then Err(BadParserOpts(arg))
        else Ok(Entry(index.value, TimeParser(split[2])))
      else Err(UnknownParser(split[1]))
  }

  /** The three ways an argument is refused, and what an accepted one gives. */
  lemma ArgEntryCases(arg: string, codecs: Codecs)
    ensures var s := Split(arg, ',');
      && (|s| < 3 ==> ArgEntry(arg, codecs) == Err(BadParserOpts(arg)))
      && (|s| >= 3 && !codecs.parseInt(s[0]).ok ==> ArgEntry(arg, codecs) == Err(BadParserOpts(arg)))
      && (|s| > 3 && s[1] == "Time" ==> ArgEntry(arg, codecs) == Err(BadParserOpts(arg)))
      && (|s| >= 3 && codecs.parseInt(s[0]).ok && s[1] != "Time" ==> ArgEntry(arg, codecs) == Err(UnknownParser(s[1])))
      && (ArgEntry(arg, codecs).Ok? <==> |s| == 3 && codecs.parseInt(s[0]).ok && s[1] == "Time")
      && (ArgEntry(arg, codecs).Ok? ==>
            ArgEntry(arg, codecs).value == Entry(codecs.parseInt(s[0]).value, TimeParser(s[2])))
  {
  }

  /** The text of an argument with three comma fields. */
  lemma Join3(a: string, b: string, d: string)
    ensures Join([a, b, d], ',') == a + "," + b + "," + d
  {
    var parts := [a, b, d];
    assert parts[1..] == [b, d] && parts[1..][1..] == [d];
    assert Join([b, d], ',') == b + [','] + d;
    assert Join(parts, ',') == a + [','] + (b + [','] + d);
  }

  /** An argument written as `index,Time,format` is read back as exactly that
      entry, whenever `index` parses and neither it nor `format` holds a
      comma. */
  lemma ArgEntryRoundTrip(index: string, format: string, codecs: Codecs)
    requires ',' !in index && ',' !in format
    requires codecs.parseInt(index).ok
    ensures ArgEntry(index + ",Time," + format, codecs)
         == Ok(Entry(codecs.parseInt(index).value, TimeParser(format)))
  {
    Join3(index, "Time", format);
    assert index + "," + "Time" + "," + format == index + ",Time," + format;
    SplitJoin([index, "Time", format], ',');
  }

  /** Every accepted argument has that form: its comma fields are the
      index, `Time` and the layout (and joining them gives the argument
      back, as for any split). */
  lemma ArgEntryShape(arg: string, codecs: Codecs)
    requires ArgEntry(arg, codecs).Ok?
    ensures Split(arg, ',') == [Split(arg, ',')[0], "Time", ArgEntry(arg, codecs).value.parser.format]
  {
    var s := Split(arg, ',');
    assert |s| == 3 && s[1] == "Time";
  }

  /** The map built from the entries `es` in order, a later entry for an
      index replacing an earlier one; the first error ends the build. */
  function Build(es: seq<Result<Entry>>): Result<map<int, Parser>>
  {
    if |es| == 0 then Ok(map[])
    else
      match Build(es[..|es| - 1])
      case Err(e) => Err(e)
      case Ok(m) =>
        match es[|es| - 1]
        case Err(e) => Err(e)
        case Ok(entry) => Ok(m[entry.index := entry.parser])
  }

  function Entries(args: seq<string>, codecs: Codecs): (es: seq<Result<Entry>>)
    ensures |es| == |args| && forall k | 0 <= k < |args| :: es[k] == ArgEntry(args[k], codecs)
  {
    seq(|args|, k requires 0 <= k < |args| => ArgEntry(args[k], codecs))
  }

  /** What `ParsersFromArgs` returns for `args`. */
  function ParsersOf(args: seq<string>, codecs: Codecs): Result<map<int, Parser>>
  {
    Build(Entries(args, codecs))
  }

  /** Once an error is met, it is the result of the whole build. */
  lemma {:induction false} BuildErr(es: seq<Result<Entry>>, k: nat)
    requires k <= |es| && Build(es[..k]).Err?
    ensures Build(es) == Build(es[..k])
    decreases |es| - k
  {
    if k < |es| {
      assert es[..k + 1][..k] == es[..k];
      BuildErr(es, k + 1);
    } else {
      assert es[..k] == es;
    }
  }

  /** `ParsersFromArgs`. */
  method ParsersFromArgs(args: seq<string>, codecs: Codecs) returns (r: Result<map<int, Parser>>)
    ensures r == ParsersOf(args, codecs)
  {
    ghost var es := Entries(args, codecs);
    var parsers: map<int, Parser> := map[];
    var k := 0;
    assert es[..0] == [];
    while k < |args|
      invariant k <= |args|
      invariant Build(es[..k]) == Ok(parsers)
    {
      assert es[..k + 1][..k] == es[..k];
      match ArgEntry(args[k], codecs) {
        case Err(e) =>
          BuildErr(es, k + 1);
          return Err(e);
        case Ok(entry) =>
          parsers := parsers[entry.index := entry.parser];
      }
      k := k + 1;
    }
    assert es[..k] == es;
    r := Ok(parsers);
  }

  /** The build fails exactly when some entry is an error, and then with the
      error of the first one. */
  lemma {:induction false} BuildError(es: seq<Result<Entry>>)
    ensures Build(es).Err? <==> exists k | 0 <= k < |es| :: es[k].Err?
    ensures Build(es).Err? ==>
      exists k | 0 <= k < |es| :: es[k] == Err(Build(es).error) && forall i | 0 <= i < k :: es[i].Ok?
  {
    if |es| > 0 {
      var init := es[..|es| - 1];
      BuildError(init);
      assert forall k | 0 <= k < |init| :: init[k] == es[k];
    }
  }

  /** A successful build maps exactly the indices of the entries. */
  lemma {:induction false} BuildKeys(es: seq<Result<Entry>>)
    requires Build(es).Ok?
    ensures forall k | 0 <= k < |es| :: es[k].Ok?
    ensures forall i :: i in Build(es).value <==> exists k | 0 <= k < |es| :: es[k].value.index == i
  {
    if |es| > 0 {
      var init := es[..|es| - 1];
      BuildKeys(init);
      assert forall k | 0 <= k < |init| :: init[k] == es[k];
    }
  }

  /** In a successful build each index holds the parser of the last entry
      with that index. */
  lemma {:induction false} BuildLastWins(es: seq<Result<Entry>>, k: nat)
    requires Build(es).Ok? && k < |es|
    requires forall l | k < l < |es| :: es[k].Ok? && es[l].Ok? ==> es[l].value.index != es[k].value.index
    ensures es[k].Ok? && es[k].value.index in Build(es).value
    ensures Build(es).value[es[k].value.index] == es[k].value.parser
  {
    var n := |es| - 1;
    var init := es[..n];
    assert Build(init).Ok? && es[n].Ok?;
    if k < n {
      assert init[k] == es[k];
      forall l | k < l < |init| ensures init[k].Ok? && init[l].Ok? ==> init[l].value.index != init[k].value.index {
        assert init[l] == es[l];
      }
      BuildLastWins(init, k);
    }
  }

  /** No arguments, no parsers. */
  lemma NoArgs(codecs: Codecs)
    ensures ParsersOf([], codecs) == Ok(map[])
  {
  }

  /** A single `index,Time,format` argument, such as `1,Time,2006-01-02`,
      gives a map with just that parser at that index. */
  lemma OneTimeArg(index: string, format: string, codecs: Codecs)
    requires ',' !in index && ',' !in format
    requires codecs.parseInt(index).ok
    ensures ParsersOf([index + ",Time," + format], codecs)
         == Ok(map[codecs.parseInt(index).value := TimeParser(format)])
  {
    ArgEntryRoundTrip(index, format, codecs);
    var es := Entries([index + ",Time," + format], codecs);
    assert es[..0] == [];
    assert es[0] == Ok(Entry(codecs.parseInt(index).value, TimeParser(format)));
    assert Build(es) == Ok(map[][codecs.parseInt(index).value := TimeParser(format)]);
  }
}
