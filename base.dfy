/** Shared wrappers: optional values, error results, and the error values the
    packages of the data engine return. */
module Base {

  datatype Option<+T> = None | Some(value: T)

  /** Errors returned by the engine. `Eof` plays the part of `io.EOF`;
      `FieldCount` is `encoding/csv`'s `ErrFieldCount`; `ReaderError` stands
      for any other error a reader or a file reports. */
  datatype Error =
    | NotFound
    | NoData
    | Eof
    | UnequalValues
    | UnknownFileType
    | UnknownEncoding(code: int)
    | BadParserOpts(arg: string)
    | UnknownParser(name: string)
    | IndexOutOfRange
    | FieldCount
    | ReaderError(code: int)

  datatype Result<+T> = Ok(value: T) | Err(error: Error)

  /** A value produced by a Go parsing routine together with its error flag:
      Go returns a value even when it also returns an error, and some callers
      ignore the error and use the value. */
  datatype Parsed<+T> = Parsed(value: T, ok: bool)

  /** The standard-library parsers and formatters the engine calls, taken as
      given functions: `strconv.ParseInt(s, 0, 64)`, `strconv.ParseFloat(s, 64)`,
      `time.ParseDuration`, `time.Duration.String` and
      `time.Parse(format, value)` followed by `Unix()`. */
  datatype Codecs = Codecs(
    parseInt: string -> Parsed<Int64>,
    parseFloat: string -> Parsed<real>,
    parseDuration: string -> Parsed<Int64>,
    formatDuration: Int64 -> string,
    parseTime: (string, string) -> Parsed<int>)

  const MinInt64: int := -0x8000_0000_0000_0000
  const MaxInt64: int := 0x7FFF_FFFF_FFFF_FFFF

  /** Go's `int64`. */
  type Int64 = x: int | MinInt64 <= x <= MaxInt64

  /** Go's `int64` addition: the exact sum when it fits, otherwise the sum
      wrapped around by 2^64 (two's complement). */
  function Add64(a: Int64, b: Int64): (r: Int64)
    ensures MinInt64 <= a + b <= MaxInt64 ==> r == a + b
    ensures a + b > MaxInt64 ==> r == a + b - 0x1_0000_0000_0000_0000
    ensures a + b < MinInt64 ==> r == a + b + 0x1_0000_0000_0000_0000
  {
    if a + b > MaxInt64 then a + b - 0x1_0000_0000_0000_0000
    else if a + b < MinInt64 then a + b + 0x1_0000_0000_0000_0000
    else a + b
  }

  /** Clamps an unbounded integer into the `int64` range. */
  function Saturate64(x: int): (r: Int64)
    ensures MinInt64 <= x <= MaxInt64 ==> r == x
    ensures x > MaxInt64 ==> r == MaxInt64
    ensures x < MinInt64 ==> r == MinInt64
  {
    if x > MaxInt64 then MaxInt64 else if x < MinInt64 then MinInt64 else x
  }
}
