/** Package `loaders`, file loaders/loader.go: the file type of a path, and
    the defaulting of a load's type and name from its path. */
module Loaders {
  import Base
  import opened GoStrings

  /** `loaders.FileType`. */
  datatype FileType = None | CSV | TCX

  /** `FileTypeByName`: `csv` and `tcx` name their types, nothing else has
      one. */
  function FileTypeByName(name: string): (t: FileType)
    ensures t == CSV <==> name == "csv"
    ensures t == TCX <==> name == "tcx"
    ensures t == None <==> name != "csv" && name != "tcx"
  {
    if name == "csv" then CSV
    else if name == "tcx" then TCX
    else None
  }

  /** The type a path implies: that of the text after its last `.`. */
  function TypeOfPath(path: string): (t: FileType)
    ensures t == FileTypeByName(LastPiece(path, '.'))
  {
    var split := Split(path, '.');
    FileTypeByName(split[|split| - 1])
  }

  /** The name a path implies: the last `/`-separated segment, up to its
      first `.`. It holds neither separator and starts that segment, which
      ends the path. */
  function NameOfPath(path: string): (n: string)
    ensures '/' !in n && '.' !in n
    ensures n <= LastPiece(path, '/')
  {
    var split := Split(path, '/');
    var file := split[|split| - 1];
    SplitFirst(file, '.');
    Split(file, '.')[0]
  }

  /** The path `dir/.../base.ext` of the directories `dirs`. */
  function PathOf(dirs: seq<string>, base: string, ext: string): string
  {
    Join(dirs + [base + "." + ext], '/')
  }

  /** The type of `dir/.../base.ext` is that of `ext`, when `ext` holds no
      dot. */
  lemma PathType(dirs: seq<string>, base: string, ext: string)
    requires '.' !in ext
    ensures TypeOfPath(PathOf(dirs, base, ext)) == FileTypeByName(ext)
  {
    var file := base + "." + ext;
    JoinSnoc(dirs, file, '/');
    var front := if |dirs| == 0 then [] else Join(dirs, '/') + ['/'];
    assert PathOf(dirs, base, ext) == (front + base) + ['.'] + ext;
    LastPieceAfter(front + base, '.', ext);
  }

  /** The name of `dir/.../base.ext` is `base`, when no directory holds a
      slash and `base` and `ext` hold neither separator. */
  lemma PathName(dirs: seq<string>, base: string, ext: string)
    requires forall k | 0 <= k < |dirs| :: '/' !in dirs[k]
    requires '/' !in base && '.' !in base && '/' !in ext
    ensures NameOfPath(PathOf(dirs, base, ext)) == base
  {
    var file := base + "." + ext;
    var parts := dirs + [file];
    assert file == base + ['.'] + ext;
    forall k | 0 <= k < |parts| ensures '/' !in parts[k] {
      if k < |dirs| {
        assert parts[k] == dirs[k];
      }
    }
    SplitJoin(parts, '/');
    SplitCons(base, '.', ext);
  }

  /** The `Options` of a load; `Load` fills in the type and the name. The
      CSV-specific options and the dump flags are not part of this model. */
  class Options {
    var name: string
    const path: string
    var fileType: FileType

    constructor (name: string, path: string, fileType: FileType)
      ensures this.name == name && this.path == path && this.fileType == fileType
    {
      this.name := name;
      this.path := path;
      this.fileType := fileType;
    }
  }

  /** `Load`: without a type, the type is taken from the path; without a
      name, the name too. Then the outcome: the error of opening the file
      (`openErr`), else for CSV whatever `csv.New` reported (`csvErr`; the
      CSV loader it builds is not part of this model), else
      `ErrUnknownFileType`. */
  method Load(opts: Options, openErr: Base.Option<Base.Error>, csvErr: Base.Option<Base.Error>)
    returns (err: Base.Option<Base.Error>)
    modifies opts
    ensures opts.fileType == (if old(opts.fileType) == None then TypeOfPath(opts.path) else old(opts.fileType))
    ensures opts.name == (if old(opts.name) == "" then NameOfPath(opts.path) else old(opts.name))
    ensures openErr.Some? ==> err == openErr
    ensures openErr.None? && opts.fileType == CSV ==> err == csvErr
    ensures openErr.None? && opts.fileType != CSV ==> err == Base.Some(Base.UnknownFileType)
  {
    if opts.fileType == None {
      opts.fileType := TypeOfPath(opts.path);
    }
    if opts.name == "" {
      opts.name := NameOfPath(opts.path);
    }
    if openErr.Some? {
      return openErr;
    }
    if opts.fileType == CSV {
      return csvErr;
    }
    return Base.Some(Base.UnknownFileType);
  }
}
