/**
 * A configuration file in YAML format validated against a JSON schema:
 * `ConfigFile` keeps the loaded data, which is set only by a load that
 * succeeds, and a failed validation is reported with the path of the
 * offending item written as `fixups[0].name`.
 *
 * Reading and parsing the file and validating it are inputs: the answer of
 * the file system and the YAML parser is a `ReadResult`, and the schema is
 * represented by its validator, which gives the path of the invalid item.
 */
module ConfigFile {
  import opened Wrappers
  import opened Text

  // ---------------------------------------------------------------------
  // The path of an invalid item
  // ---------------------------------------------------------------------

  /** A component of a validation error's absolute path: a list index or a mapping key. */
  datatype PathComponent = Index(i: nat) | Key(k: string)

  /**
   * The text for a path: an index adds `[i]`, a key adds itself, preceded
   * by `.` when the text so far is not empty.
   */
  function ParmStr(path: seq<PathComponent>): string {
    if path == [] then ""
    else
      var s := ParmStr(path[..|path| - 1]);
      match path[|path| - 1]
      case Index(i) => s + "[" + NatToString(i) + "]"
      case Key(k) => (if s != "" then s + "." else s) + k
  }

  lemma ParmStrStep(path: seq<PathComponent>, n: nat)
    requires n < |path|
    ensures ParmStr(path[..n + 1])
         == match path[n]
            case Index(i) => ParmStr(path[..n]) + "[" + NatToString(i) + "]"
            case Key(k) => (if ParmStr(path[..n]) != "" then ParmStr(path[..n]) + "." else ParmStr(path[..n])) + k
  {
    assert path[..n + 1][..n] == path[..n];
  }

  /** The `parm_str` loop of `load`. */
  method FormatPath(path: seq<PathComponent>) returns (parmStr: string)
    ensures parmStr == ParmStr(path)
  {
    parmStr := "";
    for n := 0 to |path|
      invariant parmStr == ParmStr(path[..n])
    {
      ParmStrStep(path, n);
      match path[n]
      case Index(i) =>
        parmStr := parmStr + "[" + NatToString(i) + "]";
      case Key(k) =>
        if parmStr != "" {
          parmStr := parmStr + ".";
        }
        parmStr := parmStr + k;
    }
    assert path[..|path|] == path;
  }

  /** The keys of a path made of keys only. */
  function Keys(keys: seq<string>): (path: seq<PathComponent>)
    ensures |path| == |keys| && forall n :: 0 <= n < |keys| ==> path[n] == Key(keys[n])
  {
    if keys == [] then [] else Keys(keys[..|keys| - 1]) + [Key(keys[|keys| - 1])]
  }

  /** A path of non-empty keys is written as the keys joined with dots. */
  lemma {:induction false} KeysJoinWithDots(keys: seq<string>)
    requires forall n :: 0 <= n < |keys| ==> keys[n] != ""
    ensures ParmStr(Keys(keys)) == Join(keys, ".")
    ensures keys != [] ==> ParmStr(Keys(keys)) != ""
  {
    if keys != [] {
      var init := keys[..|keys| - 1];
      KeysJoinWithDots(init);
      assert Keys(keys)[..|keys| - 1] == Keys(init);
    }
  }

  /** Appending a component leaves the text for the path before it in front. */
  lemma {:induction false} ParmStrExtends(path: seq<PathComponent>, c: PathComponent)
    ensures ParmStr(path) <= ParmStr(path + [c])
    ensures c != Key("") ==> |ParmStr(path + [c])| > |ParmStr(path)|
  {
    assert (path + [c])[..|path|] == path;
  }

  /** The examples of the error messages: `fixups[0].name`, `[0].a` and the empty path. */
  lemma ParmStrExamples()
    ensures ParmStr([Key("fixups"), Index(0), Key("name")]) == "fixups[0].name"
    ensures ParmStr([Index(0), Key("a")]) == "[0].a"
    ensures ParmStr([]) == ""
  {
    var p := [Key("fixups"), Index(0), Key("name")];
    assert p[..2] == [Key("fixups"), Index(0)];
    assert p[..2][..1] == [Key("fixups")];
    assert [Key("fixups")][..0] == [];
    var q := [Index(0), Key("a")];
    assert q[..1] == [Index(0)];
    assert [Index(0)][..0] == [];
  }

  // ---------------------------------------------------------------------
  // Loading
  // ---------------------------------------------------------------------

  /**
   * The answer of opening and parsing the file: not found (ENOENT),
   * another open error, a YAML syntax error (a parser or scanner error),
   * another YAML error, or the parsed document.
   */
  datatype ReadResult<D> =
    | NoSuchFile
    | OpenError(msg: string)
    | YamlSyntaxError(msg: string)
    | OtherYamlError(msg: string)
    | Parsed(doc: D)

  /**
   * The answer of the schema validator, which fills the schema's defaults
   * into the document as it validates it: the filled document, or the
   * path of the invalid item.
   */
  datatype Validation<D> = Valid(filled: D) | Invalid(path: seq<PathComponent>)

  /** `ConfigFileError`, by its message kind. */
  datatype ConfigFileError =
    | NotFound(file: string)
    | CannotOpen(file: string, msg: string)
    | InvalidYaml(file: string, msg: string)
    | InvalidItem(file: string, parm: string)

  /**
   * How `load()` ends: normally, by raising `ConfigFileError`, or by
   * letting a YAML error other than a syntax error escape unchanged.
   */
  datatype LoadOutcome = Loaded | Raised(err: ConfigFileError) | Escaped(msg: string)

  class ConfigFile<D> {
    const filepath: string
    /** The JSON schema with default filling, as its validator. */
    const validate: D -> Validation<D>
    /** `None` until a load succeeds. */
    var data: Option<D>

    /** A new object keeps the path and the schema and has no data yet. */
    constructor (filepath: string, validate: D -> Validation<D>)
      ensures this.filepath == filepath && this.validate == validate && data == None
    {
      this.filepath := filepath;
      this.validate := validate;
      data := None;
    }

    /**
     * `load()`. The data is set, to the document with the schema's
     * defaults filled in, exactly when the document is read and valid; a
     * failed load leaves it as it was.
     */
    method Load(read: ReadResult<D>) returns (r: LoadOutcome)
      modifies this
      ensures r.Loaded? <==> read.Parsed? && validate(read.doc).Valid?
      ensures r.Loaded? ==> data == Some(validate(read.doc).filled)
      ensures !r.Loaded? ==> data == old(data)
      ensures read.NoSuchFile? ==> r == Raised(NotFound(filepath))
      ensures read.OpenError? ==> r == Raised(CannotOpen(filepath, read.msg))
      ensures read.YamlSyntaxError? ==> r == Raised(InvalidYaml(filepath, read.msg))
      ensures read.OtherYamlError? ==> r == Escaped(read.msg)
      ensures read.Parsed? && validate(read.doc).Invalid? ==>
        r == Raised(InvalidItem(filepath, ParmStr(validate(read.doc).path)))
    {
      match read
      case NoSuchFile =>
        return Raised(NotFound(filepath));
      case OpenError(msg) =>
        return Raised(CannotOpen(filepath, msg));
      case YamlSyntaxError(msg) =>
        return Raised(InvalidYaml(filepath, msg));
      case OtherYamlError(msg) =>
        return Escaped(msg);
      case Parsed(doc) =>
        var checked := validate(doc);
        if checked.Invalid? {
          var parmStr := FormatPath(checked.path);
          return Raised(InvalidItem(filepath, parmStr));
        }
        data := Some(checked.filled);
        return Loaded;
    }
  }
}
