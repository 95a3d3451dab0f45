/**
 * The entities the file importer works with, and its collaborators, whose code is
 * not part of this model, as values: each collaborator is a function field.
 */
module ImportTypes {
  import opened Wrappers

  /** One parsed activity; the importer only passes containers on, so they are opaque here. */
  type ActivityDataContainer(==)

  /** The bytes of a file, as `file_get_contents` returns them. */
  type Bytes = seq<bv8>

  /** What a file-type converter's `convertFile` returns: one file name or an array of them. */
  datatype ConverterOutput = OneFile(path: string) | ManyFiles(paths: seq<string>)

  /** A file-type converter: the extension it claims and its conversion. */
  datatype Converter = Converter(extension: string, convert: string -> ConverterOutput)

  /** The zip converter: the member files it extracts from an archive. */
  datatype ZipConverter = ZipConverter(extract: string -> seq<string>)

  /** The exceptions the importer catches as `ParserException`. */
  datatype ParserException =
    | UnsupportedFile           // no parser is mapped to the extension
    | ParserError(message: string)

  /** What a parser reports once `parse()` has returned or thrown. */
  datatype ParseRun =
    | Parsed(numberOfActivities: nat, activity: nat -> ActivityDataContainer)
    | Threw(exception: ParserException)

  /** What `file_get_contents` returns: the file's bytes, or `false` (None) when there is no such file. */
  type FileContent = Option<Bytes>

  /**
   * A parser class, described by the input capabilities it implements: a parser that
   * accepts a file name, one that accepts file content, both, or neither. A parser
   * given a name reads that file itself, so what it reports depends on the name and on
   * what the disk holds under it.
   */
  datatype ParserClass = ParserClass(
    byFileName: Option<(string, FileContent) -> ParseRun>,
    byFileContent: Option<FileContent -> ParseRun>)

  /** The extension-to-parser mapping: the keys of its table and its lookup. */
  datatype ParserMapping = ParserMapping(
    keys: seq<string>,
    parserClassFor: string -> Option<ParserClass>)

  /** The outcome of importing one (converted) file. */
  datatype FileImportResult = FileImportResult(
    containers: seq<ActivityDataContainer>,
    fileName: string,
    originalFileName: string,
    exception: Option<ParserException>)
  {
    predicate IsFailed() { exception.Some? }
  }

  datatype LogLevel = Info | Error

  /** Everything the importer does to the outside world, in order. */
  datatype Effect =
    | Created(path: string)                   // a file written by the zip or a file-type converter
    | Removed(path: string)                   // Filesystem::remove
    | Renamed(origin: string, target: string) // Filesystem::rename with overwrite
    | Logged(level: LogLevel, message: string, cause: Option<ParserException>)

  /**
   * The importer's configuration: its converters, zip converter, mapping and quarantine
   * directory, and the content each file has while it exists. The content of a name is
   * fixed for the whole run: a file written over an existing one keeps the old bytes.
   */
  datatype Setup = Setup(
    converters: seq<Converter>,
    zip: ZipConverter,
    mapping: ParserMapping,
    contentOf: string -> Bytes,
    directoryForFailedImports: Option<string>)

  /** The set of files after one effect. */
  function Step(files: set<string>, e: Effect): set<string>
  {
    match e
    case Created(p) => files + {p}
    case Removed(p) => files - {p}
    case Renamed(a, b) => if a in files then files - {a} + {b} else files
    case Logged(_, _, _) => files
  }

  /** The set of files after a sequence of effects. */
  function Replay(files: set<string>, es: seq<Effect>): set<string>
  {
    if es == [] then files else Step(Replay(files, es[..|es| - 1]), es[|es| - 1])
  }

  lemma ReplayStep(files: set<string>, es: seq<Effect>, e: Effect)
    ensures Replay(files, es + [e]) == Step(Replay(files, es), e)
  {
    assert (es + [e])[..|es|] == es;
  }

  /** Replaying two logs one after the other is replaying their concatenation. */
  lemma {:induction false} ReplayAppend(files: set<string>, a: seq<Effect>, b: seq<Effect>)
    ensures Replay(files, a + b) == Replay(Replay(files, a), b)
    decreases |b|
  {
    if b == [] {
      assert a + b == a;
    } else {
      var b' := b[..|b| - 1];
      ReplayAppend(files, a, b');
      assert a + b == (a + b') + [b[|b| - 1]];
      ReplayStep(files, a + b', b[|b| - 1]);
      ReplayStep(Replay(files, a), b', b[|b| - 1]);
    }
  }

  /** The number of log entries in an effect log. */
  function CountLogged(es: seq<Effect>): (n: nat)
    ensures n <= |es|
  {
    if es == [] then 0
    else CountLogged(es[..|es| - 1]) + (if es[|es| - 1].Logged? then 1 else 0)
  }

  lemma {:induction false} CountLoggedAppend(a: seq<Effect>, b: seq<Effect>)
    ensures CountLogged(a + b) == CountLogged(a) + CountLogged(b)
    decreases |b|
  {
    if b == [] {
      assert a + b == a;
    } else {
      assert (a + b)[..|a + b| - 1] == a + b[..|b| - 1];
      CountLoggedAppend(a, b[..|b| - 1]);
    }
  }
}
