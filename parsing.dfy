/**
 * FileImporter::parseSingleFile, letParserParseFile and getFileImportResultFor as
 * specifications: which parser reads a file, how it is fed, and how its outcome or
 * its exception becomes a FileImportResult.
 */
module Parsing {
  import opened Wrappers
  import opened Paths
  import opened ImportTypes

  /** The message of the exception for a parser that takes neither a file name nor content. */
  const NoInputMethodMessage: string := "Chosen parser has no method to set file name or content."

  /** `file_get_contents`: the file's content while it is on disk, `false` once it is gone. */
  function ReadFile(contentOf: string -> Bytes, files: set<string>, fileName: string): FileContent
  {
    if fileName in files then Some(contentOf(fileName)) else None
  }

  /**
   * letParserParseFile: a parser that takes a file name gets the name and reads the
   * file itself; otherwise one that takes content gets what `file_get_contents`
   * returns; otherwise a ParserException is thrown.
   */
  function LetParserParseFile(contentOf: string -> Bytes, files: set<string>, parser: ParserClass, fileName: string): ParseRun
  {
    if parser.byFileName.Some? then parser.byFileName.value(fileName, ReadFile(contentOf, files, fileName))
    else if parser.byFileContent.Some? then parser.byFileContent.value(ReadFile(contentOf, files, fileName))
    else Threw(ParserError(NoInputMethodMessage))
  }

  /** The containers at indices 0 .. n-1, in order. */
  function Containers(n: nat, activity: nat -> ActivityDataContainer): (cs: seq<ActivityDataContainer>)
    ensures |cs| == n
    ensures forall i :: 0 <= i < n ==> cs[i] == activity(i)
  {
    seq(n, i requires 0 <= i => activity(i))
  }

  /**
   * parseSingleFile on the given files: the containers read from a file, or the
   * ParserException it throws.
   */
  function ParseOutcome(s: Setup, files: set<string>, fileName: string): Result<seq<ActivityDataContainer>, ParserException>
  {
    match s.mapping.parserClassFor(Extension(fileName))
    case None => Failure(UnsupportedFile)
    case Some(parser) =>
      match LetParserParseFile(s.contentOf, files, parser, fileName)
      case Threw(e) => Failure(e)
      case Parsed(n, activity) => Success(Containers(n, activity))
  }

  /**
   * getFileImportResultFor: a missing original name defaults to the file name; a
   * ParserException does not escape but becomes a failed result without containers.
   */
  function ImportResultFor(s: Setup, files: set<string>, fileName: string, originalFileName: Option<string>): (r: FileImportResult)
    ensures r.fileName == fileName
    ensures r.originalFileName == (if originalFileName.Some? then originalFileName.value else fileName)
    ensures r.IsFailed() <==> ParseOutcome(s, files, fileName).Failure?
    ensures r.IsFailed() ==> r.containers == [] && r.exception == Some(ParseOutcome(s, files, fileName).error)
    ensures !r.IsFailed() ==> r.containers == ParseOutcome(s, files, fileName).value
  {
    var original := if originalFileName.Some? then originalFileName.value else fileName;
    match ParseOutcome(s, files, fileName)
    case Success(containers) => FileImportResult(containers, fileName, original, None)
    case Failure(e) => FileImportResult([], fileName, original, Some(e))
  }

  // ---------------------------------------------------------------------------
  // Properties of parsing

  /** A file whose extension is mapped to no parser gives a failed result: UnsupportedFile. */
  lemma UnmappedExtensionIsUnsupported(s: Setup, files: set<string>, fileName: string, original: Option<string>)
    requires s.mapping.parserClassFor(Extension(fileName)).None?
    ensures ImportResultFor(s, files, fileName, original).exception == Some(UnsupportedFile)
    ensures ImportResultFor(s, files, fileName, original).containers == []
  {
  }

  /** A parser with neither input capability gives a failed result with that exception's message. */
  lemma ParserWithoutInputFails(s: Setup, files: set<string>, fileName: string, original: Option<string>)
    requires s.mapping.parserClassFor(Extension(fileName)) == Some(ParserClass(None, None))
    ensures ImportResultFor(s, files, fileName, original).exception == Some(ParserError(NoInputMethodMessage))
    ensures ImportResultFor(s, files, fileName, original).containers == []
  {
  }

  /** A parser that accepts both a file name and content is given the file name. */
  lemma FileNameTakesPrecedence(contentOf: string -> Bytes, files: set<string>, parser: ParserClass, fileName: string)
    requires parser.byFileName.Some? && parser.byFileContent.Some?
    ensures LetParserParseFile(contentOf, files, parser, fileName)
         == parser.byFileName.value(fileName, ReadFile(contentOf, files, fileName))
  {
  }

  /**
   * A parser that takes only content is handed the file's bytes while the file exists,
   * and `false` once it is gone.
   */
  lemma ContentParserReadsTheDisk(contentOf: string -> Bytes, files: set<string>, parser: ParserClass, fileName: string)
    requires parser.byFileName.None? && parser.byFileContent.Some?
    ensures fileName in files ==>
      LetParserParseFile(contentOf, files, parser, fileName) == parser.byFileContent.value(Some(contentOf(fileName)))
    ensures fileName !in files ==>
      LetParserParseFile(contentOf, files, parser, fileName) == parser.byFileContent.value(None)
  {
  }

  /**
   * Parsing a file looks at the disk only through that one file: two disks that agree
   * on whether it exists give the same result.
   */
  lemma ParseSeesOnlyItsFile(s: Setup, files: set<string>, other: set<string>, fileName: string, original: Option<string>)
    requires fileName in files <==> fileName in other
    ensures ImportResultFor(s, files, fileName, original) == ImportResultFor(s, other, fileName, original)
  {
    assert ReadFile(s.contentOf, files, fileName) == ReadFile(s.contentOf, other, fileName);
  }

  /**
   * A parser that returns normally yields a successful result holding exactly its
   * reported number of containers, taken at indices 0 .. n-1 in order.
   */
  lemma ParsedContainersInOrder(s: Setup, files: set<string>, fileName: string, original: Option<string>, parser: ParserClass)
    requires s.mapping.parserClassFor(Extension(fileName)) == Some(parser)
    requires LetParserParseFile(s.contentOf, files, parser, fileName).Parsed?
    ensures var run := LetParserParseFile(s.contentOf, files, parser, fileName);
      var r := ImportResultFor(s, files, fileName, original);
      && !r.IsFailed()
      && |r.containers| == run.numberOfActivities
      && forall i :: 0 <= i < run.numberOfActivities ==> r.containers[i] == run.activity(i)
  {
  }
}
