/**
 * The FileImporter service: its collaborators, the files on disk and the ordered log
 * of what it has done to them, and its import methods, each proved against the
 * specification functions of Conversion, Parsing, Finalisation and Importing.
 */
module FileImporting {
  import opened Wrappers
  import opened Paths
  import opened ImportTypes
  import opened Conversion
  import opened Parsing
  import opened Finalisation
  import opened Importing
  import opened Seqs

  class FileImporter {
    /** The file-type converters, in the order they are tried: FIT, TTbin, KMZ. */
    const converters: seq<Converter>
    const zipConverter: ZipConverter
    const parserMapping: ParserMapping
    const directoryForFailedImports: Option<string>
    /** The content each file has while it is on disk. */
    const contentOf: string -> Bytes
    /** How deeply each path is nested in archives; it bounds the zip recursion. */
    ghost const nesting: string -> nat
    /** The files on disk when the importer was built. */
    ghost const startFiles: set<string>

    /** The files on disk. */
    var files: set<string>
    /** Everything done to the disk and written to the log so far, in order. */
    var effects: seq<Effect>

    function Config(): Setup
    {
      Setup(converters, zipConverter, parserMapping, contentOf, directoryForFailedImports)
    }

    /**
     * The zip recursion terminates, and the files on disk are those there at the
     * start, changed by every effect since.
     */
    ghost predicate Valid()
      reads this
    {
      WellNested(zipConverter, nesting) && files == Replay(startFiles, effects)
    }

    /**
     * The converters are FIT, TTbin and KMZ, in that order; the zip converter is built
     * for the supported extensions.
     */
    constructor (
      fitConverter: Converter,
      ttbinConverter: Converter,
      kmzConverter: Converter,
      zipConverterFor: seq<string> -> ZipConverter,
      mapping: ParserMapping,
      contentOf: string -> Bytes,
      directoryForFailedImports: Option<string>,
      files: set<string>,
      ghost nesting: string -> nat)
      requires WellNested(zipConverterFor(SupportedFileExtensions(mapping.keys, [fitConverter, ttbinConverter, kmzConverter])), nesting)
      ensures converters == [fitConverter, ttbinConverter, kmzConverter]
      ensures zipConverter == zipConverterFor(SupportedFileExtensions(mapping.keys, converters))
      ensures parserMapping == mapping && this.contentOf == contentOf
      ensures this.directoryForFailedImports == directoryForFailedImports
      ensures this.files == files && effects == []
      ensures this.nesting == nesting && Valid()
    {
      converters := [fitConverter, ttbinConverter, kmzConverter];
      parserMapping := mapping;
      zipConverter := zipConverterFor(SupportedFileExtensions(mapping.keys, [fitConverter, ttbinConverter, kmzConverter]));
      this.contentOf := contentOf;
      this.directoryForFailedImports := directoryForFailedImports;
      this.nesting := nesting;
      startFiles := files;
      this.files := files;
      effects := [];
    }

    /** getSupportedFileExtensions. */
    function GetSupportedFileExtensions(): (exts: seq<string>)
      ensures exts == SupportedFileExtensions(parserMapping.keys, converters)
    {
      SupportedFileExtensions(parserMapping.keys, converters)
    }

    /** Performs one effect on the disk or the log. */
    method Perform(e: Effect)
      requires Valid()
      modifies this
      ensures Valid()
      ensures effects == old(effects) + [e]
    {
      files := Step(files, e);
      effects := effects + [e];
      ReplayStep(startFiles, old(effects), e);
    }

    /** A converter writing its output files. */
    method CreateFiles(names: seq<string>)
      requires Valid()
      modifies this
      ensures Valid()
      ensures effects == old(effects) + CreatedAll(names)
    {
      for i := 0 to |names|
        invariant Valid()
        invariant effects == old(effects) + CreatedAll(names[..i])
      {
        assert names[..i + 1][..i] == names[..i];
        Perform(Created(names[i]));
      }
      assert names[..|names|] == names;
    }

    /** convertFileNameIfRequired. */
    method ConvertFileNameIfRequired(fileName: string) returns (convertedFileNames: seq<string>)
      requires Valid()
      modifies this
      ensures Valid()
      ensures convertedFileNames == Convert(Config(), nesting, fileName).names
      ensures effects == old(effects) + Convert(Config(), nesting, fileName).effects
      decreases nesting(fileName), 1
    {
      var extension := Extension(fileName);

      if extension == ZipExtension {
        convertedFileNames := ConvertArchive(fileName);
        return;
      }

      for i := 0 to |converters|
        invariant forall j :: 0 <= j < i ==> converters[j].extension != extension
      {
        if converters[i].extension == extension {
          assert FirstConverter(converters, extension) == Some(i);
          var result := converters[i].convert(fileName);
          convertedFileNames := AsList(result);
          CreateFiles(convertedFileNames);
          return;
        }
      }

      assert FirstConverter(converters, extension) == None;
      convertedFileNames := [fileName];
    }

    /**
     * The zip branch of convertFileNameIfRequired: extract the archive, then convert
     * each member and remove it.
     */
    method ConvertArchive(fileName: string) returns (convertedFileNames: seq<string>)
      requires Valid() && IsArchive(fileName)
      modifies this
      ensures Valid()
      ensures convertedFileNames == Convert(Config(), nesting, fileName).names
      ensures effects == old(effects) + Convert(Config(), nesting, fileName).effects
      decreases nesting(fileName), 0
    {
      convertedFileNames := [];
      var zipFiles := zipConverter.extract(fileName);
      CreateFiles(zipFiles);
      ghost var extracted := effects;
      ghost var bound := nesting(fileName);

      for i := 0 to |zipFiles|
        invariant Valid()
        invariant convertedFileNames == ConvertMembers(Config(), nesting, zipFiles[..i], bound).names
        invariant effects == extracted + ConvertMembers(Config(), nesting, zipFiles[..i], bound).effects
      {
        var more := ConvertFileNameIfRequired(zipFiles[i]);
        convertedFileNames := convertedFileNames + more;
        Perform(Removed(zipFiles[i]));
        ConvertMembersPrefix(Config(), nesting, zipFiles, bound, i);
        ghost var done := ConvertMembers(Config(), nesting, zipFiles[..i], bound).effects;
        ghost var step := Convert(Config(), nesting, zipFiles[i]).effects;
        AppendAssoc(extracted, done, step);
        AppendAssoc(extracted, done + step, [Removed(zipFiles[i])]);
      }
      assert zipFiles[..|zipFiles|] == zipFiles;
      ghost var inner := ConvertMembers(Config(), nesting, zipFiles, bound);
      assert Convert(Config(), nesting, fileName) == Conversion(inner.names, CreatedAll(zipFiles) + inner.effects);
      AppendAssoc(old(effects), CreatedAll(zipFiles), inner.effects);
    }

    /** parseSingleFile: the containers the mapped parser reports, read one by one. */
    method ParseSingleFile(fileName: string) returns (r: Result<seq<ActivityDataContainer>, ParserException>)
      ensures r == ParseOutcome(Config(), files, fileName)
    {
      var extension := Extension(fileName);
      var parserClass := parserMapping.parserClassFor(extension);

      if parserClass.None? {
        return Failure(UnsupportedFile);
      }

      var run := LetParserParseFile(contentOf, files, parserClass.value, fileName);
      if run.Threw? {
        return Failure(run.exception);
      }

      var container := [];
      var numContainer := run.numberOfActivities;
      for i := 0 to numContainer
        invariant |container| == i
        invariant forall j :: 0 <= j < i ==> container[j] == run.activity(j)
      {
        container := container + [run.activity(i)];
      }
      assert container == Containers(numContainer, run.activity);
      return Success(container);
    }

    /** getFileImportResultFor. */
    method GetFileImportResultFor(fileName: string, originalFileName: Option<string>) returns (r: FileImportResult)
      ensures r == ImportResultFor(Config(), files, fileName, originalFileName)
    {
      var original := if originalFileName.None? then fileName else originalFileName.value;
      var parsed := ParseSingleFile(fileName);
      match parsed
      case Success(containers) => r := FileImportResult(containers, fileName, original, None);
      case Failure(e) => r := FileImportResult([], fileName, original, Some(e));
    }

    /** logSingleFileImport. */
    method LogSingleFileImport(result: FileImportResult)
      requires Valid()
      modifies this
      ensures Valid()
      ensures effects == old(effects) + FinaliseEffects(directoryForFailedImports, result)
    {
      var name := FileNameForLog(result);
      ghost var d := DispositionEffects(directoryForFailedImports, result);
      if result.IsFailed() {
        Perform(Logged(Error, FailureMessage(name), result.exception));
        if directoryForFailedImports.Some? && directoryForFailedImports.value != "" {
          Perform(Renamed(result.originalFileName,
                          Join(directoryForFailedImports.value, BaseName(result.originalFileName))));
        } else {
          Perform(Removed(result.originalFileName));
        }
      } else {
        Perform(Logged(Info, SuccessMessage(name), None));
        Perform(Removed(result.originalFileName));
      }
      assert effects == old(effects) + [d[0]] + [d[1]];
      AppendAssoc(old(effects), [d[0]], [d[1]]);
      assert [d[0]] + [d[1]] == d;
      ghost var disposed := effects;

      if result.originalFileName != result.fileName {
        Perform(Removed(result.fileName));
      }
      assert effects == disposed + CleanupEffects(result);
      AppendAssoc(old(effects), d, CleanupEffects(result));
    }

    /** logFileImports: each result in collection order. */
    method LogFileImports(results: seq<FileImportResult>)
      requires Valid()
      modifies this
      ensures Valid()
      ensures effects == old(effects) + HandleEffects(directoryForFailedImports, results)
    {
      for i := 0 to |results|
        invariant Valid()
        invariant effects == old(effects) + HandleEffects(directoryForFailedImports, results[..i])
      {
        LogSingleFileImport(results[i]);
        FlatMapPrefix(r => FinaliseEffects(directoryForFailedImports, r), results, i);
        AppendAssoc(old(effects), HandleEffects(directoryForFailedImports, results[..i]),
                    FinaliseEffects(directoryForFailedImports, results[i]));
      }
      assert results[..|results|] == results;
    }

    /** handleResults: logs and finalises the collection and hands it back. */
    method HandleResults(results: seq<FileImportResult>) returns (handled: seq<FileImportResult>)
      requires Valid()
      modifies this
      ensures Valid()
      ensures handled == results
      ensures effects == old(effects) + HandleEffects(directoryForFailedImports, results)
    {
      LogFileImports(results);
      handled := results;
    }

    /** importSingleFile: every converted name is parsed on the disk the conversion leaves. */
    method ImportSingleFile(fileName: string) returns (results: seq<FileImportResult>)
      requires Valid()
      modifies this
      ensures Valid()
      ensures results == SingleImport(Config(), nesting, old(files), fileName).results
      ensures effects == old(effects) + SingleImport(Config(), nesting, old(files), fileName).effects
    {
      results := [];
      var convertedFileNames := ConvertFileNameIfRequired(fileName);
      ghost var conversion := Convert(Config(), nesting, fileName).effects;
      ReplayAppend(startFiles, old(effects), conversion);
      ghost var disk := files;
      assert disk == Replay(old(files), conversion);

      for i := 0 to |convertedFileNames|
        invariant Valid() && files == disk
        invariant results == ResultsFor(Config(), disk, convertedFileNames[..i], fileName)
        invariant effects == old(effects) + conversion
      {
        assert convertedFileNames[..i + 1][..i] == convertedFileNames[..i];
        var result := GetFileImportResultFor(convertedFileNames[i], Some(fileName));
        results := results + [result];
      }
      assert convertedFileNames[..|convertedFileNames|] == convertedFileNames;
      assert SingleImport(Config(), nesting, old(files), fileName)
          == Batch(results, conversion + HandleEffects(directoryForFailedImports, results));

      results := HandleResults(results);
      AppendAssoc(old(effects), conversion, HandleEffects(directoryForFailedImports, results));
    }

    /** importFiles: every name's collection merged in order, then handled once more. */
    method ImportFiles(fileNames: seq<string>) returns (results: seq<FileImportResult>)
      requires Valid()
      modifies this
      ensures Valid()
      ensures results == BatchImport(Config(), nesting, old(files), fileNames).results
      ensures effects == old(effects) + BatchImport(Config(), nesting, old(files), fileNames).effects
    {
      results := [];

      for i := 0 to |fileNames|
        invariant Valid()
        invariant results == MergeAll(Config(), nesting, old(files), fileNames[..i]).results
        invariant effects == old(effects) + MergeAll(Config(), nesting, old(files), fileNames[..i]).effects
      {
        ghost var merged := MergeAll(Config(), nesting, old(files), fileNames[..i]).effects;
        ReplayAppend(startFiles, old(effects), merged);
        ghost var disk := files;
        assert disk == Replay(old(files), merged);
        var single := ImportSingleFile(fileNames[i]);
        results := results + single;
        MergeAllPrefix(Config(), nesting, old(files), fileNames, i);
        AppendAssoc(old(effects), merged, SingleImport(Config(), nesting, disk, fileNames[i]).effects);
      }
      assert fileNames[..|fileNames|] == fileNames;
      ghost var merged := MergeAll(Config(), nesting, old(files), fileNames).effects;

      results := HandleResults(results);
      AppendAssoc(old(effects), merged, HandleEffects(directoryForFailedImports, results));
    }
  }
}
