/**
 * FileImporter::importSingleFile and importFiles as specifications: the ordered
 * result collection a batch produces, and the ordered effects it has.
 */
module Importing {
  import opened Wrappers
  import opened ImportTypes
  import opened Seqs
  import opened Conversion
  import opened Parsing
  import opened Finalisation

  /**
   * One result per converted name, in conversion order, each recording the submitted
   * name; every name is parsed on the same disk, as parsing changes no file.
   */
  function ResultsFor(s: Setup, files: set<string>, names: seq<string>, original: string): (rs: seq<FileImportResult>)
    ensures |rs| == |names|
    ensures forall i :: 0 <= i < |names| ==> rs[i] == ImportResultFor(s, files, names[i], Some(original))
  {
    if names == [] then []
    else ResultsFor(s, files, names[..|names| - 1], original) + [ImportResultFor(s, files, names[|names| - 1], Some(original))]
  }

  /** A result collection together with the effects that produced it. */
  datatype Batch = Batch(results: seq<FileImportResult>, effects: seq<Effect>)

  /**
   * importSingleFile, started on the given files: convert, import each converted name
   * on the disk the conversion leaves behind, then handle (log and finalise) the
   * collection. It yields exactly one result per converted name, in conversion order,
   * each naming the converted file and recording the submitted name as original.
   */
  ghost function SingleImport(s: Setup, nesting: string -> nat, files: set<string>, fileName: string): (b: Batch)
    requires WellNested(s.zip, nesting)
    ensures |b.results| == |Convert(s, nesting, fileName).names|
    ensures forall i :: 0 <= i < |b.results| ==>
      b.results[i].fileName == Convert(s, nesting, fileName).names[i] && b.results[i].originalFileName == fileName
  {
    var c := Convert(s, nesting, fileName);
    var rs := ResultsFor(s, Replay(files, c.effects), c.names, fileName);
    Batch(rs, c.effects + HandleEffects(s.directoryForFailedImports, rs))
  }

  /**
   * The loop of importFiles: each name's importSingleFile merged into one collection,
   * each started on the disk the names before it left behind.
   */
  ghost function MergeAll(s: Setup, nesting: string -> nat, files: set<string>, fileNames: seq<string>): Batch
    requires WellNested(s.zip, nesting)
  {
    if fileNames == [] then Batch([], [])
    else
      var init := MergeAll(s, nesting, files, fileNames[..|fileNames| - 1]);
      var single := SingleImport(s, nesting, Replay(files, init.effects), fileNames[|fileNames| - 1]);
      Batch(init.results + single.results, init.effects + single.effects)
  }

  /** importFiles: the merged collection, handled once more as a whole. */
  ghost function BatchImport(s: Setup, nesting: string -> nat, files: set<string>, fileNames: seq<string>): Batch
    requires WellNested(s.zip, nesting)
  {
    var m := MergeAll(s, nesting, files, fileNames);
    Batch(m.results, m.effects + HandleEffects(s.directoryForFailedImports, m.results))
  }

  /** One more submitted name: its importSingleFile collection and effects, at the end. */
  lemma MergeAllPrefix(s: Setup, nesting: string -> nat, files: set<string>, fileNames: seq<string>, i: nat)
    requires WellNested(s.zip, nesting)
    requires i < |fileNames|
    ensures var init := MergeAll(s, nesting, files, fileNames[..i]);
            var single := SingleImport(s, nesting, Replay(files, init.effects), fileNames[i]);
            MergeAll(s, nesting, files, fileNames[..i + 1])
            == Batch(init.results + single.results, init.effects + single.effects)
  {
    assert fileNames[..i + 1][..i] == fileNames[..i];
  }

  /** The files on disk when importFiles reaches its i-th name. */
  ghost function DiskBefore(s: Setup, nesting: string -> nat, files: set<string>, fileNames: seq<string>, i: nat): set<string>
    requires WellNested(s.zip, nesting)
    requires i <= |fileNames|
  {
    Replay(files, MergeAll(s, nesting, files, fileNames[..i]).effects)
  }

  /** The importSingleFile of each name, pointwise, each on the disk it finds. */
  ghost function SingleImportEach(s: Setup, nesting: string -> nat, files: set<string>, fileNames: seq<string>): (bs: seq<Batch>)
    requires WellNested(s.zip, nesting)
    ensures |bs| == |fileNames|
    ensures forall i :: 0 <= i < |fileNames| ==>
      bs[i] == SingleImport(s, nesting, DiskBefore(s, nesting, files, fileNames, i), fileNames[i])
  {
    seq(|fileNames|, i requires 0 <= i < |fileNames| =>
      SingleImport(s, nesting, DiskBefore(s, nesting, files, fileNames, i), fileNames[i]))
  }

  /** The collections of a sequence of batches. */
  function ResultsOf(bs: seq<Batch>): (rss: seq<seq<FileImportResult>>)
    ensures |rss| == |bs| && forall i :: 0 <= i < |bs| ==> rss[i] == bs[i].results
  {
    seq(|bs|, i requires 0 <= i < |bs| => bs[i].results)
  }

  /** The handling effects of the collections of a sequence of batches. */
  function HandlingOf(dir: Option<string>, bs: seq<Batch>): (ess: seq<seq<Effect>>)
    ensures |ess| == |bs| && forall i :: 0 <= i < |bs| ==> ess[i] == HandleEffects(dir, bs[i].results)
  {
    seq(|bs|, i requires 0 <= i < |bs| => HandleEffects(dir, bs[i].results))
  }

  /** Dropping the last name leaves the earlier names' imports as they were. */
  lemma SingleImportEachPrefix(s: Setup, nesting: string -> nat, files: set<string>, fileNames: seq<string>)
    requires WellNested(s.zip, nesting)
    requires fileNames != []
    ensures var n := |fileNames| - 1;
      SingleImportEach(s, nesting, files, fileNames)[..n] == SingleImportEach(s, nesting, files, fileNames[..n])
  {
    var n := |fileNames| - 1;
    var bs := SingleImportEach(s, nesting, files, fileNames);
    var init := SingleImportEach(s, nesting, files, fileNames[..n]);
    forall i | 0 <= i < n
      ensures bs[..n][i] == init[i]
    {
      assert fileNames[..n][..i] == fileNames[..i];
      assert DiskBefore(s, nesting, files, fileNames, i) == DiskBefore(s, nesting, files, fileNames[..n], i);
      assert fileNames[..n][i] == fileNames[i];
    }
    assert bs[..n] == init;
  }

  // ---------------------------------------------------------------------------
  // Properties of a batch import

  /** importFiles returns the in-order concatenation of the importSingleFile collections. */
  lemma {:induction false} BatchIsConcatenation(s: Setup, nesting: string -> nat, files: set<string>, fileNames: seq<string>)
    requires WellNested(s.zip, nesting)
    ensures BatchImport(s, nesting, files, fileNames).results
         == Flatten(ResultsOf(SingleImportEach(s, nesting, files, fileNames)))
    decreases |fileNames|
  {
    if fileNames != [] {
      var n := |fileNames| - 1;
      BatchIsConcatenation(s, nesting, files, fileNames[..n]);
      var bs := SingleImportEach(s, nesting, files, fileNames);
      SingleImportEachPrefix(s, nesting, files, fileNames);
      var rss := ResultsOf(bs);
      assert rss[..n] == ResultsOf(bs[..n]);
      FlattenLast(rss);
      assert MergeAll(s, nesting, files, fileNames).results
          == MergeAll(s, nesting, files, fileNames[..n]).results + bs[n].results;
    }
  }

  /** Every result names a submitted file as original and one of its converted names as file. */
  lemma {:induction false} ResultsTraceBackToSubmittedNames(s: Setup, nesting: string -> nat, files: set<string>, fileNames: seq<string>)
    requires WellNested(s.zip, nesting)
    ensures forall r :: r in BatchImport(s, nesting, files, fileNames).results ==>
      r.originalFileName in fileNames && r.fileName in Convert(s, nesting, r.originalFileName).names
    decreases |fileNames|
  {
    if fileNames != [] {
      var n := |fileNames| - 1;
      ResultsTraceBackToSubmittedNames(s, nesting, files, fileNames[..n]);
      var prior := MergeAll(s, nesting, files, fileNames[..n]);
      var single := SingleImport(s, nesting, Replay(files, prior.effects), fileNames[n]);
      var init := prior.results;
      assert MergeAll(s, nesting, files, fileNames).results == init + single.results;
      forall r | r in single.results
        ensures r.originalFileName in fileNames && r.fileName in Convert(s, nesting, r.originalFileName).names
      {
        var i :| 0 <= i < |single.results| && single.results[i] == r;
        assert fileNames[n] in fileNames;
      }
      forall r | r in init
        ensures r.originalFileName in fileNames
      {
        assert r.originalFileName in fileNames[..n];
      }
    }
  }

  /** importFiles writes two log entries per result: every result is handled twice. */
  lemma BatchLogsEveryResultTwice(s: Setup, nesting: string -> nat, files: set<string>, fileNames: seq<string>)
    requires WellNested(s.zip, nesting)
    ensures CountLogged(BatchImport(s, nesting, files, fileNames).effects)
         == 2 * |BatchImport(s, nesting, files, fileNames).results|
  {
    var m := MergeAll(s, nesting, files, fileNames);
    MergeLogsEveryResultOnce(s, nesting, files, fileNames);
    HandleLogsOncePerResult(s.directoryForFailedImports, m.results);
    CountLoggedAppend(m.effects, HandleEffects(s.directoryForFailedImports, m.results));
  }

  /** The per-file passes of importFiles write one log entry per merged result. */
  lemma {:induction false} MergeLogsEveryResultOnce(s: Setup, nesting: string -> nat, files: set<string>, fileNames: seq<string>)
    requires WellNested(s.zip, nesting)
    ensures CountLogged(MergeAll(s, nesting, files, fileNames).effects) == |MergeAll(s, nesting, files, fileNames).results|
    decreases |fileNames|
  {
    if fileNames != [] {
      var n := |fileNames| - 1;
      var f := fileNames[n];
      MergeLogsEveryResultOnce(s, nesting, files, fileNames[..n]);
      var prior := MergeAll(s, nesting, files, fileNames[..n]);
      var disk := Replay(files, prior.effects);
      var c := Convert(s, nesting, f);
      var rs := ResultsFor(s, Replay(disk, c.effects), c.names, f);
      ConversionLogsNothing(s, nesting, f);
      HandleLogsOncePerResult(s.directoryForFailedImports, rs);
      CountLoggedAppend(c.effects, HandleEffects(s.directoryForFailedImports, rs));
      CountLoggedAppend(prior.effects, SingleImport(s, nesting, disk, f).effects);
    }
  }

  /**
   * The closing handleResults of importFiles repeats, in order, exactly the
   * finalisations that each importSingleFile already performed.
   */
  lemma {:induction false} FinalPassRepeatsPerFilePasses(s: Setup, nesting: string -> nat, files: set<string>, fileNames: seq<string>)
    requires WellNested(s.zip, nesting)
    ensures HandleEffects(s.directoryForFailedImports, BatchImport(s, nesting, files, fileNames).results)
         == Flatten(HandlingOf(s.directoryForFailedImports, SingleImportEach(s, nesting, files, fileNames)))
    decreases |fileNames|
  {
    var dir := s.directoryForFailedImports;
    if fileNames != [] {
      var n := |fileNames| - 1;
      FinalPassRepeatsPerFilePasses(s, nesting, files, fileNames[..n]);
      var bs := SingleImportEach(s, nesting, files, fileNames);
      SingleImportEachPrefix(s, nesting, files, fileNames);
      var ess := HandlingOf(dir, bs);
      assert ess[..n] == HandlingOf(dir, bs[..n]);
      FlattenLast(ess);
      var init := MergeAll(s, nesting, files, fileNames[..n]).results;
      assert MergeAll(s, nesting, files, fileNames).results == init + bs[n].results;
      HandleAppend(dir, init, bs[n].results);
    } else {
      assert HandleEffects(dir, []) == [];
    }
  }

  /**
   * An archive holding one file that needs no conversion yields one result for it, with
   * the archive as original; but the archive's loop has removed the member before it is
   * parsed, so the result is that of parsing it on a disk without it: a parser by content
   * is handed `false`, and a parser by name finds no file.
   */
  lemma ArchiveOfOneNativeFile(s: Setup, nesting: string -> nat, files: set<string>, archive: string, member: string)
    requires WellNested(s.zip, nesting)
    requires IsArchive(archive) && s.zip.extract(archive) == [member]
    requires !IsArchive(member)
    requires FirstConverter(s.converters, Paths.Extension(member)).None?
    ensures var rs := SingleImport(s, nesting, files, archive).results;
      && |rs| == 1
      && rs[0] == ImportResultFor(s, {}, member, Some(archive))
      && rs[0].fileName == member && rs[0].originalFileName == archive
  {
    NativeArchiveMemberIsRemovedBeforeParsing(s, nesting, files, archive, member);
    var c := Convert(s, nesting, archive);
    ParseSeesOnlyItsFile(s, Replay(files, c.effects), {}, member, Some(archive));
  }
}
