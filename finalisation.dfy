/**
 * FileImporter::logSingleFileImport, logFileImports (through handleResults) and
 * getFileNameForLog: the log entry each result gets and what happens to its files.
 */
module Finalisation {
  import opened Wrappers
  import opened Paths
  import opened ImportTypes
  import opened Seqs

  /**
   * The name shown in the log: the converted file's base name, followed by the
   * original's base name when the two paths differ. It starts with the converted
   * file's base name, is exactly that base name if and only if the file is its
   * own original, and otherwise ends with the original's base name and a parenthesis.
   */
  function FileNameForLog(r: FileImportResult): (name: string)
    ensures BaseName(r.fileName) <= name
    ensures name == BaseName(r.fileName) <==> r.originalFileName == r.fileName
    ensures r.originalFileName != r.fileName ==>
      var o := BaseName(r.originalFileName) + ")";
      |o| <= |name| && name[|name| - |o|..] == o
  {
    if r.originalFileName != r.fileName then
      var name := BaseName(r.fileName) + " (original " + BaseName(r.originalFileName) + ")";
      assert |name| > |BaseName(r.fileName)|;
      name
    else
      BaseName(r.fileName)
  }

  /** The log message for a failed import. */
  function FailureMessage(name: string): string
  {
    FailurePrefix + name + FailureSuffix
  }

  /** The log message for a successful import. */
  function SuccessMessage(name: string): string
  {
    SuccessPrefix + name + SuccessSuffix
  }

  const FailurePrefix: string := "File upload of "
  const FailureSuffix: string := " failed."
  const SuccessPrefix: string := "Successfull file upload of "
  const SuccessSuffix: string := "."

  /** A quarantine directory is configured when it is set and not empty. */
  predicate HasQuarantine(dir: Option<string>)
  {
    dir.Some? && dir.value != ""
  }

  /** Where a failed original is moved: the quarantine directory, under its own base name. */
  function QuarantinePath(dir: string, original: string): string
  {
    Join(dir, BaseName(original))
  }

  /** The effects of logSingleFileImport for one result, in order. */
  function FinaliseEffects(dir: Option<string>, r: FileImportResult): seq<Effect>
  {
    DispositionEffects(dir, r) + CleanupEffects(r)
  }

  /** The log entry for a result and what happens to its original. */
  function DispositionEffects(dir: Option<string>, r: FileImportResult): seq<Effect>
  {
    if r.IsFailed() then
      [Logged(Error, FailureMessage(FileNameForLog(r)), r.exception)]
      + (if HasQuarantine(dir)
         then [Renamed(r.originalFileName, QuarantinePath(dir.value, r.originalFileName))]
         else [Removed(r.originalFileName)])
    else
      [Logged(Info, SuccessMessage(FileNameForLog(r)), None),
       Removed(r.originalFileName)]
  }

  /** A converted file that differs from the original is removed as well. */
  function CleanupEffects(r: FileImportResult): seq<Effect>
  {
    if r.originalFileName != r.fileName then [Removed(r.fileName)] else []
  }

  /** The effects of logFileImports: each result finalised in collection order. */
  function HandleEffects(dir: Option<string>, rs: seq<FileImportResult>): seq<Effect>
  {
    FlatMap(r => FinaliseEffects(dir, r), rs)
  }

  // ---------------------------------------------------------------------------
  // Properties of the finalisation

  /**
   * What one finalisation does to the files: a failed result with a quarantine
   * directory has its original moved there; every other original is removed; a
   * converted file that differs from the original is removed too. No other file
   * changes.
   */
  lemma FinaliseOnDisk(dir: Option<string>, r: FileImportResult, files: set<string>)
    requires r.originalFileName in files
    ensures var after := Replay(files, FinaliseEffects(dir, r));
      var quarantined := r.IsFailed() && HasQuarantine(dir);
      && (quarantined ==> var target := QuarantinePath(dir.value, r.originalFileName);
            (target != r.fileName || target == r.originalFileName ==> target in after)
            && (r.originalFileName !in after || target == r.originalFileName))
      && (!quarantined ==> r.originalFileName !in after)
      && (r.fileName != r.originalFileName ==> r.fileName !in after)
      && forall p :: p != r.originalFileName && p != r.fileName
           && !(quarantined && p == QuarantinePath(dir.value, r.originalFileName))
           ==> (p in after <==> p in files)
  {
    var after := Replay(files, FinaliseEffects(dir, r));
    FinaliseReplay(dir, r, files);
    if r.IsFailed() && HasQuarantine(dir) {
      var target := QuarantinePath(dir.value, r.originalFileName);
      assert after == files - {r.originalFileName} + {target} - CleanupSet(r);
    } else {
      assert after == files - {r.originalFileName} - CleanupSet(r);
    }
  }

  /** The files a converted file's cleanup removes. */
  function CleanupSet(r: FileImportResult): set<string>
  {
    if r.originalFileName != r.fileName then {r.fileName} else {}
  }

  /** The disk after one finalisation, written out as a set. */
  lemma FinaliseReplay(dir: Option<string>, r: FileImportResult, files: set<string>)
    requires r.originalFileName in files
    ensures Replay(files, FinaliseEffects(dir, r))
      == (if r.IsFailed() && HasQuarantine(dir)
          then files - {r.originalFileName} + {QuarantinePath(dir.value, r.originalFileName)}
          else files - {r.originalFileName}) - CleanupSet(r)
  {
    var head := DispositionEffects(dir, r);
    var tail := CleanupEffects(r);
    ReplayAppend(files, head, tail);
    ReplayStep(files, [head[0]], head[1]);
    assert head == [head[0]] + [head[1]];
    assert [head[0]][..0] == [];
    var mid := Replay(files, head);
    assert mid == Step(files, head[1]);
    if r.fileName != r.originalFileName {
      assert tail == [] + [Removed(r.fileName)];
      ReplayStep(mid, [], Removed(r.fileName));
      assert Replay(mid, tail) == mid - {r.fileName};
    } else {
      assert Replay(mid, tail) == mid;
    }
  }

  /** A failed original keeps its base name in the quarantine directory. */
  lemma QuarantineKeepsBaseName(dir: string, original: string)
    ensures BaseName(QuarantinePath(dir, original)) == BaseName(original)
  {
    BaseNameIsLastSegment(original);
    JoinKeepsBaseName(dir, BaseName(original));
  }

  /** Every result yields exactly one log entry, an error exactly when the result failed. */
  lemma {:induction false} FinaliseLogsOnce(dir: Option<string>, r: FileImportResult)
    ensures CountLogged(FinaliseEffects(dir, r)) == 1
    ensures FinaliseEffects(dir, r)[0].Logged?
    ensures FinaliseEffects(dir, r)[0].level == (if r.IsFailed() then Error else Info)
  {
    var d := DispositionEffects(dir, r);
    var c := CleanupEffects(r);
    var tail := [d[1]] + c;
    assert d == [d[0]] + [d[1]];
    assert FinaliseEffects(dir, r) == [d[0]] + tail;
    assert forall i :: 0 <= i < |tail| ==> !tail[i].Logged?;
    NoLogsCountZero(tail);
    CountLoggedAppend([d[0]], tail);
    assert [d[0]][..0] == [];
  }

  lemma {:induction false} NoLogsCountZero(es: seq<Effect>)
    requires forall i :: 0 <= i < |es| ==> !es[i].Logged?
    ensures CountLogged(es) == 0
    decreases |es|
  {
    if es != [] {
      NoLogsCountZero(es[..|es| - 1]);
    }
  }

  /** handleResults writes one log entry per result. */
  lemma {:induction false} HandleLogsOncePerResult(dir: Option<string>, rs: seq<FileImportResult>)
    ensures CountLogged(HandleEffects(dir, rs)) == |rs|
    decreases |rs|
  {
    if rs != [] {
      HandleLogsOncePerResult(dir, rs[..|rs| - 1]);
      FinaliseLogsOnce(dir, rs[|rs| - 1]);
      CountLoggedAppend(HandleEffects(dir, rs[..|rs| - 1]), FinaliseEffects(dir, rs[|rs| - 1]));
    }
  }

  /** Handling two collections one after the other is handling their concatenation. */
  lemma HandleAppend(dir: Option<string>, a: seq<FileImportResult>, b: seq<FileImportResult>)
    ensures HandleEffects(dir, a + b) == HandleEffects(dir, a) + HandleEffects(dir, b)
  {
    FlatMapAppend(r => FinaliseEffects(dir, r), a, b);
  }
}
