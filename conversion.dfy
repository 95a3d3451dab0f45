/**
 * FileImporter::convertFileNameIfRequired as a specification: how one submitted path
 * expands into the native file names handed to the parsers, and which effects the
 * expansion has on the filesystem. FileImporter::getSupportedFileExtensions as well.
 */
module Conversion {
  import opened Wrappers
  import opened Paths
  import opened ImportTypes
  import opened Seqs

  /** The extension the importer treats as an archive, compared exactly (so not `ZIP`). */
  const ZipExtension: string := "zip"

  predicate IsArchive(path: string)
  {
    Extension(path) == ZipExtension
  }

  /** The index of the first converter in list order that claims `ext`, if any. */
  function FirstConverter(cs: seq<Converter>, ext: string): (r: Option<nat>)
    ensures r.Some? ==> r.value < |cs| && cs[r.value].extension == ext
    ensures r.Some? ==> forall j :: 0 <= j < r.value ==> cs[j].extension != ext
    ensures r.None? <==> forall j :: 0 <= j < |cs| ==> cs[j].extension != ext
  {
    if cs == [] then None
    else if cs[0].extension == ext then Some(0)
    else
      match FirstConverter(cs[1..], ext)
      case None => None
      case Some(k) => Some(k + 1)
  }

  /** A converter's output as a list of names: a single name becomes a one-element list. */
  function AsList(out: ConverterOutput): (names: seq<string>)
    ensures out.OneFile? ==> |names| == 1 && names[0] == out.path
    ensures out.ManyFiles? ==> names == out.paths
  {
    match out
    case OneFile(p) => [p]
    case ManyFiles(ps) => ps
  }

  /** One `Created` effect per name, in order. */
  function CreatedAll(names: seq<string>): (es: seq<Effect>)
    ensures |es| == |names|
    ensures forall i :: 0 <= i < |names| ==> es[i] == Created(names[i])
  {
    if names == [] then [] else CreatedAll(names[..|names| - 1]) + [Created(names[|names| - 1])]
  }

  /**
   * The zip recursion has no depth bound of its own; it terminates because every
   * member extracted from an archive is nested less deeply than the archive.
   */
  ghost predicate WellNested(zip: ZipConverter, nesting: string -> nat)
  {
    forall p, i :: IsArchive(p) && 0 <= i < |zip.extract(p)| ==> nesting(zip.extract(p)[i]) < nesting(p)
  }

  /** The converted names of a path, and the effects of converting it. */
  datatype Conversion = Conversion(names: seq<string>, effects: seq<Effect>)

  /**
   * convertFileNameIfRequired: an archive is extracted and each member converted in
   * turn, the member being removed right after its own conversion; otherwise the
   * first converter claiming the extension is used, once; otherwise the path itself.
   */
  ghost function Convert(s: Setup, nesting: string -> nat, path: string): Conversion
    requires WellNested(s.zip, nesting)
    decreases nesting(path), 1, 0
  {
    if IsArchive(path) then
      var members := s.zip.extract(path);
      var inner := ConvertMembers(s, nesting, members, nesting(path));
      Conversion(inner.names, CreatedAll(members) + inner.effects)
    else
      match FirstConverter(s.converters, Extension(path))
      case Some(k) =>
        var names := AsList(s.converters[k].convert(path));
        Conversion(names, CreatedAll(names))
      case None => Conversion([path], [])
  }

  /** The loop over an archive's members: each member's conversion, then its removal. */
  ghost function ConvertMembers(s: Setup, nesting: string -> nat, members: seq<string>, bound: nat): Conversion
    requires WellNested(s.zip, nesting)
    requires forall i :: 0 <= i < |members| ==> nesting(members[i]) < bound
    decreases bound, 0, |members|
  {
    if members == [] then Conversion([], [])
    else
      var last := members[|members| - 1];
      var init := ConvertMembers(s, nesting, members[..|members| - 1], bound);
      var step := Convert(s, nesting, last);
      Conversion(init.names + step.names, init.effects + step.effects + [Removed(last)])
  }

  /** One more member of an archive: its conversion, then its removal, at the end. */
  lemma ConvertMembersPrefix(s: Setup, nesting: string -> nat, ms: seq<string>, bound: nat, i: nat)
    requires WellNested(s.zip, nesting)
    requires forall j :: 0 <= j < |ms| ==> nesting(ms[j]) < bound
    requires i < |ms|
    ensures var init := ConvertMembers(s, nesting, ms[..i], bound);
            var step := Convert(s, nesting, ms[i]);
            ConvertMembers(s, nesting, ms[..i + 1], bound)
            == Conversion(init.names + step.names, init.effects + step.effects + [Removed(ms[i])])
  {
    assert ms[..i + 1][..i] == ms[..i];
  }

  /** The extensions the importer can handle: the mapping's keys, the converters' extensions, then zip. */
  function SupportedFileExtensions(keys: seq<string>, converters: seq<Converter>): (exts: seq<string>)
    ensures |exts| == |keys| + |converters| + 1
    ensures exts[..|keys|] == keys
    ensures forall i :: 0 <= i < |converters| ==> exts[|keys| + i] == converters[i].extension
    ensures exts[|exts| - 1] == ZipExtension
  {
    keys + seq(|converters|, i requires 0 <= i < |converters| => converters[i].extension) + [ZipExtension]
  }

  // ---------------------------------------------------------------------------
  // Properties of the conversion

  /** A path that is neither an archive nor claimed by a converter converts to itself alone. */
  lemma PlainFileConvertsToItself(s: Setup, nesting: string -> nat, path: string)
    requires WellNested(s.zip, nesting)
    requires !IsArchive(path)
    requires forall j :: 0 <= j < |s.converters| ==> s.converters[j].extension != Extension(path)
    ensures Convert(s, nesting, path) == Conversion([path], [])
  {
  }

  /**
   * A path claimed by a converter converts to that converter's output, wrapped into a
   * list when it is a single name, and the output is not converted again.
   */
  lemma ConverterOutputIsFinal(s: Setup, nesting: string -> nat, path: string, k: nat)
    requires WellNested(s.zip, nesting)
    requires !IsArchive(path)
    requires k < |s.converters| && s.converters[k].extension == Extension(path)
    requires forall j :: 0 <= j < k ==> s.converters[j].extension != Extension(path)
    ensures Convert(s, nesting, path).names == AsList(s.converters[k].convert(path))
  {
  }

  /** The conversion of each path, pointwise. */
  ghost function ConvertEach(s: Setup, nesting: string -> nat, paths: seq<string>): (cs: seq<Conversion>)
    requires WellNested(s.zip, nesting)
    ensures |cs| == |paths|
    ensures forall i :: 0 <= i < |paths| ==> cs[i] == Convert(s, nesting, paths[i])
  {
    seq(|paths|, i requires 0 <= i < |paths| => Convert(s, nesting, paths[i]))
  }

  /** The names of each conversion. */
  function NamesOf(cs: seq<Conversion>): (nss: seq<seq<string>>)
    ensures |nss| == |cs| && forall i :: 0 <= i < |cs| ==> nss[i] == cs[i].names
  {
    seq(|cs|, i requires 0 <= i < |cs| => cs[i].names)
  }

  /** The effects of each member's conversion, each followed by that member's removal. */
  function EffectsThenRemoval(paths: seq<string>, cs: seq<Conversion>): (ess: seq<seq<Effect>>)
    requires |paths| == |cs|
    ensures |ess| == |cs|
    ensures forall i :: 0 <= i < |cs| ==> ess[i] == cs[i].effects + [Removed(paths[i])]
  {
    seq(|cs|, i requires 0 <= i < |cs| => cs[i].effects + [Removed(paths[i])])
  }

  /**
   * An archive converts to the in-order concatenation of its members' conversions;
   * its effects are the extraction of every member, then, per member, the member's own
   * conversion effects followed by the member's removal.
   */
  lemma ArchiveConvertsMemberByMember(s: Setup, nesting: string -> nat, path: string)
    requires WellNested(s.zip, nesting)
    requires IsArchive(path)
    ensures var ms := s.zip.extract(path);
      && Convert(s, nesting, path).names == Flatten(NamesOf(ConvertEach(s, nesting, ms)))
      && Convert(s, nesting, path).effects
         == CreatedAll(ms) + Flatten(EffectsThenRemoval(ms, ConvertEach(s, nesting, ms)))
  {
    var ms := s.zip.extract(path);
    MembersFlatten(s, nesting, ms, nesting(path));
  }

  lemma MembersFlatten(s: Setup, nesting: string -> nat, ms: seq<string>, bound: nat)
    requires WellNested(s.zip, nesting)
    requires forall i :: 0 <= i < |ms| ==> nesting(ms[i]) < bound
    ensures ConvertMembers(s, nesting, ms, bound).names == Flatten(NamesOf(ConvertEach(s, nesting, ms)))
    ensures ConvertMembers(s, nesting, ms, bound).effects
         == Flatten(EffectsThenRemoval(ms, ConvertEach(s, nesting, ms)))
  {
    MemberNamesFlatten(s, nesting, ms, bound);
    MemberEffectsFlatten(s, nesting, ms, bound);
  }

  lemma {:induction false} MemberNamesFlatten(s: Setup, nesting: string -> nat, ms: seq<string>, bound: nat)
    requires WellNested(s.zip, nesting)
    requires forall i :: 0 <= i < |ms| ==> nesting(ms[i]) < bound
    ensures ConvertMembers(s, nesting, ms, bound).names == Flatten(NamesOf(ConvertEach(s, nesting, ms)))
    decreases |ms|
  {
    if ms != [] {
      var n := |ms| - 1;
      var init := ms[..n];
      MemberNamesFlatten(s, nesting, init, bound);
      var cs := ConvertEach(s, nesting, ms);
      var ci := ConvertEach(s, nesting, init);
      assert cs[..n] == ci;
      var nss := NamesOf(cs);
      assert nss[..n] == NamesOf(ci);
      assert nss[n] == Convert(s, nesting, ms[n]).names;
      FlattenLast(nss);
      ConvertMembersPrefix(s, nesting, ms, bound, n);
      assert ms[..n + 1] == ms;
    }
  }

  lemma {:induction false} MemberEffectsFlatten(s: Setup, nesting: string -> nat, ms: seq<string>, bound: nat)
    requires WellNested(s.zip, nesting)
    requires forall i :: 0 <= i < |ms| ==> nesting(ms[i]) < bound
    ensures ConvertMembers(s, nesting, ms, bound).effects
         == Flatten(EffectsThenRemoval(ms, ConvertEach(s, nesting, ms)))
    decreases |ms|
  {
    if ms != [] {
      var n := |ms| - 1;
      var init := ms[..n];
      MemberEffectsFlatten(s, nesting, init, bound);
      var cs := ConvertEach(s, nesting, ms);
      var ci := ConvertEach(s, nesting, init);
      assert cs[..n] == ci;
      var ess := EffectsThenRemoval(ms, cs);
      assert ess[..n] == EffectsThenRemoval(init, ci);
      assert ess[n] == Convert(s, nesting, ms[n]).effects + [Removed(ms[n])];
      FlattenLast(ess);
      ConvertMembersPrefix(s, nesting, ms, bound, n);
      assert ms[..n + 1] == ms;
      AppendAssoc(ConvertMembers(s, nesting, init, bound).effects, Convert(s, nesting, ms[n]).effects, [Removed(ms[n])]);
    }
  }

  /** Conversion never writes to the log: only files are created and removed. */
  lemma {:induction false} ConversionLogsNothing(s: Setup, nesting: string -> nat, path: string)
    requires WellNested(s.zip, nesting)
    ensures CountLogged(Convert(s, nesting, path).effects) == 0
    decreases nesting(path), 1, 0
  {
    if IsArchive(path) {
      var ms := s.zip.extract(path);
      CreatedLogsNothing(ms);
      MembersLogNothing(s, nesting, ms, nesting(path));
      CountLoggedAppend(CreatedAll(ms), ConvertMembers(s, nesting, ms, nesting(path)).effects);
    } else if FirstConverter(s.converters, Extension(path)).Some? {
      var k := FirstConverter(s.converters, Extension(path)).value;
      CreatedLogsNothing(AsList(s.converters[k].convert(path)));
    }
  }

  lemma {:induction false} MembersLogNothing(s: Setup, nesting: string -> nat, ms: seq<string>, bound: nat)
    requires WellNested(s.zip, nesting)
    requires forall i :: 0 <= i < |ms| ==> nesting(ms[i]) < bound
    ensures CountLogged(ConvertMembers(s, nesting, ms, bound).effects) == 0
    decreases bound, 0, |ms|
  {
    if ms != [] {
      var last := ms[|ms| - 1];
      var init := ConvertMembers(s, nesting, ms[..|ms| - 1], bound);
      var step := Convert(s, nesting, last);
      MembersLogNothing(s, nesting, ms[..|ms| - 1], bound);
      ConversionLogsNothing(s, nesting, last);
      CountLoggedAppend(init.effects, step.effects);
      CountLoggedAppend(init.effects + step.effects, [Removed(last)]);
      assert CountLogged([Removed(last)]) == 0 by {
        assert [Removed(last)][..0] == [];
      }
    }
  }

  lemma {:induction false} CreatedLogsNothing(names: seq<string>)
    ensures CountLogged(CreatedAll(names)) == 0
    decreases |names|
  {
    if names != [] {
      var init := names[..|names| - 1];
      CreatedLogsNothing(init);
      assert CreatedAll(names)[..|names| - 1] == CreatedAll(init);
    }
  }

  /** The conversion stage removes only files it has itself created earlier. */
  ghost predicate RemovesOnlyCreated(es: seq<Effect>)
  {
    forall i :: 0 <= i < |es| && es[i].Removed? ==> Created(es[i].path) in es[..i]
  }

  lemma RemovesOnlyCreatedAppend(a: seq<Effect>, b: seq<Effect>)
    requires RemovesOnlyCreated(a) && RemovesOnlyCreated(b)
    ensures RemovesOnlyCreated(a + b)
  {
    var ab := a + b;
    forall i | 0 <= i < |ab| && ab[i].Removed?
      ensures Created(ab[i].path) in ab[..i]
    {
      if i < |a| {
        assert ab[..i] == a[..i];
      } else {
        assert ab[i] == b[i - |a|];
        var j :| 0 <= j < i - |a| && b[..i - |a|][j] == Created(b[i - |a|].path);
        assert ab[..i][|a| + j] == b[j];
      }
    }
  }

  lemma {:induction false} ConversionRemovesOnlyCreated(s: Setup, nesting: string -> nat, path: string)
    requires WellNested(s.zip, nesting)
    ensures RemovesOnlyCreated(Convert(s, nesting, path).effects)
    decreases nesting(path), 1, 0
  {
    if IsArchive(path) {
      var ms := s.zip.extract(path);
      MembersRemoveOnlyCreated(s, nesting, ms, nesting(path));
    } else if FirstConverter(s.converters, Extension(path)).Some? {
      var k := FirstConverter(s.converters, Extension(path)).value;
      var es := CreatedAll(AsList(s.converters[k].convert(path)));
      assert forall i :: 0 <= i < |es| ==> es[i].Created?;
    }
  }

  /**
   * The effects of the member loop, placed after the extraction of all members:
   * every removal is of a file created before it.
   */
  lemma {:induction false} MembersRemoveOnlyCreated(s: Setup, nesting: string -> nat, ms: seq<string>, bound: nat)
    requires WellNested(s.zip, nesting)
    requires forall i :: 0 <= i < |ms| ==> nesting(ms[i]) < bound
    ensures RemovesOnlyCreated(CreatedAll(ms) + ConvertMembers(s, nesting, ms, bound).effects)
    decreases bound, 0, |ms|
  {
    if ms == [] {
      assert CreatedAll(ms) + ConvertMembers(s, nesting, ms, bound).effects == [];
    } else {
      var n := |ms| - 1;
      var last := ms[n];
      var created := CreatedAll(ms[..n]);
      var init := ConvertMembers(s, nesting, ms[..n], bound).effects;
      var step := Convert(s, nesting, last).effects;
      MembersRemoveOnlyCreated(s, nesting, ms[..n], bound);
      ConversionRemovesOnlyCreated(s, nesting, last);
      MemberStepRemovesOnlyCreated(created, init, step, last);
      assert CreatedAll(ms) == created + [Created(last)];
      assert CreatedAll(ms) + ConvertMembers(s, nesting, ms, bound).effects
          == created + [Created(last)] + init + step + [Removed(last)];
    }
  }

  /** One turn of the member loop, after the extraction, keeps the property. */
  lemma MemberStepRemovesOnlyCreated(created: seq<Effect>, init: seq<Effect>, step: seq<Effect>, last: string)
    requires RemovesOnlyCreated(created + init) && RemovesOnlyCreated(step)
    ensures RemovesOnlyCreated(created + [Created(last)] + init + step + [Removed(last)])
  {
    InsertCreatedKeepsRemovesOnlyCreated(created, init, last);
    RemovesOnlyCreatedAppend(created + [Created(last)] + init, step);
    var prefix := created + [Created(last)] + init + step;
    assert prefix[|created|] == Created(last);
    RemoveCreatedKeepsRemovesOnlyCreated(prefix, last);
  }

  /** Creating one more file never breaks the property. */
  lemma InsertCreatedKeepsRemovesOnlyCreated(a: seq<Effect>, b: seq<Effect>, p: string)
    requires RemovesOnlyCreated(a + b)
    ensures RemovesOnlyCreated(a + [Created(p)] + b)
  {
    var x := a + b;
    var y := a + [Created(p)] + b;
    forall i | 0 <= i < |y| && y[i].Removed?
      ensures Created(y[i].path) in y[..i]
    {
      if i < |a| {
        assert y[..i] == x[..i];
      } else {
        assert i > |a|;
        assert y[i] == x[i - 1];
        var j :| 0 <= j < i - 1 && x[..i - 1][j] == Created(x[i - 1].path);
        assert y[..i][if j < |a| then j else j + 1] == x[j];
      }
    }
  }

  /** Removing a file created earlier keeps the property. */
  lemma RemoveCreatedKeepsRemovesOnlyCreated(a: seq<Effect>, p: string)
    requires RemovesOnlyCreated(a) && Created(p) in a
    ensures RemovesOnlyCreated(a + [Removed(p)])
  {
    var y := a + [Removed(p)];
    assert y[..|a|] == a;
    forall i | 0 <= i < |y| && y[i].Removed?
      ensures Created(y[i].path) in y[..i]
    {
      if i < |a| {
        assert y[..i] == a[..i];
      }
    }
  }

  /**
   * The only member of a one-member archive, when it needs no conversion, is handed on
   * by name, but is removed by the archive's own loop, so it is gone from disk before
   * anything parses it.
   */
  lemma NativeArchiveMemberIsRemovedBeforeParsing(
    s: Setup, nesting: string -> nat, files: set<string>, path: string, member: string)
    requires WellNested(s.zip, nesting)
    requires IsArchive(path) && s.zip.extract(path) == [member]
    requires !IsArchive(member)
    requires FirstConverter(s.converters, Extension(member)).None?
    ensures Convert(s, nesting, path).names == [member]
    ensures member !in Replay(files, Convert(s, nesting, path).effects)
  {
    var c := Convert(s, nesting, path);
    assert [member][..0] == [];
    assert Convert(s, nesting, member) == Conversion([member], []);
    assert ConvertMembers(s, nesting, [member], nesting(path)).effects == [Removed(member)];
    assert CreatedAll([member]) == [Created(member)];
    assert c.effects == [Created(member)] + [Removed(member)];
    ReplayStep(files, [Created(member)], Removed(member));
  }

  /** Extensions are compared exactly: an upper-case `.ZIP` is not treated as an archive. */
  lemma UpperCaseZipIsNoArchive()
    ensures !IsArchive("upload.ZIP")
  {
    assert "upload.ZIP"[..9] == "upload.ZI" && ['P'] + "" == "P";
    assert ExtensionScan("upload.ZIP", "") == ExtensionScan("upload.ZI", "P");
    assert "upload.ZI"[..8] == "upload.Z" && ['I'] + "P" == "IP";
    assert ExtensionScan("upload.ZI", "P") == ExtensionScan("upload.Z", "IP");
    assert "upload.Z"[..7] == "upload." && ['Z'] + "IP" == "ZIP";
    assert ExtensionScan("upload.Z", "IP") == ExtensionScan("upload.", "ZIP") == "ZIP";
  }

  /** zip is always a supported extension, and so is every converter's and every mapping key. */
  lemma SupportedExtensionsCoverAll(keys: seq<string>, converters: seq<Converter>, ext: string)
    ensures ext in SupportedFileExtensions(keys, converters)
        <==> ext in keys || ext == ZipExtension || exists j :: 0 <= j < |converters| && converters[j].extension == ext
  {
    var exts := SupportedFileExtensions(keys, converters);
    if ext in exts {
      var i :| 0 <= i < |exts| && exts[i] == ext;
      if i < |keys| {
        assert exts[..|keys|][i] == ext;
      } else if i < |keys| + |converters| {
        assert converters[i - |keys|].extension == ext;
      }
    }
    if ext in keys {
      var i :| 0 <= i < |keys| && keys[i] == ext;
      assert exts[..|keys|][i] == ext;
    }
  }
}
