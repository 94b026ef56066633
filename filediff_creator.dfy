/**
 * Creation of FileDiffs from a parsed diff and an optional parent diff
 * (reviewboard/diffviewer/filediff_creator.py).
 *
 * The diff parser, the SCM tool's revision parsing, the repository's existence
 * lookup and the parser's filename normalisation are foreign calls; they appear
 * here as parameters. The diff is given as the files of its single change.
 */
module FileDiffCreator {
  import opened Wrappers
  import Text

  /** A file revision: the two special revisions, or a revision identifier. */
  datatype Revision = PreCreation | Unknown | Rev(id: string)

  /** A file of a parsed diff, as far as FileDiff creation looks at it. */
  datatype ParsedFile = ParsedFile(
    origFilename: string,
    origDetails: Revision,
    modifiedFilename: string,
    modifiedDetails: string,
    moved: bool,
    copied: bool,
    deleted: bool,
    binary: bool,
    insertCount: nat,
    deleteCount: nat,
    data: string,
    validatedParentId: Option<string>)   // the '__validated_parent_id' extra-data entry

  /** What FileDiff creation can raise. */
  datatype DiffError =
    | MissingFileExistsCallback                    // ValueError
    | EmptyDiff                                    // EmptyDiffError
    | FileNotFound(path: string, revision: string) // scmtools FileNotFoundError
    | MissingParentCommitId                        // the assertion on the parent commit ID

  const EmptyDiffMessage := "The diff is empty."
  const MissingCallbackMessage := "Must provide get_file_exists when check_existence is True"

  /**
   * `_normalize_filename`: absolute paths are kept; anything else is joined onto the
   * base directory (as `os.path.join` does) and every backslash becomes '/'.
   */
  function NormalizeFilename(filename: string, basedir: string): (r: string)
    ensures Text.StartsWith(filename, "/") ==> r == filename
    ensures !Text.StartsWith(filename, "/") ==> '\\' !in r
    ensures !Text.StartsWith(filename, "/") ==> Text.EndsWith(r, Text.ReplaceChar(filename, '\\', '/'))
    ensures !Text.StartsWith(filename, "/") && basedir == "" ==> r == Text.ReplaceChar(filename, '\\', '/')
  {
    if Text.StartsWith(filename, "/") then filename
    else
      var joined := if basedir == "" || Text.EndsWith(basedir, "/") then basedir + filename else basedir + "/" + filename;
      var r := Text.ReplaceChar(joined, '\\', '/');
      assert r[|r| - |filename|..] == Text.ReplaceChar(filename, '\\', '/');
      r
  }

  /** A base directory that is itself absolute makes normalisation idempotent. */
  lemma NormalizeAbsoluteBaseIdempotent(filename: string, basedir: string)
    requires Text.StartsWith(basedir, "/")
    ensures NormalizeFilename(NormalizeFilename(filename, basedir), basedir) == NormalizeFilename(filename, basedir)
  {
    var once := NormalizeFilename(filename, basedir);
    if !Text.StartsWith(filename, "/") {
      var joined := if basedir == "" || Text.EndsWith(basedir, "/") then basedir + filename else basedir + "/" + filename;
      assert joined[0] == '/';
      assert once[0] == '/';
      assert Text.StartsWith(once, "/");
    }
  }

  /** How a FileDiff's file changed. */
  datatype FileStatus = Deleted | Moved | Copied | Modified

  /** The FileDiff status of a parsed file: deletion wins over a move, which wins over a copy. */
  function StatusOf(f: ParsedFile): (s: FileStatus)
    ensures s == Deleted <==> f.deleted
    ensures s == Moved <==> !f.deleted && f.moved
    ensures s == Copied <==> !f.deleted && !f.moved && f.copied
    ensures s == Modified <==> !f.deleted && !f.moved && !f.copied
  {
    if f.deleted then Deleted
    else if f.moved then Moved
    else if f.copied then Copied
    else Modified
  }

  /** The inputs of one `_process_files` pass; the callables are the foreign calls. */
  datatype ProcessConfig = ProcessConfig(
    basedir: string,
    checkExistence: bool,
    fileExists: Option<(string, string) -> bool>,
    limitTo: Option<set<string>>,
    parseRevision: (string, Revision, bool, bool) -> (string, Revision))

  /** Whether a file's source must be looked up in the repository. */
  predicate NeedsExistenceCheck(checkExistence: bool, sourceRevision: Revision, f: ParsedFile) {
    checkExistence && sourceRevision.Rev? &&
    !f.binary && !f.deleted && !f.moved && !f.copied
  }

  /**
   * Whether `_process_files` reaches the existence check for a file (it is not skipped by
   * `limit_to` and needs the check) and the repository reports its source missing.
   */
  predicate MissingSource(f: ParsedFile, cfg: ProcessConfig) {
    var (sourceName, sourceRevision) := cfg.parseRevision(f.origFilename, f.origDetails, f.moved, f.copied);
    (cfg.limitTo.None? || NormalizeFilename(f.modifiedFilename, cfg.basedir) in cfg.limitTo.value) &&
    NeedsExistenceCheck(cfg.checkExistence, sourceRevision, f) &&
    cfg.fileExists.Some? && !cfg.fileExists.value(NormalizeFilename(sourceName, cfg.basedir), sourceRevision.id)
  }

  /**
   * One iteration of `_process_files`: `None` when `limit_to` skips the file, otherwise the
   * file with normalised names and its (possibly validated) source revision.
   */
  function ProcessFile(f: ParsedFile, cfg: ProcessConfig): (r: Result<Option<ParsedFile>, DiffError>)
    requires cfg.checkExistence ==> cfg.fileExists.Some?
    ensures r.Success? && r.value.Some? ==>
      r.value.value.modifiedFilename == NormalizeFilename(f.modifiedFilename, cfg.basedir) &&
      r.value.value.origFilename == NormalizeFilename(cfg.parseRevision(f.origFilename, f.origDetails, f.moved, f.copied).0, cfg.basedir)
    ensures r.Success? && r.value.None? <==>
      cfg.limitTo.Some? && NormalizeFilename(f.modifiedFilename, cfg.basedir) !in cfg.limitTo.value
    ensures r.Failure? <==> MissingSource(f, cfg)
    ensures MissingSource(f, cfg) ==>
      var (sourceName, sourceRevision) := cfg.parseRevision(f.origFilename, f.origDetails, f.moved, f.copied);
      r == Failure(FileNotFound(NormalizeFilename(sourceName, cfg.basedir), sourceRevision.id))
  {
    var (sourceName, sourceRevision) := cfg.parseRevision(f.origFilename, f.origDetails, f.moved, f.copied);
    var dest := NormalizeFilename(f.modifiedFilename, cfg.basedir);
    if cfg.limitTo.Some? && dest !in cfg.limitTo.value then Success(None)
    else
      var source := NormalizeFilename(sourceName, cfg.basedir);
      if NeedsExistenceCheck(cfg.checkExistence, sourceRevision, f) then
        if !cfg.fileExists.value(source, sourceRevision.id) then
          Failure(FileNotFound(source, sourceRevision.id))
        else
          var revision := if f.validatedParentId.Some? then Rev(f.validatedParentId.value) else sourceRevision;
          Success(Some(f.(origFilename := source, origDetails := revision, modifiedFilename := dest, validatedParentId := None)))
      else
        Success(Some(f.(origFilename := source, origDetails := sourceRevision, modifiedFilename := dest)))
  }

  /** `_process_files` over a whole file list: the yielded files, or the first error. */
  function ProcessFiles(files: seq<ParsedFile>, cfg: ProcessConfig): (r: Result<seq<ParsedFile>, DiffError>)
    requires cfg.checkExistence ==> cfg.fileExists.Some?
    ensures r.Success? ==> |r.value| <= |files|
    decreases |files|
  {
    if |files| == 0 then Success([])
    else
      var before := ProcessFiles(files[..|files| - 1], cfg);
      if before.Failure? then before
      else
        var one := ProcessFile(files[|files| - 1], cfg);
        if one.Failure? then Failure(one.error)
        else if one.value.None? then before
        else Success(before.value + [one.value.value])
  }

  /** With `limit_to`, every yielded file's destination is one of the requested names. */
  lemma {:induction false} ProcessFilesRespectsLimit(files: seq<ParsedFile>, cfg: ProcessConfig)
    requires cfg.checkExistence ==> cfg.fileExists.Some?
    requires cfg.limitTo.Some?
    ensures var r := ProcessFiles(files, cfg);
      r.Success? ==> forall k :: 0 <= k < |r.value| ==> r.value[k].modifiedFilename in cfg.limitTo.value
    decreases |files|
  {
    if |files| > 0 {
      var init := files[..|files| - 1];
      ProcessFilesRespectsLimit(init, cfg);
      var before := ProcessFiles(init, cfg);
      var one := ProcessFile(files[|files| - 1], cfg);
      if before.Success? && one.Success? && one.value.Some? {
        var rows := before.value + [one.value.value];
        assert ProcessFiles(files, cfg) == Success(rows);
        forall k | 0 <= k < |rows| ensures rows[k].modifiedFilename in cfg.limitTo.value {
          if k < |before.value| {
            assert rows[k] == before.value[k];
          }
        }
      }
    }
  }

  /** Without `limit_to`, a successful pass yields exactly one file per input file, in order. */
  lemma {:induction false} ProcessFilesKeepsEveryFile(files: seq<ParsedFile>, cfg: ProcessConfig)
    requires cfg.checkExistence ==> cfg.fileExists.Some?
    requires cfg.limitTo.None?
    ensures var r := ProcessFiles(files, cfg);
      r.Success? ==> (|r.value| == |files| &&
        forall k :: 0 <= k < |files| ==> r.value[k].modifiedFilename == NormalizeFilename(files[k].modifiedFilename, cfg.basedir))
    decreases |files|
  {
    if |files| > 0 {
      var init := files[..|files| - 1];
      ProcessFilesKeepsEveryFile(init, cfg);
      var before := ProcessFiles(init, cfg);
      var one := ProcessFile(files[|files| - 1], cfg);
      if before.Success? && one.Success? {
        var rows := before.value + [one.value.value];
        assert ProcessFiles(files, cfg) == Success(rows);
        forall k | 0 <= k < |files|
          ensures rows[k].modifiedFilename == NormalizeFilename(files[k].modifiedFilename, cfg.basedir)
        {
          if k < |init| {
            assert rows[k] == before.value[k] && files[k] == init[k];
          }
        }
      }
    }
  }

  /** A failed pass fails with the error of one of its files. */
  lemma {:induction false} ProcessFilesFailureCause(files: seq<ParsedFile>, cfg: ProcessConfig) returns (k: nat)
    requires cfg.checkExistence ==> cfg.fileExists.Some?
    requires ProcessFiles(files, cfg).Failure?
    ensures k < |files| && ProcessFile(files[k], cfg).Failure?
    ensures ProcessFiles(files, cfg).error == ProcessFile(files[k], cfg).error
    decreases |files|
  {
    var init := files[..|files| - 1];
    if ProcessFiles(init, cfg).Failure? {
      k := ProcessFilesFailureCause(init, cfg);
      assert files[k] == init[k];
    } else {
      k := |files| - 1;
    }
  }

  /** A file whose checked source is missing makes the whole pass fail. */
  lemma {:induction false} MissingFileFailsPass(files: seq<ParsedFile>, cfg: ProcessConfig, k: nat)
    requires cfg.checkExistence ==> cfg.fileExists.Some?
    requires k < |files| && MissingSource(files[k], cfg)
    ensures ProcessFiles(files, cfg).Failure?
    decreases |files|
  {
    var init := files[..|files| - 1];
    if k < |init| {
      assert init[k] == files[k];
      MissingFileFailsPass(init, cfg, k);
    }
  }

  /** With existence checks off a pass never fails. */
  lemma {:induction false} UncheckedPassSucceeds(files: seq<ParsedFile>, cfg: ProcessConfig)
    requires !cfg.checkExistence
    ensures ProcessFiles(files, cfg).Success?
    decreases |files|
  {
    if |files| > 0 {
      UncheckedPassSucceeds(files[..|files| - 1], cfg);
    }
  }

  /** Once a prefix of the files fails, the whole pass fails with the same error. */
  lemma {:induction false} ProcessFilesPrefixFailure(files: seq<ParsedFile>, i: nat, cfg: ProcessConfig)
    requires cfg.checkExistence ==> cfg.fileExists.Some?
    requires i <= |files| && ProcessFiles(files[..i], cfg).Failure?
    ensures ProcessFiles(files, cfg) == ProcessFiles(files[..i], cfg)
    decreases |files| - i
  {
    if i < |files| {
      assert files[..i + 1][..i] == files[..i];
      ProcessFilesPrefixFailure(files, i + 1, cfg);
    } else {
      assert files[..i] == files;
    }
  }

  /** A file whose existence was checked takes its validated parent ID as its source revision. */
  lemma ValidatedParentReplacesRevision(f: ParsedFile, cfg: ProcessConfig)
    requires cfg.checkExistence && cfg.fileExists.Some? && cfg.limitTo.None?
    requires f.validatedParentId.Some?
    requires NeedsExistenceCheck(true, cfg.parseRevision(f.origFilename, f.origDetails, f.moved, f.copied).1, f)
    ensures var r := ProcessFile(f, cfg);
      r.Success? ==> (r.value.Some? && r.value.value.origDetails == Rev(f.validatedParentId.value) &&
        r.value.value.validatedParentId.None?)
  {
  }

  /** `_process_files` as the loop it is: checks the callback, then yields file by file. */
  method ProcessFilesLoop(files: seq<ParsedFile>, cfg: ProcessConfig) returns (r: Result<seq<ParsedFile>, DiffError>)
    ensures cfg.checkExistence && cfg.fileExists.None? ==> r == Failure(MissingFileExistsCallback)
    ensures !(cfg.checkExistence && cfg.fileExists.None?) ==> r == ProcessFiles(files, cfg)
  {
    if cfg.checkExistence && cfg.fileExists.None? {
      return Failure(MissingFileExistsCallback);
    }
    var out: seq<ParsedFile> := [];
    var i := 0;
    while i < |files|
      invariant 0 <= i <= |files|
      invariant ProcessFiles(files[..i], cfg) == Success(out)
    {
      assert files[..i + 1][..i] == files[..i];
      var one := ProcessFile(files[i], cfg);
      if one.Failure? {
        ProcessFilesPrefixFailure(files, i + 1, cfg);
        return Failure(one.error);
      }
      if one.value.Some? {
        out := out + [one.value.value];
      }
      i := i + 1;
    }
    assert files[..i] == files;
    r := Success(out);
  }

  /** A parent diff that was supplied (non-empty contents), with its single change's parent commit ID. */
  datatype ParentDiff = ParentDiff(files: seq<ParsedFile>, parentCommitId: string)

  /** `_prepare_diff_info`'s result. */
  datatype DiffInfo = DiffInfo(
    files: seq<ParsedFile>,
    parentFiles: map<string, ParsedFile>,
    hasParentDiff: bool)

  /** The original filenames of the main diff's files that a parent diff must provide. */
  function DiffFilenames(files: seq<ParsedFile>): (names: set<string>)
    ensures forall k :: 0 <= k < |files| && files[k].origFilename != "" ==> files[k].origFilename in names
    ensures forall name :: name in names ==> exists k :: 0 <= k < |files| && files[k].origFilename == name
    ensures "" !in names
  {
    set k | 0 <= k < |files| && files[k].origFilename != "" :: files[k].origFilename
  }

  /** The parent-file dictionary, keyed by non-empty modified filename; a later file wins. */
  function ParentFileMap(files: seq<ParsedFile>): (m: map<string, ParsedFile>)
    ensures forall name :: name in m ==> name != "" && m[name].modifiedFilename == name
    ensures forall k :: 0 <= k < |files| && files[k].modifiedFilename != "" ==> files[k].modifiedFilename in m
    ensures forall name :: name in m ==> m[name] in files
    decreases |files|
  {
    if |files| == 0 then map[]
    else
      var m := ParentFileMap(files[..|files| - 1]);
      var f := files[|files| - 1];
      if f.modifiedFilename != "" then m[f.modifiedFilename := f] else m
  }

  /**
   * `_prepare_diff_info`: the callback check, the main diff's files (existence checks only
   * when no parent diff is given), the empty-diff error, and the parent-file dictionary
   * limited to the main diff's source filenames.
   */
  function PrepareDiffInfo(
    mainFiles: seq<ParsedFile>, parent: Option<ParentDiff>, basedir: string, checkExistence: bool,
    fileExists: Option<(string, string) -> bool>,
    parseRevision: (string, Revision, bool, bool) -> (string, Revision)): (r: Result<DiffInfo, DiffError>)
    ensures checkExistence && fileExists.None? ==> r == Failure(MissingFileExistsCallback)
    ensures r.Success? ==> |r.value.files| > 0 && r.value.hasParentDiff == parent.Some?
    ensures r.Success? && parent.None? ==> r.value.parentFiles == map[]
    ensures r.Success? ==> forall name :: name in r.value.parentFiles ==> name in DiffFilenames(r.value.files)
  {
    if checkExistence && fileExists.None? then Failure(MissingFileExistsCallback)
    else
      var files := ProcessFiles(mainFiles, ProcessConfig(basedir, checkExistence && parent.None?, fileExists, None, parseRevision));
      if files.Failure? then Failure(files.error)
      else if |files.value| == 0 then Failure(EmptyDiff)
      else if parent.None? then Success(DiffInfo(files.value, map[], false))
      else
        var cfg := ProcessConfig(basedir, checkExistence, fileExists, Some(DiffFilenames(files.value)), parseRevision);
        var parentFiles := ProcessFiles(parent.value.files, cfg);
        if parentFiles.Failure? then Failure(parentFiles.error)
        else
          ProcessFilesRespectsLimit(parent.value.files, cfg);
          assert forall f :: f in parentFiles.value ==> f.modifiedFilename in DiffFilenames(files.value);
          Success(DiffInfo(files.value, ParentFileMap(parentFiles.value), true))
  }

  /** Supplying a parent diff turns off existence checks on the main diff's files. */
  lemma ParentDiffDisablesMainChecks(
    mainFiles: seq<ParsedFile>, parent: ParentDiff, basedir: string, checkExistence: bool,
    fileExists: Option<(string, string) -> bool>,
    parseRevision: (string, Revision, bool, bool) -> (string, Revision))
    requires !(checkExistence && fileExists.None?)
    ensures var r := PrepareDiffInfo(mainFiles, Some(parent), basedir, checkExistence, fileExists, parseRevision);
      var unchecked := ProcessFiles(mainFiles, ProcessConfig(basedir, false, fileExists, None, parseRevision));
      unchecked.Success? &&
      (r.Success? ==> r.value.files == unchecked.value) &&
      (r.Failure? && r.error.FileNotFound? ==> checkExistence)
  {
    UncheckedPassSucceeds(mainFiles, ProcessConfig(basedir, false, fileExists, None, parseRevision));
    if !checkExistence {
      var r := PrepareDiffInfo(mainFiles, Some(parent), basedir, checkExistence, fileExists, parseRevision);
      var files := ProcessFiles(mainFiles, ProcessConfig(basedir, false, fileExists, None, parseRevision));
      if |files.value| > 0 {
        UncheckedPassSucceeds(parent.files, ProcessConfig(basedir, false, fileExists, Some(DiffFilenames(files.value)), parseRevision));
      }
    }
  }

  /** A diff whose files all get processed cannot be empty once prepared. */
  lemma EmptyDiffIsRejected(
    parent: Option<ParentDiff>, basedir: string, checkExistence: bool,
    fileExists: Option<(string, string) -> bool>,
    parseRevision: (string, Revision, bool, bool) -> (string, Revision))
    requires !(checkExistence && fileExists.None?)
    ensures PrepareDiffInfo([], parent, basedir, checkExistence, fileExists, parseRevision) == Failure(EmptyDiff)
  {
  }

  /** What a FileDiff records about its file's version in the parent diff. */
  datatype ParentInfo = ParentInfo(
    isParentEmpty: bool,
    sourceFilename: string,
    sourceRevision: Revision,
    parentMoved: bool)

  /** A FileDiff as `create_filediffs` builds it; the stored data is present only when saving. */
  datatype FileDiff = FileDiff(
    sourceFile: string,
    destFile: string,
    sourceRevision: Revision,
    destDetail: string,
    binary: bool,
    status: FileStatus,
    parent: Option<ParentInfo>,
    diff: Option<string>,
    parentDiff: Option<string>,
    lineCounts: Option<(nat, nat)>)

  /**
   * The parent bookkeeping for one file: from the matching parent file when there is one,
   * else from the file itself, using the parent diff's parent commit ID as revision when
   * the diff uses commit IDs as revisions.
   */
  function ParentInfoOf(f: ParsedFile, parentFiles: map<string, ParsedFile>, parent: ParentDiff,
                        usesCommitIds: bool): (r: Result<(ParentInfo, string), DiffError>)
    ensures r.Success? ==>
      (r.value.0.isParentEmpty <==>
        !(f.origFilename != "" && f.origFilename in parentFiles) ||
        (parentFiles[f.origFilename].insertCount == 0 && parentFiles[f.origFilename].deleteCount == 0))
    ensures r.Failure? ==> r.error == MissingParentCommitId
  {
    if f.origFilename != "" && f.origFilename in parentFiles then
      var p := parentFiles[f.origFilename];
      Success((ParentInfo(p.insertCount == 0 && p.deleteCount == 0, p.origFilename, p.origDetails, p.moved || p.copied), p.data))
    else if f.origDetails != PreCreation && usesCommitIds then
      if parent.parentCommitId == "" then Failure(MissingParentCommitId)
      else Success((ParentInfo(true, f.origFilename, Rev(parent.parentCommitId), false), ""))
    else Success((ParentInfo(true, f.origFilename, f.origDetails, false), ""))
  }

  /** The FileDiff built for one processed file. */
  function MakeFileDiff(f: ParsedFile, info: DiffInfo, parent: Option<ParentDiff>, usesCommitIds: bool,
                        normalizeDiffFilename: string -> string, validateOnly: bool): (r: Result<FileDiff, DiffError>)
    requires info.hasParentDiff == parent.Some?
    ensures r.Success? ==>
      r.value.status == StatusOf(f) && r.value.binary == f.binary &&
      r.value.sourceFile == normalizeDiffFilename(f.origFilename) &&
      r.value.destFile == normalizeDiffFilename(f.modifiedFilename) &&
      r.value.sourceRevision == f.origDetails &&
      (r.value.parent.Some? <==> parent.Some?) &&
      (r.value.diff.Some? <==> !validateOnly) && (r.value.lineCounts.Some? <==> !validateOnly) &&
      (r.value.parentDiff.Some? <==> !validateOnly)
    ensures r.Success? && !validateOnly ==> r.value.diff == Some(f.data) && r.value.lineCounts == Some((f.insertCount, f.deleteCount))
    ensures r.Failure? ==> parent.Some? && r.error == MissingParentCommitId
  {
    var parentResult := if parent.Some? then ParentInfoOf(f, info.parentFiles, parent.value, usesCommitIds)
                        else Success((ParentInfo(false, "", Unknown, false), ""));
    if parentResult.Failure? then Failure(parentResult.error)
    else
      var (parentInfo, parentContent) := parentResult.value;
      Success(FileDiff(
        normalizeDiffFilename(f.origFilename),
        normalizeDiffFilename(f.modifiedFilename),
        f.origDetails,
        f.modifiedDetails,
        f.binary,
        StatusOf(f),
        if parent.Some? then Some(parentInfo) else None,
        if validateOnly then None else Some(f.data),
        if validateOnly then None else Some(parentContent),
        if validateOnly then None else Some((f.insertCount, f.deleteCount))))
  }

  /** The FileDiffs for a list of processed files, in order, or the first error. */
  function MakeFileDiffs(files: seq<ParsedFile>, info: DiffInfo, parent: Option<ParentDiff>, usesCommitIds: bool,
                         normalizeDiffFilename: string -> string, validateOnly: bool): (r: Result<seq<FileDiff>, DiffError>)
    requires info.hasParentDiff == parent.Some?
    decreases |files|
  {
    if |files| == 0 then Success([])
    else
      var before := MakeFileDiffs(files[..|files| - 1], info, parent, usesCommitIds, normalizeDiffFilename, validateOnly);
      if before.Failure? then before
      else
        var one := MakeFileDiff(files[|files| - 1], info, parent, usesCommitIds, normalizeDiffFilename, validateOnly);
        if one.Failure? then Failure(one.error)
        else Success(before.value + [one.value])
  }

  /** One FileDiff per processed file, in input order, each the FileDiff of that file. */
  lemma {:induction false} MakeFileDiffsOnePerFile(files: seq<ParsedFile>, info: DiffInfo, parent: Option<ParentDiff>,
                                                   usesCommitIds: bool, normalizeDiffFilename: string -> string, validateOnly: bool)
    requires info.hasParentDiff == parent.Some?
    ensures var r := MakeFileDiffs(files, info, parent, usesCommitIds, normalizeDiffFilename, validateOnly);
      r.Success? ==> (|r.value| == |files| &&
        forall k :: 0 <= k < |files| ==>
          MakeFileDiff(files[k], info, parent, usesCommitIds, normalizeDiffFilename, validateOnly) == Success(r.value[k]))
    ensures parent.None? ==> MakeFileDiffs(files, info, parent, usesCommitIds, normalizeDiffFilename, validateOnly).Success?
    decreases |files|
  {
    if |files| > 0 {
      var init := files[..|files| - 1];
      MakeFileDiffsOnePerFile(init, info, parent, usesCommitIds, normalizeDiffFilename, validateOnly);
      forall k | 0 <= k < |init| ensures files[k] == init[k] { }
    }
  }

  /** Once a prefix of the files fails, building the FileDiffs fails with the same error. */
  lemma {:induction false} MakeFileDiffsPrefixFailure(files: seq<ParsedFile>, i: nat, info: DiffInfo, parent: Option<ParentDiff>,
                                                      usesCommitIds: bool, normalizeDiffFilename: string -> string, validateOnly: bool)
    requires info.hasParentDiff == parent.Some?
    requires i <= |files| && MakeFileDiffs(files[..i], info, parent, usesCommitIds, normalizeDiffFilename, validateOnly).Failure?
    ensures MakeFileDiffs(files, info, parent, usesCommitIds, normalizeDiffFilename, validateOnly) ==
      MakeFileDiffs(files[..i], info, parent, usesCommitIds, normalizeDiffFilename, validateOnly)
    decreases |files| - i
  {
    if i < |files| {
      assert files[..i + 1][..i] == files[..i];
      MakeFileDiffsPrefixFailure(files, i + 1, info, parent, usesCommitIds, normalizeDiffFilename, validateOnly);
    } else {
      assert files[..i] == files;
    }
  }

  /** The loop of `create_filediffs` that builds a FileDiff per processed file. */
  method MakeFileDiffsLoop(info: DiffInfo, parent: Option<ParentDiff>, usesCommitIds: bool,
                           normalizeDiffFilename: string -> string, validateOnly: bool)
    returns (r: Result<seq<FileDiff>, DiffError>)
    requires info.hasParentDiff == parent.Some?
    ensures r == MakeFileDiffs(info.files, info, parent, usesCommitIds, normalizeDiffFilename, validateOnly)
  {
    var files := info.files;
    var out: seq<FileDiff> := [];
    var i := 0;
    while i < |files|
      invariant 0 <= i <= |files|
      invariant MakeFileDiffs(files[..i], info, parent, usesCommitIds, normalizeDiffFilename, validateOnly) == Success(out)
    {
      assert files[..i + 1][..i] == files[..i];
      var one := MakeFileDiff(files[i], info, parent, usesCommitIds, normalizeDiffFilename, validateOnly);
      if one.Failure? {
        MakeFileDiffsPrefixFailure(files, i + 1, info, parent, usesCommitIds, normalizeDiffFilename, validateOnly);
        return Failure(one.error);
      }
      out := out + [one.value];
      i := i + 1;
    }
    assert files[..i] == files;
    r := Success(out);
  }

  /**
   * `create_filediffs`: prepares the diff information, then builds one FileDiff per file;
   * the FileDiffs are saved only when not validating.
   */
  method CreateFileDiffs(
    mainFiles: seq<ParsedFile>, parent: Option<ParentDiff>, basedir: string, checkExistence: bool,
    fileExists: Option<(string, string) -> bool>,
    parseRevision: (string, Revision, bool, bool) -> (string, Revision),
    usesCommitIds: bool, normalizeDiffFilename: string -> string, validateOnly: bool)
    returns (r: Result<seq<FileDiff>, DiffError>, saved: bool)
    ensures var info := PrepareDiffInfo(mainFiles, parent, basedir, checkExistence, fileExists, parseRevision);
      (info.Failure? ==> r == Failure(info.error)) &&
      (info.Success? ==> r == MakeFileDiffs(info.value.files, info.value, parent, usesCommitIds, normalizeDiffFilename, validateOnly))
    ensures saved <==> r.Success? && !validateOnly
  {
    var info := PrepareDiffInfo(mainFiles, parent, basedir, checkExistence, fileExists, parseRevision);
    if info.Failure? {
      return Failure(info.error), false;
    }
    r := MakeFileDiffsLoop(info.value, parent, usesCommitIds, normalizeDiffFilename, validateOnly);
    saved := r.Success? && !validateOnly;
  }
}
