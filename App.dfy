/**
 * The command-line glue of app.py: the candidate filtering and uploaded-list
 * bookkeeping of `upload_all`, and the argument checks and dispatch of `run`.
 *
 * Editing a file, uploading it, monitoring a directory, globbing, the file
 * system's view of a path and the interpreter version are parameters or
 * recorded actions; the uploaded-list file is an object whose contents the
 * bookkeeping replaces.
 */
module App {
  import opened Common
  import opened Config
  import FitEditor

  /** Files whose name ends with this are outputs of earlier edits. */
  const ModifiedSuffix: string := "_modified.fit"

  // ---------------------------------------------------------------------------
  // upload_all: candidate names

  /**
   * The name of a globbed file relative to the directory as `upload_all` computes
   * it: every occurrence of the directory's path is removed, then slashes and
   * backslashes are stripped from both ends.
   */
  function RelativeNameAsWritten(full: string, dir: string): string
  {
    Strip(Strip(Replace(full, dir, ""), '/'), '\\')
  }

  /**
   * In a top-level directory whose name starts a file's name, removing every
   * occurrence of the directory's path also eats into the file's name.
   */
  lemma RelativeNameEatsFileName()
    ensures RelativeNameAsWritten("/r/r.fit", "/r") == ".fit"
  {
    DirRemovedTwice();
    StripsNothing(".fit");
  }

  lemma DirRemovedTwice()
    ensures Replace("/r/r.fit", "/r", "") == ".fit"
  {
    var dir := "/r";
    var full := "/r/r.fit";
    assert full[..2] == dir;
    var afterDir := full[2..];
    assert afterDir == "/r.fit" && afterDir[..2] == dir;
    var tail := afterDir[2..];
    assert tail == ".fit";
    TailKept();
    assert Replace(afterDir, dir, "") == Replace(tail, dir, "");
  }

  /** No two-character window of ".fit" starts with a slash, so "/r" occurs nowhere in it. */
  lemma TailKept()
    ensures Replace(".fit", "/r", "") == ".fit"
  {
    var tail := ".fit";
    forall i | 0 <= i <= |tail| - 2
      ensures !OccursAt(tail, "/r", i)
    {
      assert tail[i..i + 2][0] == tail[i] != '/';
    }
    ReplaceAbsent(tail, "/r", "");
  }

  /** A name that neither starts nor ends with a separator is left alone by the stripping. */
  lemma StripsNothing(name: string)
    requires PlainName(name)
    ensures Strip(Strip(name, '/'), '\\') == name
  {
    assert StripLeft(name, '/') == name && StripRight(name, '/') == name;
    assert StripLeft(name, '\\') == name && StripRight(name, '\\') == name;
  }

  /**
   * The name of a globbed file relative to the directory as evidently intended:
   * only the leading directory path is removed.
   */
  function RelativeName(full: string, dir: string): string
  {
    var rest := if |dir| <= |full| && full[..|dir|] == dir then full[|dir|..] else full;
    Strip(Strip(rest, '/'), '\\')
  }

  /** A file name that neither starts nor ends with a path separator. */
  predicate PlainName(name: string)
  {
    |name| > 0 && name[0] != '/' && name[0] != '\\' && name[|name| - 1] != '/' && name[|name| - 1] != '\\'
  }

  /** A file globbed from a directory gets back its own name, whatever the two are called. */
  lemma RelativeNameOfGlobbed(dir: string, name: string)
    requires PlainName(name)
    ensures RelativeName(dir + "/" + name, dir) == name
  {
    var full := dir + "/" + name;
    assert full[..|dir|] == dir;
    assert full[|dir|..] == "/" + name;
    assert StripLeft("/" + name, '/') == StripLeft(name, '/') by {
      assert ("/" + name)[1..] == name;
    }
    StripsNothing(name);
  }

  /** The name `upload_all` gives a globbed file, with every occurrence of the directory removed. */
  function RelativeTo(dir: string): string -> string
  {
    full => RelativeNameAsWritten(full, dir)
  }

  /** The names `upload_all` computes for the globbed files, in glob order. */
  function Names(globbed: seq<string>, dir: string): seq<string>
  {
    Map(RelativeTo(dir), globbed)
  }

  predicate NotModified(name: string)
  {
    !EndsWith(name, ModifiedSuffix)
  }

  /** The test for a name that is not in the uploaded list. */
  function NotIn(uploaded: seq<string>): string -> bool
  {
    f => f !in uploaded
  }

  /**
   * The files `upload_all` processes: the globbed names that are not outputs of
   * earlier edits and are not in the uploaded list, in glob order.
   */
  function Candidates(globbed: seq<string>, dir: string, uploaded: seq<string>): seq<string>
  {
    Filter(NotIn(uploaded), Filter(NotModified, Names(globbed, dir)))
  }

  /** In a directory `/r`, the file `/r/r.fit` is processed, and recorded, as `.fit`. */
  lemma CandidatesAsWritten()
    ensures Candidates(["/r/r.fit"], "/r", []) == [".fit"]
  {
    var names := Names(["/r/r.fit"], "/r");
    RelativeNameEatsFileName();
    assert names == [".fit"];
    assert !EndsWith(".fit", ModifiedSuffix);
    FilterAll(NotModified, names);
    FilterAll(NotIn([]), names);
  }

  /** A name is a candidate exactly when it is globbed, is not an earlier output and is not yet uploaded. */
  lemma CandidatesMembers(globbed: seq<string>, dir: string, uploaded: seq<string>)
    ensures forall f :: f in Candidates(globbed, dir, uploaded) <==>
      f in Names(globbed, dir) && !EndsWith(f, ModifiedSuffix) && f !in uploaded
  {}

  /** Filtering keeps glob order: the candidates of two runs of files are the candidates of each, in turn. */
  lemma CandidatesAppend(g1: seq<string>, g2: seq<string>, dir: string, uploaded: seq<string>)
    ensures Candidates(g1 + g2, dir, uploaded) == Candidates(g1, dir, uploaded) + Candidates(g2, dir, uploaded)
  {
    MapAppend(RelativeTo(dir), g1, g2);
    FilterAppend(NotModified, Names(g1, dir), Names(g2, dir));
    FilterAppend(NotIn(uploaded), Filter(NotModified, Names(g1, dir)), Filter(NotModified, Names(g2, dir)));
  }

  /** The output `edit_fit` writes by default is never a candidate. */
  lemma DefaultOutputNotCandidate(fitPath: Path, globbed: seq<string>, dir: string, uploaded: seq<string>)
    ensures FitEditor.DefaultOutput(fitPath).name !in Candidates(globbed, dir, uploaded)
  {}

  /** Once the candidates are recorded as uploaded, the same directory has no candidates left. */
  lemma RecordedLeavesNone(globbed: seq<string>, dir: string, uploaded: seq<string>)
    ensures Candidates(globbed, dir, uploaded + Candidates(globbed, dir, uploaded)) == []
  {
    var cand := Candidates(globbed, dir, uploaded);
    var after := uploaded + cand;
    var kept := Filter(NotModified, Names(globbed, dir));
    forall x | x in kept
      ensures x in after
    {
      if x !in uploaded {
        assert x in cand;
      }
    }
    FilterNone(NotIn(after), kept);
  }

  // ---------------------------------------------------------------------------
  // upload_all: bookkeeping

  /** The uploaded list after a run that processed `cand`: the old list, then each candidate in turn. */
  function Recorded(uploaded: seq<string>, cand: seq<string>): (r: seq<string>)
    ensures |r| == |uploaded| + |cand| && r[..|uploaded|] == uploaded && r[|uploaded|..] == cand
  {
    uploaded + cand
  }

  /** The `.uploaded_files.json` file of a directory: `None` while it does not exist. */
  class UploadedFile {
    var contents: Option<seq<string>>

    constructor (contents: Option<seq<string>>)
      ensures this.contents == contents
    {
      this.contents := contents;
    }

    /**
     * `upload_all` for one directory: a missing list is created empty; each
     * candidate is edited (unless preinitializing), its output uploaded when the
     * edit produced one, and appended to the list; the list is written back
     * unless this is a dry run. `editProduces(f)` says whether editing `f`
     * produces an output file.
     */
    method UploadAll(dir: string, globbed: seq<string>, preinitialize: bool, dryrun: bool,
                     editProduces: string -> bool)
      returns (edited: seq<string>, uploads: seq<string>)
      modifies this
      ensures var before := if old(contents).None? then [] else old(contents).value;
        var cand := Candidates(globbed, dir, before);
        && edited == (if preinitialize then [] else cand)
        && uploads == (if preinitialize then [] else Filter(editProduces, cand))
        && contents == (if |cand| > 0 && !dryrun then Some(Recorded(before, cand))
                        else if old(contents).None? then Some([]) else old(contents))
    {
      var uploadedFiles: seq<string>;
      if contents.None? {
        uploadedFiles := [];
        contents := Some(uploadedFiles);
      } else {
        uploadedFiles := contents.value;
      }
      var files := Candidates(globbed, dir, uploadedFiles);
      edited, uploads := [], [];
      if |files| == 0 {
        return;
      }
      edited, uploads, uploadedFiles := ProcessCandidates(files, uploadedFiles, preinitialize, editProduces);
      if !dryrun {
        contents := Some(uploadedFiles);
      }
    }
  }

  /**
   * The loop of `upload_all` over the candidates: each is edited unless
   * preinitializing, its output uploaded when the edit produced one, and it is
   * appended to the uploaded list whatever the edit did.
   */
  method ProcessCandidates(files: seq<string>, uploaded: seq<string>, preinitialize: bool, editProduces: string -> bool)
    returns (edited: seq<string>, uploads: seq<string>, uploadedAfter: seq<string>)
    ensures uploadedAfter == Recorded(uploaded, files)
    ensures edited == (if preinitialize then [] else files)
    ensures uploads == (if preinitialize then [] else Filter(editProduces, files))
  {
    edited, uploads, uploadedAfter := [], [], uploaded;
    for i := 0 to |files|
      invariant uploadedAfter == uploaded + files[..i]
      invariant edited == (if preinitialize then [] else files[..i])
      invariant uploads == (if preinitialize then [] else Filter(editProduces, files[..i]))
    {
      var f := files[i];
      assert files[..i + 1] == files[..i] + [f];
      if !preinitialize {
        edited := edited + [f];
        FilterAppend(editProduces, files[..i], [f]);
        if editProduces(f) {
          uploads := uploads + [f];
        }
      }
      uploadedAfter := uploadedAfter + [f];
    }
    assert files[..|files|] == files;
  }

  // ---------------------------------------------------------------------------
  // run

  /** The command-line arguments `run` reads. */
  datatype Args = Args(inputPath: Option<string>, initialSetup: bool, upload: bool, uploadAll: bool,
                       preinitialize: bool, monitor: bool, dryrun: bool)

  /** An interpreter version. */
  datatype Version = Version(major: nat, minor: nat, micro: nat)

  const MinVersion: Version := Version(3, 12, 0)

  /** Semantic-version order on release versions. */
  predicate AtLeast(v: Version, w: Version)
  {
    v.major > w.major || (v.major == w.major && (v.minor > w.minor || (v.minor == w.minor && v.micro >= w.micro)))
  }

  /** What the file system says a path is. */
  datatype PathKind = Missing | File | Directory

  /** The work `run` hands on to the rest of the program. */
  datatype Action =
    | EditFile(path: string, dryrun: bool)
    | Upload(output: string, originalPath: string, dryrun: bool)
    | UploadAllIn(dir: string, preinitialize: bool, dryrun: bool)
    | MonitorDir(dir: string, dryrun: bool)

  /** How `run` ends: normally, with an exit status, or with an exception. */
  datatype Outcome = Finished | ExitWith(code: int) | RaisedOSError

  /** The keys the configuration check leaves out: the folder, when a path is given on the command line. */
  function RunExcluded(args: Args): seq<string>
  {
    if TruthyStr(args.inputPath) then [Name(FitfilesPath)] else []
  }

  /** The argument combinations `run` refuses with exit status 1. */
  predicate BadArguments(args: Args)
  {
    (!TruthyStr(args.inputPath) && !(args.uploadAll || args.monitor || args.preinitialize))
    || (args.monitor && args.uploadAll)
  }

  /** The edit of one FIT file of a directory. */
  function EditFileOf(dryrun: bool): string -> Action
  {
    f => EditFile(f, dryrun)
  }

  /**
   * What `run` does with an existing path: a file is edited and, with upload or
   * upload-all, its output uploaded when there is one; a directory goes to the
   * upload-all bookkeeping, else to the monitor, else every FIT file in it is
   * edited in glob order.
   */
  function Dispatched(p: string, kind: PathKind, args: Args, fitFiles: seq<string>, editOutput: Option<string>)
    : seq<Action>
    requires kind != Missing
  {
    if kind == File then
      [EditFile(p, args.dryrun)] +
        (if (args.upload || args.uploadAll) && editOutput.Some? then [Upload(editOutput.value, p, args.dryrun)] else [])
    else if args.uploadAll || args.preinitialize then [UploadAllIn(p, args.preinitialize, args.dryrun)]
    else if args.monitor then [MonitorDir(p, args.dryrun)]
    else Map(EditFileOf(args.dryrun), fitFiles)
  }

  /** The dispatch of `run` on an existing path, `fitFiles` being its glob of FIT files. */
  method Dispatch(p: string, kind: PathKind, args: Args, fitFiles: seq<string>, editOutput: Option<string>)
    returns (actions: seq<Action>)
    requires kind != Missing
    ensures actions == Dispatched(p, kind, args, fitFiles, editOutput)
    ensures kind == File ==> 1 <= |actions| <= 2 && actions[0] == EditFile(p, args.dryrun)
    ensures kind == File ==> (|actions| == 2 <==> (args.upload || args.uploadAll) && editOutput.Some?)
    ensures kind == File && |actions| == 2 ==> actions[1] == Upload(editOutput.value, p, args.dryrun)
    ensures kind == Directory && (args.uploadAll || args.preinitialize) ==>
      actions == [UploadAllIn(p, args.preinitialize, args.dryrun)]
    ensures kind == Directory && !(args.uploadAll || args.preinitialize) && args.monitor ==>
      actions == [MonitorDir(p, args.dryrun)]
    ensures kind == Directory && !(args.uploadAll || args.preinitialize || args.monitor) ==>
      |actions| == |fitFiles| && forall i | 0 <= i < |fitFiles| :: actions[i] == EditFile(fitFiles[i], args.dryrun)
  {
    if kind == File {
      actions := [EditFile(p, args.dryrun)];
      if (args.upload || args.uploadAll) && editOutput.Some? {
        actions := actions + [Upload(editOutput.value, p, args.dryrun)];
      }
    } else if args.uploadAll || args.preinitialize {
      actions := [UploadAllIn(p, args.preinitialize, args.dryrun)];
    } else if args.monitor {
      actions := [MonitorDir(p, args.dryrun)];
    } else {
      actions := [];
      for i := 0 to |fitFiles|
        invariant actions == Map(EditFileOf(args.dryrun), fitFiles[..i])
      {
        assert fitFiles[..i + 1][..i] == fitFiles[..i];
        actions := actions + [EditFile(fitFiles[i], args.dryrun)];
      }
      assert fitFiles[..|fitFiles|] == fitFiles;
    }
  }

  /** The absolute path `run` works on: the path given on the command line, else the configured folder. */
  function Target(c: Config, args: Args, absolute: string -> string): string
    requires TruthyStr(args.inputPath) || c.fitfilesPath.Some?
  {
    if TruthyStr(args.inputPath) then absolute(args.inputPath.value) else absolute(c.fitfilesPath.value)
  }

  /**
   * Whether `run` gets past the configuration check: the configuration is
   * complete for the keys it needs, or prompting for the missing values is not
   * canceled.
   */
  predicate ConfigReady(c: Config, args: Args, answers: seq<string>)
  {
    Complete(c, RunExcluded(args)) || !Build(c, |ConfigKeys|, false, RunExcluded(args), answers).canceled
  }

  /**
   * `run`: refuse old interpreters, do the initial setup, check the arguments,
   * complete the configuration, pick the path and dispatch on it. `absolute`
   * makes a path absolute; `kind`, `fitFiles` and `editOutput` are what the file
   * system and the editor say about the chosen path.
   */
  method Run(manager: ConfigManager, version: Version, args: Args, answers: seq<string>, dumps: Config -> string,
             absolute: string -> string, kind: string -> PathKind, fitFiles: string -> seq<string>,
             editOutput: string -> Option<string>)
    returns (outcome: Outcome, actions: seq<Action>, target: Option<string>)
    modifies manager
    ensures !AtLeast(version, MinVersion) ==> outcome == RaisedOSError && actions == [] && manager.config == old(manager.config)
    ensures AtLeast(version, MinVersion) && args.initialSetup ==>
      && actions == []
      && (outcome == ExitWith(0) || outcome == ExitWith(1))
      && (outcome == ExitWith(1) <==> Build(old(manager.config), |ConfigKeys|, true, [], answers).canceled)
      && (outcome == ExitWith(0) ==> Complete(manager.config, []) && manager.saved == Some(manager.config))
    ensures AtLeast(version, MinVersion) && !args.initialSetup && BadArguments(args) ==>
      outcome == ExitWith(1) && actions == [] && manager.config == old(manager.config) && manager.saved == old(manager.saved)
    ensures AtLeast(version, MinVersion) && !args.initialSetup && !BadArguments(args) ==>
      && (Complete(old(manager.config), RunExcluded(args)) ==> manager.config == old(manager.config))
      && (!ConfigReady(old(manager.config), args, answers) ==> outcome == ExitWith(1) && target.None?)
      && (ConfigReady(old(manager.config), args, answers) ==>
            && Complete(manager.config, RunExcluded(args))
            && target == Some(Target(manager.config, args, absolute))
            && (kind(target.value) == Missing ==> outcome == ExitWith(1))
            && (kind(target.value) != Missing ==>
                  outcome == Finished &&
                  actions == Dispatched(target.value, kind(target.value), args, fitFiles(target.value), editOutput(target.value))))
    ensures outcome == Finished ==> AtLeast(version, MinVersion) && !args.initialSetup && !BadArguments(args)
    ensures outcome != Finished ==> actions == []
  {
    actions := [];
    target := None;
    if !AtLeast(version, MinVersion) {
      return RaisedOSError, actions, target;
    }
    if args.initialSetup {
      var built, prompts, logged := manager.BuildConfigFile(true, true, None, answers, dumps);
      outcome := if built == Done then ExitWith(0) else ExitWith(1);
      return;
    }
    if !TruthyStr(args.inputPath) && !(args.uploadAll || args.monitor || args.preinitialize) {
      return ExitWith(1), actions, target;
    }
    if args.monitor && args.uploadAll {
      return ExitWith(1), actions, target;
    }
    var excluded := RunExcluded(args);
    var valid := manager.IsValid(Some(excluded));
    if !valid {
      var built, prompts, logged := manager.BuildConfigFile(false, true, Some(excluded), answers, dumps);
      if built != Done {
        return ExitWith(1), actions, target;
      }
    }
    var p: string;
    if TruthyStr(args.inputPath) {
      p := absolute(args.inputPath.value);
    } else {
      // The configuration check has just made the folder key set, so the
      // EnvironmentError raised for an unset folder cannot happen.
      assert Get(manager.config, FitfilesPath).Some?;
      p := absolute(manager.config.fitfilesPath.value);
    }
    target := Some(p);
    var k := kind(p);
    if k == Missing {
      return ExitWith(1), actions, target;
    }
    actions := Dispatch(p, k, args, fitFiles(p), editOutput(p));
    outcome := Finished;
  }
}
