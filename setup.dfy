/** The whole of `addFastMcpServer` as a function on the file system: load,
    merge and write back each present target in turn, accumulating `didAdd`. */
module Setup {
  import opened Wrappers
  import opened Json
  import opened Paths
  import opened McpConfig

  /** The part of the file system the program touches. A file maps to `None`
      when its text is not valid JSON. Writing a document stores the parsed
      value back (`JSON.parse` of `JSON.stringify(doc)` is `doc`). */
  datatype FsState = FsState(files: map<Path, Option<Json>>, dirs: set<Path>)

  /** `readMcpJson`: a missing file, or one whose text does not parse, loads as `{}`. */
  function Load(files: map<Path, Option<Json>>, path: Path): (r: Json)
    // a parsed file loads as its content
    ensures path in files && files[path].Some? ==> r == files[path].value
    // a missing or unparseable file loads as `{}`
    ensures path !in files || files[path].None? ==> r == Obj(map[])
    // so on well-shaped files every load is a document the merge handles
    ensures FilesWellShaped(files) ==> WellShaped(r)
  {
    if path in files && files[path].Some? then files[path].value else Obj(map[])
  }

  /** Every parsed file is a document the merge handles. */
  ghost predicate FilesWellShaped(files: map<Path, Option<Json>>) {
    forall p :: p in files && files[p].Some? ==> WellShaped(files[p].value)
  }

  /** A file that loads as a document already holding the server entry. */
  ghost predicate FileInstalled(files: map<Path, Option<Json>>, p: Path) {
    WellShaped(Load(files, p)) && HasServer(ServersOf(Load(files, p)))
  }

  /** Two file maps agree on one path. */
  ghost predicate SameFile(a: map<Path, Option<Json>>, b: map<Path, Option<Json>>, p: Path) {
    (p in a <==> p in b) && (p in a ==> a[p] == b[p])
  }

  /** One mcp.json to update: its path, the platform separator, and the
      directory the branch creates before writing (only the workspace branch
      has one). */
  datatype Target = Target(file: Path, sep: char, mkdir: Option<Path>)

  /** What the host hands to `addFastMcpServer`: the open workspace folders
      (empty when there are none), `process.platform` and `os.homedir()`. */
  datatype Env = Env(workspaceFolders: seq<Path>, platform: Platform, home: Path)

  /** The workspace block: `<folder>/.vscode/mcp.json`, whose own directory
      is the one the block creates before writing. */
  function WorkspaceTarget(folder: Path, p: Platform): (r: Target)
    ensures r.file == McpJsonPath(folder, Sep(p)) && r.sep == Sep(p)
    ensures r.mkdir == Some(Dirname(r.file, r.sep))
  {
    WorkspaceFileInVscodeDir(folder, Sep(p));
    Target(McpJsonPath(folder, Sep(p)), Sep(p), Some(VscodeDir(folder, Sep(p))))
  }

  /** The user block: the user-level mcp.json, written into the user settings
      directory without creating it. */
  function UserTarget(p: Platform, home: Path): (r: Target)
    ensures r.file == UserMcpJsonPath(p, home) && r.sep == Sep(p)
    ensures r.mkdir.None?
    ensures Dirname(r.file, r.sep) == UserConfigDir(p, home)
  {
    UserFileInConfigDir(p, home);
    Target(UserMcpJsonPath(p, home), Sep(p), None)
  }

  /** The targets in the order the program visits them: the first workspace
      folder, if any, then the user-level file. */
  function Targets(env: Env): (ts: seq<Target>)
    ensures |ts| == (if |env.workspaceFolders| > 0 then 2 else 1)
    ensures ts[|ts| - 1] == UserTarget(env.platform, env.home)
    ensures |ts| == 2 ==> ts[0] == WorkspaceTarget(env.workspaceFolders[0], env.platform)
  {
    UserPathNonEmpty(env.platform, env.home);
    (if |env.workspaceFolders| > 0 then [WorkspaceTarget(env.workspaceFolders[0], env.platform)] else [])
    + (if |UserMcpJsonPath(env.platform, env.home)| > 0 then [UserTarget(env.platform, env.home)] else [])
  }

  /** How a run ends: with its `didAdd` value, or with the exception thrown by
      `writeFileSync` when the file's directory does not exist. */
  datatype Report = Done(didAdd: bool) | WriteFailed(path: Path)

  /** The file system after a run, the paths written in order, and the report. */
  datatype Run = Run(fs: FsState, writes: seq<Path>, report: Report)

  /** One target block: load, merge, and, if the merge changed the document,
      create the directory (workspace only) and write the file. */
  function ApplyTarget(fs: FsState, t: Target): (r: Run)
    requires FilesWellShaped(fs.files)
    ensures FilesWellShaped(r.fs.files)
    ensures fs.dirs <= r.fs.dirs
    // a directory is created only by a block that changes its document and has one to create
    ensures r.fs.dirs ==
      if Merge(Load(fs.files, t.file)).changed && t.mkdir.Some? then fs.dirs + {t.mkdir.value} else fs.dirs
    // a failed write names the file and leaves the files as they were
    ensures r.report.WriteFailed? ==> r.report.path == t.file && r.writes == [] && r.fs.files == fs.files
    // a completed block reports a change exactly when it wrote its file
    ensures r.report.Done? ==> r.writes == (if r.report.didAdd then [t.file] else [])
  {
    var m := Merge(Load(fs.files, t.file));
    if !m.changed then Run(fs, [], Done(false))
    else
      var dirs := if t.mkdir.Some? then fs.dirs + {t.mkdir.value} else fs.dirs;
      if Dirname(t.file, t.sep) in dirs then
        Run(FsState(fs.files[t.file := Some(m.doc)], dirs), [t.file], Done(true))
      else
        Run(FsState(fs.files, dirs), [], WriteFailed(t.file))
  }

  /** What one block does: it changes something exactly when the file does
      not hold the entry yet; it then writes the merged document, after which
      the file holds the entry; its write fails exactly when the file's
      directory neither exists nor is the one the block creates. */
  lemma TargetBlock(fs: FsState, t: Target)
    requires FilesWellShaped(fs.files)
    ensures FileInstalled(fs.files, t.file) ==> ApplyTarget(fs, t) == Run(fs, [], Done(false))
    ensures ApplyTarget(fs, t).report.Done? ==>
      (ApplyTarget(fs, t).report.didAdd <==> !FileInstalled(fs.files, t.file))
    ensures ApplyTarget(fs, t).writes == [t.file] ==>
      ApplyTarget(fs, t).fs.files == fs.files[t.file := Some(Merge(Load(fs.files, t.file)).doc)]
    ensures ApplyTarget(fs, t).report.Done? ==> FileInstalled(ApplyTarget(fs, t).fs.files, t.file)
    ensures ApplyTarget(fs, t).report.WriteFailed? <==>
      && !FileInstalled(fs.files, t.file)
      && Dirname(t.file, t.sep) !in fs.dirs
      && (t.mkdir.None? || t.mkdir.value != Dirname(t.file, t.sep))
  {
  }

  /** A completed block followed by the next one: the state and report of the
      second, the writes of both, and `didAdd` of either. */
  function Then(r0: Run, r1: Run): (r: Run)
    requires r0.report.Done?
    // the state is the second block's, and the writes are those of both in order
    ensures r.fs == r1.fs && r.writes == r0.writes + r1.writes
    // an exception in the second block ends the run with that exception
    ensures r1.report.WriteFailed? ==> r.report == r1.report
    // `didAdd = true` in either block makes the run's `didAdd` true
    ensures r1.report.Done? ==> r.report.Done? && (r.report.didAdd <==> r0.report.didAdd || r1.report.didAdd)
  {
    Run(r1.fs, r0.writes + r1.writes,
        if r1.report.Done? then Done(r0.report.didAdd || r1.report.didAdd) else r1.report)
  }

  /** The targets in order, stopping at the first failed write; `didAdd` is
      the disjunction of the blocks' changes. */
  function ApplyAll(fs: FsState, ts: seq<Target>): (r: Run)
    requires FilesWellShaped(fs.files)
    decreases |ts|
    ensures FilesWellShaped(r.fs.files)
    ensures fs.dirs <= r.fs.dirs
    // didAdd holds iff some file was written
    ensures r.report.Done? ==> (r.report.didAdd <==> r.writes != [])
  {
    if ts == [] then Run(fs, [], Done(false))
    else
      var r0 := ApplyTarget(fs, ts[0]);
      if r0.report.WriteFailed? then r0
      else
        Then(r0, ApplyAll(r0.fs, ts[1..]))
  }

  /** A run writes only target files, each written file ends up holding the
      entry, and every file it did not write is left as it was. */
  lemma {:induction false} RunTouchesOnlyWrittenFiles(fs: FsState, ts: seq<Target>)
    requires FilesWellShaped(fs.files)
    decreases |ts|
    ensures forall p :: p in ApplyAll(fs, ts).writes ==> exists i :: 0 <= i < |ts| && ts[i].file == p
    ensures forall p :: p in ApplyAll(fs, ts).writes ==> FileInstalled(ApplyAll(fs, ts).fs.files, p)
    ensures forall p :: p !in ApplyAll(fs, ts).writes ==> SameFile(ApplyAll(fs, ts).fs.files, fs.files, p)
  {
    if ts != [] {
      var r0 := ApplyTarget(fs, ts[0]);
      TargetBlock(fs, ts[0]);
      if r0.report.Done? {
        var rest := ApplyAll(r0.fs, ts[1..]);
        RunTouchesOnlyWrittenFiles(r0.fs, ts[1..]);
        var writes := r0.writes + rest.writes;
        assert ApplyAll(fs, ts).writes == writes && ApplyAll(fs, ts).fs == rest.fs;
        forall p | p in writes ensures exists i :: 0 <= i < |ts| && ts[i].file == p {
          if p in rest.writes {
            var j :| 0 <= j < |ts[1..]| && ts[1..][j].file == p;
            assert ts[j + 1].file == p;
          } else {
            assert ts[0].file == p;
          }
        }
        forall p | p in writes ensures FileInstalled(rest.fs.files, p) {
          if p !in rest.writes {
            assert FileInstalled(r0.fs.files, p);
          }
        }
        forall p | p !in writes ensures SameFile(rest.fs.files, fs.files, p) {
          assert SameFile(rest.fs.files, r0.fs.files, p);
          assert SameFile(r0.fs.files, fs.files, p);
        }
      }
    }
  }

  /** A run over one target is that target's block. */
  lemma RunOne(fs: FsState, t: Target)
    requires FilesWellShaped(fs.files)
    ensures ApplyAll(fs, [t]) == ApplyTarget(fs, t)
  {
    var r0 := ApplyTarget(fs, t);
    assert [t][1..] == [];
    if r0.report.Done? {
      assert r0.writes + [] == r0.writes;
    }
  }

  /** The workspace block of a run, or an empty step when no folder is open. */
  function WorkspaceStep(fs: FsState, env: Env): (r: Run)
    requires FilesWellShaped(fs.files)
    ensures FilesWellShaped(r.fs.files)
  {
    if |env.workspaceFolders| > 0 then ApplyTarget(fs, WorkspaceTarget(env.workspaceFolders[0], env.platform))
    else Run(fs, [], Done(false))
  }

  /** The run `addFastMcpServer` makes: the workspace step, then, unless its
      write failed, the user block. */
  lemma RunOfEnv(fs: FsState, env: Env)
    requires FilesWellShaped(fs.files)
    ensures WorkspaceStep(fs, env).report.WriteFailed? ==>
      ApplyAll(fs, Targets(env)) == WorkspaceStep(fs, env)
    ensures WorkspaceStep(fs, env).report.Done? ==>
      ApplyAll(fs, Targets(env)) ==
        Then(WorkspaceStep(fs, env), ApplyTarget(WorkspaceStep(fs, env).fs, UserTarget(env.platform, env.home)))
  {
    var ts := Targets(env);
    var ut := UserTarget(env.platform, env.home);
    var w := WorkspaceStep(fs, env);
    if |env.workspaceFolders| > 0 {
      assert ts[1..] == [ut];
      if w.report.Done? {
        RunOne(w.fs, ut);
      }
    } else {
      assert ts == [ut];
      RunOne(fs, ut);
      assert [] + ApplyTarget(fs, ut).writes == ApplyTarget(fs, ut).writes;
    }
  }

  /** After a run that completed, every target file holds the entry. */
  lemma {:induction false} RunInstallsAll(fs: FsState, ts: seq<Target>)
    requires FilesWellShaped(fs.files)
    requires ApplyAll(fs, ts).report.Done?
    decreases |ts|
    ensures forall i :: 0 <= i < |ts| ==> FileInstalled(ApplyAll(fs, ts).fs.files, ts[i].file)
  {
    if ts != [] {
      var r0 := ApplyTarget(fs, ts[0]);
      TargetBlock(fs, ts[0]);
      RunInstallsAll(r0.fs, ts[1..]);
      RunTouchesOnlyWrittenFiles(r0.fs, ts[1..]);
      forall i | 0 <= i < |ts| ensures FileInstalled(ApplyAll(fs, ts).fs.files, ts[i].file) {
        if i > 0 {
          assert ts[1..][i - 1] == ts[i];
        }
      }
    }
  }

  /** When every target file already holds the entry, a run writes nothing,
      changes nothing and reports `didAdd == false`. */
  lemma {:induction false} RunOnInstalledIsNoop(fs: FsState, ts: seq<Target>)
    requires FilesWellShaped(fs.files)
    requires forall i :: 0 <= i < |ts| ==> FileInstalled(fs.files, ts[i].file)
    decreases |ts|
    ensures ApplyAll(fs, ts) == Run(fs, [], Done(false))
  {
    if ts != [] {
      TargetBlock(fs, ts[0]);
      RunOnInstalledIsNoop(fs, ts[1..]);
    }
  }

  /** Idempotence of the install: running it again on the file system it
      produced reports no change and writes nothing. */
  lemma SecondRunIsNoop(fs: FsState, ts: seq<Target>)
    requires FilesWellShaped(fs.files)
    requires ApplyAll(fs, ts).report.Done?
    ensures ApplyAll(ApplyAll(fs, ts).fs, ts) == Run(ApplyAll(fs, ts).fs, [], Done(false))
  {
    RunInstallsAll(fs, ts);
    RunOnInstalledIsNoop(ApplyAll(fs, ts).fs, ts);
  }

  /** A missing or unparseable file ends up holding exactly the minimal
      document `{ servers: { KEY: { url, type } }, inputs: [] }`. */
  lemma FreshFileGetsMinimalDocument(fs: FsState, t: Target)
    requires FilesWellShaped(fs.files)
    requires t.file !in fs.files || fs.files[t.file].None?
    requires ApplyTarget(fs, t).report.Done?
    ensures ApplyTarget(fs, t).writes == [t.file]
    ensures ApplyTarget(fs, t).fs.files[t.file] ==
      Some(Obj(map["servers" := Obj(map[ServerKey := ServerEntry]), "inputs" := Arr([])]))
  {
    MergeEmpty();
  }

  /** The workspace block never fails: it creates the directory it writes into. */
  lemma WorkspaceWriteSucceeds(fs: FsState, folder: Path, p: Platform)
    requires FilesWellShaped(fs.files)
    ensures ApplyTarget(fs, WorkspaceTarget(folder, p)).report.Done?
  {
    WorkspaceFileInVscodeDir(folder, Sep(p));
  }

  /** A whole run fails only at the user-level file, and only when the user
      settings directory is missing (that branch creates no directory). */
  lemma FailureOnlyAtUserFile(fs: FsState, env: Env)
    requires FilesWellShaped(fs.files)
    ensures ApplyAll(fs, Targets(env)).report.WriteFailed? ==>
      && ApplyAll(fs, Targets(env)).report.path == UserMcpJsonPath(env.platform, env.home)
      && UserConfigDir(env.platform, env.home) !in fs.dirs
  {
    RunOfEnv(fs, env);
    UserFileInConfigDir(env.platform, env.home);
    if |env.workspaceFolders| > 0 {
      WorkspaceWriteSucceeds(fs, env.workspaceFolders[0], env.platform);
    }
    var w := WorkspaceStep(fs, env);
    TargetBlock(w.fs, UserTarget(env.platform, env.home));
  }

  /** Without a workspace, the run fails exactly when the user file lacks the
      entry and the user settings directory is missing. */
  lemma UserOnlyFailsIffDirMissing(fs: FsState, env: Env)
    requires FilesWellShaped(fs.files)
    requires |env.workspaceFolders| == 0
    ensures ApplyAll(fs, Targets(env)).report.WriteFailed? <==>
      !FileInstalled(fs.files, UserMcpJsonPath(env.platform, env.home))
      && UserConfigDir(env.platform, env.home) !in fs.dirs
  {
    UserFileInConfigDir(env.platform, env.home);
    assert Targets(env)[1..] == [];
  }
  /** The file systems the program meets: every file lies in a directory that
      exists, with paths written using the separator `sep`. */
  ghost predicate ParentsExist(fs: FsState, sep: char) {
    forall p :: p in fs.files ==> Dirname(p, sep) in fs.dirs
  }

  /** A block keeps every file's directory present, and on such a file system
      an already existing file never makes its block throw. */
  lemma TargetKeepsParents(fs: FsState, t: Target)
    requires FilesWellShaped(fs.files)
    requires ParentsExist(fs, t.sep)
    ensures ParentsExist(ApplyTarget(fs, t).fs, t.sep)
    ensures t.file in fs.files ==> ApplyTarget(fs, t).report.Done?
  {
  }

  /** A whole run over targets that share the separator keeps every file's
      directory present. */
  lemma {:induction false} RunKeepsParents(fs: FsState, ts: seq<Target>, sep: char)
    requires FilesWellShaped(fs.files)
    requires ParentsExist(fs, sep)
    requires forall i :: 0 <= i < |ts| ==> ts[i].sep == sep
    decreases |ts|
    ensures ParentsExist(ApplyAll(fs, ts).fs, sep)
  {
    if ts != [] {
      TargetKeepsParents(fs, ts[0]);
      var r0 := ApplyTarget(fs, ts[0]);
      if r0.report.Done? {
        RunKeepsParents(r0.fs, ts[1..], sep);
      }
    }
  }

  /** Every target of a run uses the platform's separator. */
  lemma TargetsUseSep(env: Env)
    ensures forall i :: 0 <= i < |Targets(env)| ==> Targets(env)[i].sep == Sep(env.platform)
  {
  }

  /** On a file system whose files all lie in existing directories, a run
      throws only when the user file does not exist yet. */
  lemma ExistingUserFileNeverFails(fs: FsState, env: Env)
    requires FilesWellShaped(fs.files)
    requires ParentsExist(fs, Sep(env.platform))
    requires UserMcpJsonPath(env.platform, env.home) in fs.files
    ensures ApplyAll(fs, Targets(env)).report.Done?
  {
    FailureOnlyAtUserFile(fs, env);
    UserFileInConfigDir(env.platform, env.home);
  }

  /** A file the run did not write holds the entry afterwards exactly when it
      held it before. */
  lemma UnwrittenKeepsStatus(fs: FsState, ts: seq<Target>, p: Path)
    requires FilesWellShaped(fs.files)
    ensures p !in ApplyAll(fs, ts).writes ==>
      (FileInstalled(ApplyAll(fs, ts).fs.files, p) <==> FileInstalled(fs.files, p))
  {
    RunTouchesOnlyWrittenFiles(fs, ts);
    if p !in ApplyAll(fs, ts).writes {
      assert SameFile(ApplyAll(fs, ts).fs.files, fs.files, p);
      assert Load(ApplyAll(fs, ts).fs.files, p) == Load(fs.files, p);
    }
  }

  /** `didAdd` in terms of the files before the run: a completed run reports a
      change exactly when some target file did not hold the entry yet. */
  lemma DidAddIffSomeLacked(fs: FsState, ts: seq<Target>)
    requires FilesWellShaped(fs.files)
    requires ApplyAll(fs, ts).report.Done?
    ensures ApplyAll(fs, ts).report.didAdd <==>
      exists i :: 0 <= i < |ts| && !FileInstalled(fs.files, ts[i].file)
  {
    if exists i :: 0 <= i < |ts| && !FileInstalled(fs.files, ts[i].file) {
      var i :| 0 <= i < |ts| && !FileInstalled(fs.files, ts[i].file);
      RunInstallsAll(fs, ts);
      UnwrittenKeepsStatus(fs, ts, ts[i].file);
      assert ts[i].file in ApplyAll(fs, ts).writes;
    } else {
      RunOnInstalledIsNoop(fs, ts);
    }
  }
}
