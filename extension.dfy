/** The extension's state as the host keeps it: the mcp.json files on disk,
    the directories that exist, and the persisted `fastmcp.didRunSetup` flag;
    with `addFastMcpServer`, `activate` and the reset command as methods. */
module Extension {
  import opened Wrappers
  import opened Json
  import opened Paths
  import opened McpConfig
  import opened Setup

  /** The truthiness test `!didRun` negates: `globalState.get` yields
      `undefined` (None) until the flag is first stored. */
  predicate FlagSet(flag: Option<bool>): (r: bool)
    // only a stored `true` is truthy: `undefined` and a reset `false` both start the setup
    ensures r <==> flag == Some(true)
  {
    match flag
    case Some(b) => b
    case None => false
  }

  class Host {
    var files: map<Path, Option<Json>>
    var dirs: set<Path>
    /** `context.globalState` entry `fastmcp.didRunSetup`. */
    var didRunSetup: Option<bool>
    /** How many times `writeFileSync` has written a file. */
    ghost var writeCount: nat
    /** How many times activation started the setup. */
    ghost var setupRuns: nat

    ghost predicate Valid()
      reads this
    {
      FilesWellShaped(files)
    }

    /** The file system as a value. */
    function State(): FsState
      reads this
    {
      FsState(files, dirs)
    }

    constructor (files0: map<Path, Option<Json>>, dirs0: set<Path>, flag0: Option<bool>)
      requires FilesWellShaped(files0)
      ensures Valid()
      ensures files == files0 && dirs == dirs0 && didRunSetup == flag0
      ensures writeCount == 0 && setupRuns == 0
    {
      files, dirs, didRunSetup := files0, dirs0, flag0;
      writeCount, setupRuns := 0, 0;
    }

    /** `readMcpJson`: `existsSync`, then `readFileSync` and `JSON.parse`
        inside a `try` whose `catch` yields `{}`. */
    method ReadMcpJson(path: Path) returns (doc: Json)
      ensures doc == Load(files, path)
    {
      if path in files {
        match files[path]
        case Some(d) => doc := d;
        case None => doc := Obj(map[]);
      } else {
        doc := Obj(map[]);
      }
    }

    /** `writeMcpJson`: `writeFileSync` succeeds when the file's directory
        exists and throws otherwise (`ok == false`, nothing written). */
    method WriteMcpJson(path: Path, sep: char, doc: Json) returns (ok: bool)
      requires WellShaped(doc)
      requires Valid()
      modifies this`files, this`writeCount
      ensures Valid()
      ensures ok == (Dirname(path, sep) in dirs)
      ensures files == if ok then old(files)[path := Some(doc)] else old(files)
      ensures writeCount == if ok then old(writeCount) + 1 else old(writeCount)
    {
      ok := Dirname(path, sep) in dirs;
      if ok {
        files := files[path := Some(doc)];
        writeCount := writeCount + 1;
      }
    }

    /** One of the two blocks of `addFastMcpServer`, on the file of `t`. */
    method InstallInto(t: Target) returns (report: Report)
      requires Valid()
      modifies this`files, this`dirs, this`writeCount
      ensures Valid()
      ensures State() == ApplyTarget(old(State()), t).fs
      ensures report == ApplyTarget(old(State()), t).report
      ensures writeCount == old(writeCount) + |ApplyTarget(old(State()), t).writes|
    {
      var config := ReadMcpJson(t.file);
      var m := Merge(config);
      if m.changed {
        if t.mkdir.Some? && t.mkdir.value !in dirs {
          dirs := dirs + {t.mkdir.value};
        }
        var ok := WriteMcpJson(t.file, t.sep, m.doc);
        if !ok {
          return WriteFailed(t.file);
        }
        return Done(true);
      }
      return Done(false);
    }

    /** `addFastMcpServer`: the workspace block when a folder is open, then the
        user block; an exception from a write ends the run. The start/restart
        requests and the notifications that follow are not modelled. */
    method AddFastMcpServer(env: Env) returns (report: Report)
      requires Valid()
      modifies this`files, this`dirs, this`writeCount
      ensures Valid()
      ensures State() == ApplyAll(old(State()), Targets(env)).fs
      ensures report == ApplyAll(old(State()), Targets(env)).report
      ensures writeCount == old(writeCount) + |ApplyAll(old(State()), Targets(env)).writes|
    {
      ghost var s0 := State();
      RunOfEnv(s0, env);
      ghost var w := WorkspaceStep(s0, env);
      var didAdd := false;
      if |env.workspaceFolders| > 0 {
        var folder := env.workspaceFolders[0];
        var r := InstallInto(WorkspaceTarget(folder, env.platform));
        if r.WriteFailed? {
          return r;
        }
        didAdd := r.didAdd;
      }
      assert State() == w.fs && writeCount == old(writeCount) + |w.writes| && w.report == Done(didAdd);
      var userPath := UserMcpJsonPath(env.platform, env.home);
      UserPathNonEmpty(env.platform, env.home);
      if |userPath| > 0 {
        ghost var u := ApplyTarget(w.fs, UserTarget(env.platform, env.home));
        var r := InstallInto(UserTarget(env.platform, env.home));
        if r.WriteFailed? {
          report := r;
        } else {
          report := Done(didAdd || r.didAdd);
        }
      }
    }

    /** `activate`: run the setup when the flag is not set, and set the flag
        only once the setup has completed. */
    method Activate(env: Env) returns (ranSetup: bool, report: Option<Report>)
      requires Valid()
      modifies this
      ensures Valid()
      ensures ranSetup <==> !FlagSet(old(didRunSetup))
      ensures !ranSetup ==>
        report == None && State() == old(State()) && writeCount == old(writeCount)
        && didRunSetup == old(didRunSetup) && setupRuns == old(setupRuns)
      ensures ranSetup ==> var r := ApplyAll(old(State()), Targets(env));
        && report == Some(r.report) && State() == r.fs && writeCount == old(writeCount) + |r.writes|
        && setupRuns == old(setupRuns) + 1
        && didRunSetup == (if r.report.Done? then Some(true) else old(didRunSetup))
    {
      var didRun := didRunSetup;
      ranSetup := !FlagSet(didRun);
      report := None;
      if ranSetup {
        setupRuns := setupRuns + 1;
        var r := AddFastMcpServer(env);
        report := Some(r);
        if r.Done? {
          didRunSetup := Some(true);
        }
      }
    }

    /** The `fastmcpContext.resetOnboarding` command. */
    method ResetOnboarding()
      modifies this`didRunSetup
      ensures didRunSetup == Some(false)
    {
      didRunSetup := Some(false);
    }
  }

  /** The life of the onboarding latch: a first activation runs the setup and
      sets the flag, a reload runs none and leaves the files alone, and after
      the reset command the next activation runs the setup again and, the
      files being installed already, writes nothing. */
  method OnboardingLifecycle(h: Host, env: Env) returns (first: bool, second: bool, third: bool)
    requires h.Valid()
    requires !FlagSet(h.didRunSetup)
    requires UserConfigDir(env.platform, env.home) in h.dirs
    modifies h
    ensures first && !second && third
    ensures h.didRunSetup == Some(true)
    ensures h.setupRuns == old(h.setupRuns) + 2
    ensures h.State() == ApplyAll(old(h.State()), Targets(env)).fs
    ensures h.writeCount == old(h.writeCount) + |ApplyAll(old(h.State()), Targets(env)).writes|
  {
    FailureOnlyAtUserFile(h.State(), env);
    var r1, r2, r3;
    first, r1 := h.Activate(env);
    second, r2 := h.Activate(env);
    h.ResetOnboarding();
    SecondRunIsNoop(old(h.State()), Targets(env));
    third, r3 := h.Activate(env);
  }

  /** Onboarding is retried until it completes: when the user settings
      directory is missing, the write of the user file throws, the flag stays
      unset, and the next activation runs the setup again. */
  method FailedSetupIsRetried(h: Host, env: Env) returns (first: bool, second: bool)
    requires h.Valid()
    requires !FlagSet(h.didRunSetup)
    requires |env.workspaceFolders| == 0
    requires UserConfigDir(env.platform, env.home) !in h.dirs
    requires !FileInstalled(h.files, UserMcpJsonPath(env.platform, env.home))
    modifies h
    ensures first && second
    ensures h.didRunSetup == old(h.didRunSetup)
    ensures h.files == old(h.files) && h.writeCount == old(h.writeCount)
    ensures h.setupRuns == old(h.setupRuns) + 2
  {
    UserOnlyFailsIffDirMissing(h.State(), env);
    var r1, r2;
    first, r1 := h.Activate(env);
    second, r2 := h.Activate(env);
  }
}
