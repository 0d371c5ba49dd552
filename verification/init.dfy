/**
 * The container's init process: it reads the user's command from its pipe,
 * makes the workspace's mount point its root with `pivot_root`, mounts
 * `/proc` and `/dev`, and replaces itself with the command.
 */
module ContainerInit {
  import opened Wrappers
  import opened Strings
  import opened HostOs

  const PivotPutOldDirName: string := ".pivot_put_old"

  // ---------------------------------------------------------------------
  // The command

  /**
   * `readUserCommand`: the pipe's whole content split on single spaces, or
   * nothing when reading the pipe fails (`payload` is `None`).
   */
  function ReadUserCommand(payload: Option<string>): (r: Option<seq<string>>)
    ensures r.None? <==> payload.None?
    ensures r.Some? ==> |r.value| >= 1 && Join(r.value, ' ') == payload.value
    ensures r.Some? ==> forall i :: 0 <= i < |r.value| ==> ' ' !in r.value[i]
  {
    match payload
      case None => None
      case Some(msg) =>
        JoinSplit(msg, ' ');
        Some(Split(msg, ' '))
  }

  /**
   * What the parent writes into the pipe (the command words joined with
   * single spaces) is read back as the same words, as long as no word holds
   * a space.
   */
  lemma CommandRoundTrip(words: seq<string>)
    requires |words| >= 1
    requires forall i :: 0 <= i < |words| ==> ' ' !in words[i]
    ensures ReadUserCommand(Some(Join(words, ' '))) == Some(words)
  {
    SplitJoin(words, ' ');
  }

  /** An empty pipe gives one empty word, which passes the "no command" check. */
  lemma EmptyPayload()
    ensures ReadUserCommand(Some("")) == Some([""])
  {
    SplitNoSep("", ' ');
  }

  // ---------------------------------------------------------------------
  // The root switch

  /** Where the old root is put before the switch: below the new root. */
  function PutOldBefore(root: Path): Path
  {
    PathJoin(root, PivotPutOldDirName)
  }

  /** Where the old root is found after the switch: below "/". */
  function PutOldAfter(): Path
  {
    PathJoin("/", PivotPutOldDirName)
  }

  /** `pivotRoot`'s calls, in order. */
  function PivotPlan(root: Path): seq<Effect>
  {
    [Mount(root, root, "", {Bind, Rec}, ""),
     Mkdir(PutOldBefore(root)),
     PivotRoot(root, PutOldBefore(root)),
     Chdir("/"),
     Unmount(PutOldAfter(), true),
     Remove(PutOldAfter())]
  }

  /** `mount`'s calls after the switch: `/proc` first, then `/dev`. */
  function SpecialMounts(): seq<Effect>
  {
    [Mount("proc", "/proc", "proc", {NoExec, NoSuid, NoDev}, ""),
     Mount("tmpfs", "/dev", "tmpfs", {NoSuid, StrictAtime}, "mode=755")]
  }

  /** The holding directory's two names, for a root that is a plain absolute directory path. */
  lemma PutOldPaths(root: Path)
    requires |root| >= 2 && root[0] == '/' && root[|root| - 1] != '/'
    ensures PutOldBefore(root) == root + "/.pivot_put_old"
    ensures PutOldAfter() == "/.pivot_put_old"
    ensures OldRootPath(root, PutOldBefore(root)) == PutOldAfter()
  {
    assert TrimTrailingSlashes(root) == root;
    assert TrimTrailingSlashes("/") == "" by {
      assert TrimTrailingSlashes("/") == TrimTrailingSlashes("/"[..0]);
    }
    var p := PutOldBefore(root);
    assert p[..|root|] == root && p[|root|] == '/';
    assert p[|root|..] == "/.pivot_put_old";
  }

  /** The holding directory is created directly in the new root. */
  lemma PutOldParent(root: Path)
    requires |root| >= 2 && root[0] == '/' && root[|root| - 1] != '/'
    ensures Parent(PutOldBefore(root)) == root
  {
    assert TrimTrailingSlashes(root) == root;
    assert PutOldBefore(root) == root + "/" + PivotPutOldDirName;
    ParentOfChild(root, PivotPutOldDirName);
  }

  datatype InitError =
    | GetwdFailed
    | PivotFailed(effect: Effect)
    | SpecialMountFailed(effect: Effect)

  /** `os.Getwd`: fails when the working directory cannot be examined. */
  function Getwd(env: Env, w: World): Option<Path>
  {
    if w.cwd in env.statFaults then None else Some(w.cwd)
  }

  function PivotRootSpec(env: Env, w: World, root: Path): (r: RunResult)
  {
    Run(env, w, PivotPlan(root))
  }

  /**
   * `mount`: switch the root to the working directory, then mount `/proc`
   * and `/dev`, stopping at the first failure.
   */
  function MountSpec(env: Env, w: World): (r: (Option<InitError>, World))
    ensures Getwd(env, w).None? ==> r == (Some(GetwdFailed), w)
  {
    match Getwd(env, w)
      case None => (Some(GetwdFailed), w)
      case Some(wd) =>
        var pivot := PivotRootSpec(env, w, wd);
        if pivot.failed.Some? then (Some(PivotFailed(pivot.failed.value)), pivot.world)
        else
          var special := Run(env, pivot.world, SpecialMounts());
          if special.failed.Some? then (Some(SpecialMountFailed(special.failed.value)), special.world)
          else (None, special.world)
  }

  /**
   * `mount` is one short-circuit run of the root switch followed by the two
   * special mounts: nothing is mounted on `/proc` or `/dev` when the switch
   * fails, and `/dev` is attempted only after `/proc` succeeded.
   */
  lemma MountIsOneRun(env: Env, w: World)
    requires Getwd(env, w).Some?
    ensures var plan := PivotPlan(w.cwd) + SpecialMounts();
      var run := Run(env, w, plan);
      var r := MountSpec(env, w);
      && r.1 == run.world
      && (r.0.None? <==> run.failed.None?)
      && (r.0.Some? && r.0.value.PivotFailed? ==> run.failed.value in PivotPlan(w.cwd))
      && (r.0.Some? && r.0.value.SpecialMountFailed? ==> run.failed.value in SpecialMounts())
      && r.1.trace == w.trace + plan[..Attempts(env, w, plan)]
  {
    var plan := PivotPlan(w.cwd) + SpecialMounts();
    RunAppend(env, w, PivotPlan(w.cwd), SpecialMounts());
    RunTrace(env, w, PivotPlan(w.cwd));
    RunTrace(env, Run(env, w, PivotPlan(w.cwd)).world, SpecialMounts());
    RunTrace(env, w, plan);
  }

  /**
   * With nothing failing for outside reasons, the root switch to a plain
   * absolute directory path without a holding directory yet succeeds: the
   * root is that path, the working directory is "/", and the old root is
   * detached and its holding directory gone.
   */
  lemma ReliablePivot(env: Env, w: World, root: Path)
    requires Reliable(env)
    requires |root| >= 2 && root[0] == '/' && root[|root| - 1] != '/' && root in w.dirs
    requires !Exists(w, PutOldBefore(root)) && !UnderFile(w, PutOldBefore(root))
    ensures var r := PivotRootSpec(env, w, root);
      && r.failed.None?
      && r.world.root == root && r.world.cwd == "/"
      && PutOldAfter() !in r.world.mounts && PutOldAfter() !in r.world.dirs
  {
    var w3 := ReliableSwitch(env, w, root);
    ReliableCleanup(env, w3, root);
  }

  /** The first three calls of the switch succeed and leave the old root in its holding directory. */
  lemma ReliableSwitch(env: Env, w: World, root: Path) returns (w3: World)
    requires Reliable(env)
    requires |root| >= 2 && root[0] == '/' && root[|root| - 1] != '/' && root in w.dirs
    requires !Exists(w, PutOldBefore(root)) && !UnderFile(w, PutOldBefore(root))
    ensures Run(env, w, PivotPlan(root)) == Run(env, w3, PivotPlan(root)[3..])
    ensures w3.root == root && PutOldAfter() in w3.dirs && PutOldAfter() in w3.mounts
  {
    PutOldPaths(root);
    PutOldParent(root);
    var p := PivotPlan(root);
    var putOld := PutOldBefore(root);
    var w1 := Step(env, w, p[0]);
    assert w1.files == w.files && w1.dirs == w.dirs && root in w1.mounts;
    assert Run(env, w, p) == Run(env, w1, p[1..]);
    var w2 := Step(env, w1, p[1]);
    assert Succeeds(env, w1, p[1]);
    assert putOld in w2.dirs && root in w2.mounts;
    assert p[1..][1..] == p[2..];
    assert Run(env, w1, p[1..]) == Run(env, w2, p[2..]);
    w3 := Step(env, w2, p[2]);
    assert Succeeds(env, w2, p[2]);
    PivotStep(env, w2, root, putOld);
    assert p[2..][1..] == p[3..];
  }

  /** The last three calls of the switch succeed and take the old root away. */
  lemma ReliableCleanup(env: Env, w3: World, root: Path)
    requires Reliable(env)
    requires w3.root == root && PutOldAfter() in w3.dirs && PutOldAfter() in w3.mounts
    ensures var r := Run(env, w3, PivotPlan(root)[3..]);
      && r.failed.None?
      && r.world.root == root && r.world.cwd == "/"
      && PutOldAfter() !in r.world.mounts && PutOldAfter() !in r.world.dirs
  {
    var p := PivotPlan(root)[3..];
    assert p == [Chdir("/"), Unmount(PutOldAfter(), true), Remove(PutOldAfter())];
    var w4 := Step(env, w3, p[0]);
    assert w4.root == root && w4.cwd == "/" && PutOldAfter() in w4.dirs && PutOldAfter() in w4.mounts;
    assert Run(env, w3, p) == Run(env, w4, p[1..]);
    var w5 := Step(env, w4, p[1]);
    assert Succeeds(env, w4, p[1]);
    assert w5.root == root && w5.cwd == "/" && PutOldAfter() in w5.dirs && PutOldAfter() !in w5.mounts;
    assert p[1..][1..] == [p[2]];
    assert Run(env, w4, p[1..]) == Run(env, w5, [p[2]]);
    assert Succeeds(env, w5, p[2]);
    RunOne(env, w5, p[2]);
  }

  /**
   * With nothing failing for outside reasons, `mount` run from a plain
   * absolute directory without a holding directory makes it the root, and
   * mounts `/proc` and `/dev`.
   */
  lemma ReliableMountSucceeds(env: Env, w: World)
    requires Reliable(env)
    requires |w.cwd| >= 2 && w.cwd[0] == '/' && w.cwd[|w.cwd| - 1] != '/' && w.cwd in w.dirs
    requires !Exists(w, PutOldBefore(w.cwd)) && !UnderFile(w, PutOldBefore(w.cwd))
    ensures var r := MountSpec(env, w);
      && r.0.None?
      && r.1.root == w.cwd && r.1.cwd == "/"
      && PutOldAfter() !in r.1.mounts && PutOldAfter() !in r.1.dirs
      && "/proc" in r.1.mounts && "/dev" in r.1.mounts
  {
    ReliablePivot(env, w, w.cwd);
    PutOldPaths(w.cwd);
    var w6 := PivotRootSpec(env, w, w.cwd).world;
    var m := SpecialMounts();
    RunTwo(env, w6, m[0], m[1]);
    var s1 := Step(env, w6, m[0]);
    RunOne(env, s1, m[1]);
  }

  // ---------------------------------------------------------------------
  // The init process

  /**
   * How the init process ends: without a command, with a failed executable
   * lookup, replaced by the command, or after an exec failure that is only
   * logged.
   */
  datatype InitEnd =
    | NoCommand
    | LookPathFailed(name: string)
    | Replaced(path: Path, argv: seq<string>)
    | ExecFailedLogged(path: Path)

  /** Whether `RunContainerInitProcess` returns an error (a replaced process returns nothing). */
  predicate ReturnsError(e: InitEnd)
  {
    e.NoCommand? || e.LookPathFailed?
  }

  /**
   * `RunContainerInitProcess`. `searchPath` stands for `exec.LookPath`
   * (the resolved path of each command name it finds) and `execFails` for
   * whether `syscall.Exec` fails.
   */
  function RunContainerInitSpec(env: Env, w: World, payload: Option<string>, searchPath: map<string, Path>, execFails: bool): (r: (InitEnd, World))
    ensures payload.None? ==> r == (NoCommand, w)
    ensures payload.Some? ==> r.1 == MountSpec(env, w).1
    ensures r.0.Replaced? ==> r.0.argv == ReadUserCommand(payload).value && r.0.argv[0] in searchPath
    ensures r.0.ExecFailedLogged? ==> execFails && !ReturnsError(r.0)
    ensures payload.Some? ==>
      var argv := ReadUserCommand(payload).value;
      && (argv[0] !in searchPath ==> r.0 == LookPathFailed(argv[0]))
      && (argv[0] in searchPath ==>
            r.0 == if execFails then ExecFailedLogged(searchPath[argv[0]]) else Replaced(searchPath[argv[0]], argv))
  {
    var cmd := ReadUserCommand(payload);
    if cmd.None? || |cmd.value| == 0 then (NoCommand, w)
    else
      var argv := cmd.value;
      var (_, w1) := MountSpec(env, w);
      if argv[0] !in searchPath then (LookPathFailed(argv[0]), w1)
      else if execFails then (ExecFailedLogged(searchPath[argv[0]]), w1)
      else (Replaced(searchPath[argv[0]], argv), w1)
  }

  /**
   * The result of mounting is discarded: how the init process ends does not
   * depend on the host at all, only on the command, the lookup and the exec.
   */
  lemma InitIgnoresMount(env: Env, w: World, env': Env, w': World, payload: Option<string>, searchPath: map<string, Path>, execFails: bool)
    ensures RunContainerInitSpec(env, w, payload, searchPath, execFails).0 ==
            RunContainerInitSpec(env', w', payload, searchPath, execFails).0
  {
  }

  // ---------------------------------------------------------------------
  // The calls themselves

  method PivotRootCalls(h: Host, root: Path) returns (failed: Option<Effect>)
    modifies h
    ensures RunResult(failed, h.world) == PivotRootSpec(h.env, old(h.world), root)
  {
    failed := h.RunPlan(PivotPlan(root));
  }

  method MountProcAndDev(h: Host) returns (err: Option<InitError>)
    modifies h
    ensures (err, h.world) == MountSpec(h.env, old(h.world))
  {
    var wd := Getwd(h.env, h.world);
    if wd.None? {
      return Some(GetwdFailed);
    }
    var failed := PivotRootCalls(h, wd.value);
    if failed.Some? {
      return Some(PivotFailed(failed.value));
    }
    failed := h.RunPlan(SpecialMounts());
    if failed.Some? {
      return Some(SpecialMountFailed(failed.value));
    }
    return None;
  }

  method RunContainerInitProcess(h: Host, payload: Option<string>, searchPath: map<string, Path>, execFails: bool)
    returns (end: InitEnd)
    modifies h
    ensures (end, h.world) == RunContainerInitSpec(h.env, old(h.world), payload, searchPath, execFails)
  {
    var cmd := ReadUserCommand(payload);
    if cmd.None? || |cmd.value| == 0 {
      return NoCommand;
    }
    var argv := cmd.value;
    var _ := MountProcAndDev(h);
    if argv[0] !in searchPath {
      return LookPathFailed(argv[0]);
    }
    if execFails {
      return ExecFailedLogged(searchPath[argv[0]]);
    }
    return Replaced(searchPath[argv[0]], argv);
  }
}
