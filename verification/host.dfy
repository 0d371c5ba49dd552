/**
 * The operating system as the runtime sees it: directories, files, mounts,
 * the root and working directory, and a trace of every state-changing call
 * attempted, in order. Whether a call fails is decided by an environment
 * (`Env`) fixed in advance, together with the few failures the kernel always
 * reports (creating what exists, removing what does not, unmounting what is
 * not mounted, a plain unmount of a target with another mount below it,
 * creating below a regular file, a single `mkdir` whose parent is not a
 * directory).
 */
module HostOs {
  import opened Wrappers
  import opened Documents

  type Path = string

  /** `p` without the '/' characters at its end. */
  function TrimTrailingSlashes(p: Path): (r: Path)
    ensures |r| <= |p| && r == p[..|r|]
    ensures r == "" || r[|r| - 1] != '/'
    decreases |p|
  {
    if p != "" && p[|p| - 1] == '/' then TrimTrailingSlashes(p[..|p| - 1]) else p
  }

  /** `p` without the '/' characters at its start. */
  function TrimLeadingSlashes(p: Path): (r: Path)
    ensures |r| <= |p| && r == p[|p| - |r|..]
    ensures r == "" || r[0] != '/'
    decreases |p|
  {
    if p != "" && p[0] == '/' then TrimLeadingSlashes(p[1..]) else p
  }

  /**
   * `filepath.Join(a, b)` for the paths this runtime builds: an empty
   * element is dropped and exactly one '/' separates the two parts (the
   * rest of `filepath.Clean` is not modelled).
   */
  function PathJoin(a: Path, b: Path): Path
  {
    if a == "" then b
    else if b == "" then a
    else TrimTrailingSlashes(a) + "/" + TrimLeadingSlashes(b)
  }

  /** The directory part of `filepath.Split(p)`: everything up to and including the last '/'. */
  function DirPart(p: Path): (d: Path)
    ensures |d| <= |p| && d == p[..|d|]
    ensures d == "" || d[|d| - 1] == '/'
    ensures forall i :: |d| <= i < |p| ==> p[i] != '/'
    decreases |p|
  {
    if p == "" then ""
    else if p[|p| - 1] == '/' then p
    else DirPart(p[..|p| - 1])
  }

  datatype MountFlag = Bind | Rec | NoExec | NoSuid | NoDev | StrictAtime

  /** The state-changing calls the runtime makes. */
  datatype Effect =
    | MkdirAll(path: Path)
    | Mkdir(path: Path)
    | RemoveAll(path: Path)
    | Remove(path: Path)
    | Untar(archive: Path, dir: Path)
    | Mount(source: Path, target: Path, fstype: string, flags: set<MountFlag>, data: string)
    | Unmount(target: Path, detach: bool)
    | PivotRoot(newRoot: Path, putOld: Path)
    | Chdir(path: Path)
    | WriteFile(path: Path, content: Content)

  datatype World = World(
    dirs: set<Path>,
    files: map<Path, Content>,
    mounts: map<Path, Effect>,
    root: Path,
    cwd: Path,
    trace: seq<Effect>)

  /**
   * The failures that depend on things outside the model: the calls that
   * fail, the paths whose `Stat` fails for a reason other than absence, and
   * the files that cannot be opened or read.
   */
  datatype Env = Env(faults: set<Effect>, statFaults: set<Path>, readFaults: set<Path>)

  /** An environment in which nothing fails for outside reasons. */
  predicate Reliable(env: Env)
  {
    env.faults == {} && env.statFaults == {} && env.readFaults == {}
  }

  /** Some proper ancestor of `p` is a regular file, so the kernel answers ENOTDIR. */
  predicate UnderFile(w: World, p: Path)
  {
    exists k :: 0 < k < |p| && p[k] == '/' && p[..k] in w.files
  }

  /**
   * The directory holding `p` (`filepath.Dir` for the paths built here);
   * "" for a path directly below the root, which always exists.
   */
  function Parent(p: Path): Path
  {
    TrimTrailingSlashes(DirPart(TrimTrailingSlashes(p)))
  }

  /** `mkdir(p)` needs the directory that will hold `p`; otherwise the kernel reports ENOENT. */
  predicate ParentIsDir(w: World, p: Path)
  {
    Parent(p) == "" || Parent(p) in w.dirs
  }

  /** The directory holding `a + "/" + b`, for a name `b` without '/', is `a`. */
  lemma ParentOfChild(a: Path, b: string)
    requires a != "" && a[|a| - 1] != '/' && b != "" && '/' !in b
    ensures Parent(a + "/" + b) == a
  {
    var p := a + "/" + b;
    assert p[|p| - 1] == b[|b| - 1] && b[|b| - 1] in b;
    assert TrimTrailingSlashes(p) == p;
    var d := DirPart(p);
    assert p[|a|] == '/';
    assert d == p[..|a| + 1] == a + "/";
    assert TrimTrailingSlashes(a + "/") == TrimTrailingSlashes((a + "/")[..|a|]);
    assert (a + "/")[..|a|] == a;
    assert TrimTrailingSlashes(a) == a;
  }

  /** Every directory that `os.MkdirAll(p)` creates on the way to `p`. */
  function Ancestors(p: Path): set<Path>
  {
    set k | 0 < k < |p| && p[k] == '/' && p[k - 1] != '/' :: p[..k]
  }

  predicate Exists(w: World, p: Path)
  {
    p in w.dirs || p in w.files
  }

  datatype StatResult = Found | NotExist | StatFailed

  /** `os.Stat`: found, absent (`os.IsNotExist`), or some other error. */
  function StatOf(env: Env, w: World, p: Path): (r: StatResult)
    ensures r == Found ==> Exists(w, p)
    ensures r == NotExist ==> !Exists(w, p)
  {
    if p in env.statFaults || UnderFile(w, p) then StatFailed
    else if Exists(w, p) then Found
    else NotExist
  }

  /** Why a step of the runtime failed. */
  datatype Failure = StatFailure(path: Path) | EffectFailure(effect: Effect) | ReadFailure(path: Path)

  /** Whether the kernel carries out `e` in world `w`. */
  predicate Succeeds(env: Env, w: World, e: Effect)
  {
    e !in env.faults &&
    match e
      case MkdirAll(p) => !UnderFile(w, p) && p !in w.files
      case Mkdir(p) => !UnderFile(w, p) && !Exists(w, p) && ParentIsDir(w, p)
      case Remove(p) => Exists(w, p)
      case Unmount(t, detach) => t in w.mounts && (detach || !Busy(w.mounts, t))
      case PivotRoot(r, p) => r in w.mounts && p in w.dirs
      case WriteFile(p, _) => !UnderFile(w, p) && p !in w.dirs
      case _ => true
  }

  /** The paths `p` and everything below it. */
  predicate Below(q: Path, p: Path)
  {
    q == p || (|q| > |p| && q[..|p|] == p && q[|p|] == '/')
  }

  /**
   * Another mount lies below `t`: the kernel refuses a plain (not detaching)
   * `umount(t)` with EBUSY.
   */
  predicate Busy(mounts: map<Path, Effect>, t: Path)
  {
    exists q :: q in mounts && q != t && Below(q, t)
  }

  /**
   * Where the old root is found once `pivot_root(newRoot, putOld)` has made
   * `newRoot` the root: `putOld` seen from the new root. Other paths are not
   * re-rooted by this model.
   */
  function OldRootPath(newRoot: Path, putOld: Path): Path
  {
    if Below(putOld, newRoot) && putOld != newRoot then putOld[|newRoot|..] else putOld
  }

  /** What a successful `e` does to the world (the trace aside). */
  function Apply(w: World, e: Effect): World
  {
    match e
      case MkdirAll(p) => w.(dirs := w.dirs + {p} + Ancestors(p))
      case Mkdir(p) => w.(dirs := w.dirs + {p})
      case RemoveAll(p) =>
        var dirs := set q | q in w.dirs && !Below(q, p);
        var files := map q | q in w.files && !Below(q, p) :: w.files[q];
        w.(dirs := dirs, files := files)
      case Remove(p) => w.(dirs := w.dirs - {p}, files := w.files - {p})
      case Untar(_, _) => w
      case Mount(_, t, _, _, _) => w.(mounts := w.mounts[t := e])
      case Unmount(t, _) => w.(mounts := w.mounts - {t})
      case PivotRoot(r, p) =>
        var oldRoot := OldRootPath(r, p);
        w.(root := r, dirs := w.dirs + {oldRoot}, mounts := w.mounts[oldRoot := e])
      case Chdir(p) => w.(cwd := p)
      case WriteFile(p, c) => w.(files := w.files[p := c])
  }

  /** Attempting `e`: it is recorded in the trace, and takes effect when it succeeds. */
  function Step(env: Env, w: World, e: Effect): (w': World)
    ensures w'.trace == w.trace + [e]
    ensures !Succeeds(env, w, e) ==> w' == w.(trace := w.trace + [e])
  {
    var v := if Succeeds(env, w, e) then Apply(w, e) else w;
    v.(trace := w.trace + [e])
  }
  /** A successful `pivot_root(r, p)` makes `r` the root and leaves the old root mounted where it is now found. */
  lemma PivotStep(env: Env, w: World, r: Path, p: Path)
    requires Succeeds(env, w, PivotRoot(r, p))
    ensures var w' := Step(env, w, PivotRoot(r, p));
      w'.root == r && OldRootPath(r, p) in w'.dirs && OldRootPath(r, p) in w'.mounts
  {
  }


  datatype RunResult = RunResult(failed: Option<Effect>, world: World)

  /** Attempting the effects of `plan` in order, stopping at the first failure. */
  function Run(env: Env, w: World, plan: seq<Effect>): RunResult
    decreases |plan|
  {
    if plan == [] then RunResult(None, w)
    else if !Succeeds(env, w, plan[0]) then RunResult(Some(plan[0]), Step(env, w, plan[0]))
    else Run(env, Step(env, w, plan[0]), plan[1..])
  }

  /** How many effects of `plan` a run attempts. */
  function Attempts(env: Env, w: World, plan: seq<Effect>): (n: nat)
    ensures n <= |plan|
    decreases |plan|
  {
    if plan == [] then 0
    else if !Succeeds(env, w, plan[0]) then 1
    else 1 + Attempts(env, Step(env, w, plan[0]), plan[1..])
  }

  /**
   * A run attempts a prefix of its plan, in order: all of it when nothing
   * fails, and up to and including the failing effect otherwise.
   */
  lemma {:induction false} RunTrace(env: Env, w: World, plan: seq<Effect>)
    ensures var r, n := Run(env, w, plan), Attempts(env, w, plan);
      && r.world.trace == w.trace + plan[..n]
      && (r.failed.None? ==> n == |plan|)
      && (r.failed.Some? ==> n >= 1 && r.failed.value == plan[n - 1])
    decreases |plan|
  {
    if plan != [] && Succeeds(env, w, plan[0]) {
      var w1 := Step(env, w, plan[0]);
      RunTrace(env, w1, plan[1..]);
      TraceCons(w.trace, plan, Attempts(env, w1, plan[1..]));
    }
  }

  /** Recording the head of a plan and then `n` effects of its tail records `n + 1` effects of the plan. */
  lemma TraceCons(t: seq<Effect>, plan: seq<Effect>, n: nat)
    requires plan != [] && n < |plan|
    ensures (t + [plan[0]]) + plan[1..][..n] == t + plan[..n + 1]
  {
    assert [plan[0]] + plan[1..][..n] == plan[..n + 1];
  }

  /** Running two plans back to back is running their concatenation. */
  lemma {:induction false} RunAppend(env: Env, w: World, p1: seq<Effect>, p2: seq<Effect>)
    ensures var r1 := Run(env, w, p1);
      Run(env, w, p1 + p2) == if r1.failed.None? then Run(env, r1.world, p2) else r1
    decreases |p1|
  {
    if p1 != [] {
      assert (p1 + p2)[0] == p1[0];
      assert (p1 + p2)[1..] == p1[1..] + p2;
      if Succeeds(env, w, p1[0]) {
        RunAppend(env, Step(env, w, p1[0]), p1[1..], p2);
      }
    } else {
      assert p1 + p2 == p2;
    }
  }

  /** A one-call run fails exactly when its call does. */
  lemma RunOne(env: Env, w: World, e: Effect)
    ensures Run(env, w, [e]) == RunResult(if Succeeds(env, w, e) then None else Some(e), Step(env, w, e))
  {
    assert [e][1..] == [];
  }

  /** Attempting a plan and reporting the call that failed, if any. */
  function Tried(env: Env, w: World, plan: seq<Effect>): (r: (Option<Failure>, World))
    ensures r.1 == Run(env, w, plan).world
    ensures r.0.None? <==> Run(env, w, plan).failed.None?
    ensures r.0.Some? ==> r.0 == Some(EffectFailure(Run(env, w, plan).failed.value))
  {
    var run := Run(env, w, plan);
    (if run.failed.Some? then Some(EffectFailure(run.failed.value)) else None, run.world)
  }

  /** A single write that succeeds stores its content at its path. */
  lemma TriedWrite(env: Env, w: World, p: Path, c: Content)
    requires Tried(env, w, [WriteFile(p, c)]).0.None?
    ensures Tried(env, w, [WriteFile(p, c)]).1.files == w.files[p := c]
  {
    RunOne(env, w, WriteFile(p, c));
  }

  /** A two-call run stops after the first call when it fails. */
  lemma RunTwo(env: Env, w: World, e1: Effect, e2: Effect)
    ensures Run(env, w, [e1, e2]) ==
      if Succeeds(env, w, e1) then Run(env, Step(env, w, e1), [e2]) else RunResult(Some(e1), Step(env, w, e1))
  {
    assert [e1, e2][1..] == [e2];
  }

  /**
   * The write that `dump` performs for both the address manager and a
   * network record: create the parent directory if `Stat` says it is
   * absent, give up on any other `Stat` error, then truncate-and-write.
   */
  function DumpSpec(env: Env, w: World, path: Path, c: Content): (r: (Option<Failure>, World))
    ensures r.1.files == w.files || r.1.files == w.files[path := c]
    ensures r.0.None? ==> r.1.files == w.files[path := c]
  {
    var dir := DirPart(path);
    RunTwo(env, w, MkdirAll(dir), WriteFile(path, c));
    RunOne(env, Step(env, w, MkdirAll(dir)), WriteFile(path, c));
    RunOne(env, w, WriteFile(path, c));
    match StatOf(env, w, dir)
      case StatFailed => (Some(StatFailure(dir)), w)
      case NotExist => Tried(env, w, [MkdirAll(dir), WriteFile(path, c)])
      case Found => Tried(env, w, [WriteFile(path, c)])
  }

  /** Opening and reading a whole file. */
  function ReadFile(env: Env, w: World, p: Path): (r: Result<Content, Failure>)
    ensures r.Ok? <==> p in w.files && p !in env.readFaults
    ensures r.Ok? ==> r.value == w.files[p]
  {
    if p in env.readFaults || p !in w.files then Err(ReadFailure(p)) else Ok(w.files[p])
  }

  lemma NotUnderFileDir(w: World, path: Path)
    requires !UnderFile(w, path)
    ensures !UnderFile(w, DirPart(path))
  {
    var d := DirPart(path);
    forall k | 0 < k < |d| && d[k] == '/'
      ensures d[..k] !in w.files
    {
      assert path[k] == '/' && path[..k] == d[..k];
    }
  }

  /** What a successful dump wrote is what a later read returns. */
  lemma DumpThenRead(env: Env, w: World, path: Path, c: Content)
    requires DumpSpec(env, w, path, c).0.None?
    requires path !in env.readFaults
    ensures ReadFile(env, DumpSpec(env, w, path, c).1, path) == Ok(c)
  {
    var dir := DirPart(path);
    RunTwo(env, w, MkdirAll(dir), WriteFile(path, c));
    RunOne(env, Step(env, w, MkdirAll(dir)), WriteFile(path, c));
    RunOne(env, w, WriteFile(path, c));
  }

  /**
   * In a reliable environment a dump fails only because the path is taken
   * by a directory or lies below a regular file.
   */
  lemma DumpSucceeds(env: Env, w: World, path: Path, c: Content)
    requires Reliable(env) && path !in w.dirs && !UnderFile(w, path)
    requires |path| > 0 && path[|path| - 1] != '/'
    ensures DumpSpec(env, w, path, c).0.None?
    ensures DumpSpec(env, w, path, c).1.files == w.files[path := c]
  {
    var dir := DirPart(path);
    NotUnderFileDir(w, path);
    assert dir != path;
    assert StatOf(env, w, dir) != StatFailed;
    assert Succeeds(env, w, WriteFile(path, c));
    RunOne(env, w, WriteFile(path, c));
    if StatOf(env, w, dir) == NotExist {
      var w1 := Step(env, w, MkdirAll(dir));
      assert Succeeds(env, w, MkdirAll(dir));
      assert w1.files == w.files;
      assert !UnderFile(w1, path);
      assert Succeeds(env, w1, WriteFile(path, c));
      RunTwo(env, w, MkdirAll(dir), WriteFile(path, c));
      RunOne(env, w1, WriteFile(path, c));
    }
  }

  /** Adding one file at `q` puts no new ancestor file above a path no longer than `q`. */
  lemma UnderFileWrite(w: World, w': World, q: Path, p: Path)
    requires w'.files.Keys == w.files.Keys + {q} && |p| <= |q|
    ensures UnderFile(w', p) == UnderFile(w, p)
  {
    if UnderFile(w', p) {
      var k :| 0 < k < |p| && p[k] == '/' && p[..k] in w'.files;
      assert p[..k] != q;
    }
  }

  /**
   * After a successful dump the file holds what was written, its directory
   * exists and can be examined, and nothing above the file is a regular file.
   */
  lemma DumpLeavesFile(env: Env, w: World, path: Path, c: Content)
    requires DumpSpec(env, w, path, c).0.None?
    ensures var w1 := DumpSpec(env, w, path, c).1;
      && WriteFile(path, c) !in env.faults
      && path in w1.files && w1.files[path] == c && path !in w1.dirs
      && !UnderFile(w1, path)
      && StatOf(env, w1, DirPart(path)) == Found
      && w.dirs <= w1.dirs && w1.mounts == w.mounts
  {
    var dir := DirPart(path);
    var w1 := DumpSpec(env, w, path, c).1;
    RunTwo(env, w, MkdirAll(dir), WriteFile(path, c));
    RunOne(env, Step(env, w, MkdirAll(dir)), WriteFile(path, c));
    RunOne(env, w, WriteFile(path, c));
    if StatOf(env, w, dir) == NotExist {
      var wm := Step(env, w, MkdirAll(dir));
      assert Succeeds(env, wm, WriteFile(path, c));
      UnderFileWrite(wm, w1, path, path);
      UnderFileWrite(wm, w1, path, dir);
      NotUnderFileDir(wm, path);
    } else {
      assert Succeeds(env, w, WriteFile(path, c));
      UnderFileWrite(w, w1, path, path);
      UnderFileWrite(w, w1, path, dir);
    }
  }

  /** Once a dump has succeeded, dumping to the same path again fails only if that write is refused outright. */
  lemma DumpAgain(env: Env, w: World, path: Path, c: Content, c': Content)
    requires DumpSpec(env, w, path, c).0.None?
    requires WriteFile(path, c') !in env.faults
    ensures var w1 := DumpSpec(env, w, path, c).1;
      DumpSpec(env, w1, path, c').0.None?
  {
    var w1 := DumpSpec(env, w, path, c).1;
    DumpLeavesFile(env, w, path, c);
    assert Succeeds(env, w1, WriteFile(path, c'));
    RunOne(env, w1, WriteFile(path, c'));
  }

  /** The machine the runtime runs on. */
  class Host {
    const env: Env
    var world: World

    constructor (env: Env, world: World)
      ensures this.env == env && this.world == world
    {
      this.env := env;
      this.world := world;
    }

    /** Attempt one call. */
    method Perform(e: Effect) returns (ok: bool)
      modifies this
      ensures ok == Succeeds(env, old(world), e)
      ensures world == Step(env, old(world), e)
    {
      ok := Succeeds(env, world, e);
      world := Step(env, world, e);
    }

    /** Attempt the calls of `plan` in order, returning the first that fails. */
    method RunPlan(plan: seq<Effect>) returns (failed: Option<Effect>)
      modifies this
      ensures RunResult(failed, world) == Run(env, old(world), plan)
    {
      var i := 0;
      while i < |plan|
        invariant 0 <= i <= |plan|
        invariant Run(env, old(world), plan) == Run(env, world, plan[i..])
      {
        assert plan[i..][0] == plan[i] && plan[i..][1..] == plan[i + 1..];
        var ok := Perform(plan[i]);
        if !ok {
          return Some(plan[i]);
        }
        i := i + 1;
      }
      return None;
    }

    /** Attempt the calls of `plan` in order, reporting the one that failed. */
    method Try(plan: seq<Effect>) returns (err: Option<Failure>)
      modifies this
      ensures (err, world) == Tried(env, old(world), plan)
    {
      var failed := RunPlan(plan);
      err := if failed.Some? then Some(EffectFailure(failed.value)) else None;
    }

    method Stat(p: Path) returns (r: StatResult)
      ensures r == StatOf(env, world, p)
    {
      r := StatOf(env, world, p);
    }

    method Read(p: Path) returns (r: Result<Content, Failure>)
      ensures r == ReadFile(env, world, p)
    {
      r := ReadFile(env, world, p);
    }

    /** The shared truncate-and-write of a JSON document. */
    method Dump(path: Path, c: Content) returns (err: Option<Failure>)
      modifies this
      ensures (err, world) == DumpSpec(env, old(world), path, c)
    {
      var dir := DirPart(path);
      var st := Stat(dir);
      if st == StatFailed {
        err := Some(StatFailure(dir));
      } else if st == NotExist {
        err := Try([MkdirAll(dir), WriteFile(path, c)]);
      } else {
        err := Try([WriteFile(path, c)]);
      }
    }
  }
}
