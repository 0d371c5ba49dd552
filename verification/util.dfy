/**
 * Helpers for cgroups and processes: finding where a cgroup hierarchy is
 * mounted from the lines of `/proc/self/mountinfo`, resolving (and possibly
 * creating) a cgroup directory, random digit strings, and a process's
 * environment.
 */
module CgroupUtil {
  import opened Wrappers
  import opened Strings
  import opened HostOs

  // ---------------------------------------------------------------------
  // FindCgroupMountPoint

  /** The space-separated fields of a mountinfo line. */
  function Fields(line: string): (fields: seq<string>)
    ensures |fields| >= 1
  {
    Split(line, ' ')
  }

  /** The comma-separated options of the line's last field (the super options). */
  function SuperOptions(line: string): seq<string>
  {
    var fields := Fields(line);
    Split(fields[|fields| - 1], ',')
  }

  /** Whether the line describes a mount of the hierarchy of `subsystem`. */
  predicate Mounts(line: string, subsystem: string)
  {
    subsystem in SuperOptions(line)
  }

  /** What a matching line yields: its fifth field, the mount point; indexing a shorter line panics. */
  function MountPointOf(line: string): (r: Exit<string>)
    ensures r.Returned? <==> |Fields(line)| >= 5
  {
    var fields := Fields(line);
    if |fields| >= 5 then Returned(fields[4]) else Panicked("index out of range")
  }

  /** The scan of the lines in order, stopping at the first matching line. */
  function ScanMountInfo(lines: seq<string>, subsystem: string): (r: Exit<string>)
    ensures (forall i :: 0 <= i < |lines| ==> !Mounts(lines[i], subsystem)) ==> r == Returned("")
    ensures forall i :: (0 <= i < |lines| && Mounts(lines[i], subsystem)
      && forall j :: 0 <= j < i ==> !Mounts(lines[j], subsystem)) ==> r == MountPointOf(lines[i])
    decreases |lines|
  {
    if |lines| == 0 then Returned("")
    else if Mounts(lines[0], subsystem) then MountPointOf(lines[0])
    else
      var r := ScanMountInfo(lines[1..], subsystem);
      assert forall i :: 1 <= i < |lines| ==> lines[i] == lines[1..][i - 1];
      r
  }

  /**
   * `FindCgroupMountPoint`: `mountinfo` is the file's lines, or `None` when
   * it cannot be opened, in which case the answer is "".
   */
  function FindCgroupMountPoint(mountinfo: Option<seq<string>>, subsystem: string): (r: Exit<string>)
    ensures mountinfo.None? ==> r == Returned("")
    ensures mountinfo.Some? ==> r == ScanMountInfo(mountinfo.value, subsystem)
  {
    match mountinfo
      case None => Returned("")
      case Some(lines) => ScanMountInfo(lines, subsystem)
  }

  /** Only the first matching line counts: lines after it never change the answer. */
  lemma {:induction false} FirstMatchWins(lines: seq<string>, more: seq<string>, subsystem: string)
    requires exists i :: 0 <= i < |lines| && Mounts(lines[i], subsystem)
    ensures ScanMountInfo(lines + more, subsystem) == ScanMountInfo(lines, subsystem)
    decreases |lines|
  {
    assert (lines + more)[0] == lines[0];
    if !Mounts(lines[0], subsystem) {
      var i :| 0 <= i < |lines| && Mounts(lines[i], subsystem);
      assert lines[1..][i - 1] == lines[i];
      assert (lines + more)[1..] == lines[1..] + more;
      FirstMatchWins(lines[1..], more, subsystem);
    }
  }

  /** Lines that do not mention the subsystem can be appended without effect when none matched. */
  lemma NoMatchAppend(lines: seq<string>, more: seq<string>, subsystem: string)
    requires forall i :: 0 <= i < |lines| ==> !Mounts(lines[i], subsystem)
    ensures ScanMountInfo(lines + more, subsystem) == ScanMountInfo(more, subsystem)
    decreases |lines|
  {
    if |lines| > 0 {
      assert (lines + more)[0] == lines[0];
      assert (lines + more)[1..] == lines[1..] + more;
      NoMatchAppend(lines[1..], more, subsystem);
    } else {
      assert lines + more == more;
    }
  }

  /** When every line that mentions the subsystem has at least five fields, the scan never panics. */
  lemma WellFormedNeverPanics(lines: seq<string>, subsystem: string)
    requires forall i :: 0 <= i < |lines| && Mounts(lines[i], subsystem) ==> |Fields(lines[i])| >= 5
    ensures ScanMountInfo(lines, subsystem).Returned?
  {
    if exists i :: 0 <= i < |lines| && Mounts(lines[i], subsystem) {
      var i := FirstMatching(lines, subsystem);
      assert ScanMountInfo(lines, subsystem) == MountPointOf(lines[i]);
    }
  }

  /** The index of the first line mentioning the subsystem. */
  lemma FirstMatching(lines: seq<string>, subsystem: string) returns (i: nat)
    requires exists i :: 0 <= i < |lines| && Mounts(lines[i], subsystem)
    ensures i < |lines| && Mounts(lines[i], subsystem)
    ensures forall j :: 0 <= j < i ==> !Mounts(lines[j], subsystem)
  {
    i := 0;
    while !Mounts(lines[i], subsystem)
      invariant i < |lines|
      invariant forall j :: 0 <= j < i ==> !Mounts(lines[j], subsystem)
      invariant exists k :: i <= k < |lines| && Mounts(lines[k], subsystem)
      decreases |lines| - i
    {
      i := i + 1;
    }
  }

  /**
   * A line whose super options include the subsystem names the mount point
   * in its fifth field, e.g. "31 25 0:26 / /sys/fs/cgroup/cpu rw - cgroup
   * cgroup rw,cpu" for the cpu hierarchy.
   */
  lemma MatchingLine(fields: seq<string>, options: seq<string>, subsystem: string)
    requires |fields| >= 5 && forall i :: 0 <= i < |fields| ==> ' ' !in fields[i]
    requires |options| >= 1 && forall i :: 0 <= i < |options| ==> ',' !in options[i]
    requires fields[|fields| - 1] == Join(options, ',') && subsystem in options
    ensures FindCgroupMountPoint(Some([Join(fields, ' ')]), subsystem) == Returned(fields[4])
  {
    var line := Join(fields, ' ');
    FieldsOfJoin(fields, options, subsystem);
    ScanFirst([line], subsystem);
  }

  lemma FieldsOfJoin(fields: seq<string>, options: seq<string>, subsystem: string)
    requires |fields| >= 5 && forall i :: 0 <= i < |fields| ==> ' ' !in fields[i]
    requires |options| >= 1 && forall i :: 0 <= i < |options| ==> ',' !in options[i]
    requires fields[|fields| - 1] == Join(options, ',') && subsystem in options
    ensures Mounts(Join(fields, ' '), subsystem) && MountPointOf(Join(fields, ' ')) == Returned(fields[4])
  {
    FieldsOf(fields);
    OptionsOf(fields, options);
  }

  lemma FieldsOf(fields: seq<string>)
    requires |fields| >= 1 && forall i :: 0 <= i < |fields| ==> ' ' !in fields[i]
    ensures Fields(Join(fields, ' ')) == fields
  {
    SplitJoin(fields, ' ');
  }

  lemma OptionsOf(fields: seq<string>, options: seq<string>)
    requires |fields| >= 1 && Fields(Join(fields, ' ')) == fields
    requires |options| >= 1 && forall i :: 0 <= i < |options| ==> ',' !in options[i]
    requires fields[|fields| - 1] == Join(options, ',')
    ensures SuperOptions(Join(fields, ' ')) == options
  {
    SplitJoin(options, ',');
  }

  lemma ScanFirst(lines: seq<string>, subsystem: string)
    requires |lines| >= 1 && Mounts(lines[0], subsystem)
    ensures FindCgroupMountPoint(Some(lines), subsystem) == MountPointOf(lines[0])
  {
  }


  // ---------------------------------------------------------------------
  // GetCgroupPath

  /**
   * `GetCgroupPath`: the cgroup directory below the hierarchy's mount point.
   * An existing directory is returned as is; a missing one is created when
   * `autoCreate` holds (which the kernel refuses unless its parent is a
   * directory) and is an error otherwise; any other `Stat` error is an error.
   */
  function GetCgroupPathSpec(env: Env, w: World, mountinfo: Option<seq<string>>, subsystem: string, cgroupPath: Path, autoCreate: bool)
    : (r: Exit<(Result<Path, Failure>, World)>)
    ensures r.Panicked? <==> FindCgroupMountPoint(mountinfo, subsystem).Panicked?
    ensures r.Returned? ==>
      var dir := PathJoin(FindCgroupMountPoint(mountinfo, subsystem).value, cgroupPath);
      var (res, w') := r.value;
      && (res.Ok? ==> res.value == dir && dir in w'.dirs + w'.files.Keys)
      && (StatOf(env, w, dir) == Found ==> r.value == (Ok(dir), w))
      && ((StatOf(env, w, dir) == StatFailed || (StatOf(env, w, dir) == NotExist && !autoCreate))
          ==> r.value == (Err(StatFailure(dir)), w))
      && (StatOf(env, w, dir) == NotExist && autoCreate ==>
            && w'.trace == w.trace + [Mkdir(dir)]
            && (res.Ok? <==> Mkdir(dir) !in env.faults && ParentIsDir(w, dir))
            && w' == if res.Ok? then w.(dirs := w.dirs + {dir}, trace := w'.trace) else w.(trace := w'.trace))
  {
    match FindCgroupMountPoint(mountinfo, subsystem)
      case Panicked(m) => Panicked(m)
      case Returned(root) =>
        var dir := PathJoin(root, cgroupPath);
        RunOne(env, w, Mkdir(dir));
        match StatOf(env, w, dir)
          case Found => Returned((Ok(dir), w))
          case NotExist =>
            if autoCreate then
              var (e, w1) := Tried(env, w, [Mkdir(dir)]);
              if e.Some? then Returned((Err(e.value), w1)) else Returned((Ok(dir), w1))
            else Returned((Err(StatFailure(dir)), w))
          case StatFailed => Returned((Err(StatFailure(dir)), w))
  }

  method GetCgroupPath(h: Host, mountinfo: Option<seq<string>>, subsystem: string, cgroupPath: Path, autoCreate: bool)
    returns (r: Exit<Result<Path, Failure>>)
    modifies h
    ensures var spec := GetCgroupPathSpec(h.env, old(h.world), mountinfo, subsystem, cgroupPath, autoCreate);
      && (r.Panicked? <==> spec.Panicked?)
      && (r.Panicked? ==> r.message == spec.message && h.world == old(h.world))
      && (r.Returned? ==> (r.value, h.world) == spec.value)
  {
    var root := FindCgroupMountPoint(mountinfo, subsystem);
    if root.Panicked? {
      return Panicked(root.message);
    }
    var dir := PathJoin(root.value, cgroupPath);
    var st := h.Stat(dir);
    if st == Found {
      return Returned(Ok(dir));
    }
    if st == NotExist && autoCreate {
      var e := h.Try([Mkdir(dir)]);
      if e.Some? {
        return Returned(Err(e.value));
      }
      return Returned(Ok(dir));
    }
    return Returned(Err(StatFailure(dir)));
  }

  // ---------------------------------------------------------------------
  // GenRandStrBytes

  const LetterBytes: string := "1234567890"

  /**
   * `GenRandStrBytes`: `n` characters, the i-th being the digit that
   * `draws[i]` (the i-th result of `rand.Intn(10)`) picks. A negative
   * length panics in `make`.
   */
  method GenRandStrBytes(n: int, draws: seq<nat>) returns (r: Exit<string>)
    requires n <= |draws|
    requires forall i :: 0 <= i < |draws| ==> draws[i] < |LetterBytes|
    ensures r.Returned? <==> n >= 0
    ensures r.Returned? ==> |r.value| == n
    ensures r.Returned? ==> forall i :: 0 <= i < n ==> r.value[i] == LetterBytes[draws[i]]
    ensures r.Returned? ==> forall i :: 0 <= i < n ==> '0' <= r.value[i] <= '9'
  {
    if n < 0 {
      return Panicked("makeslice: len out of range");
    }
    var bSlice := new char[n];
    for i := 0 to n
      invariant forall j :: 0 <= j < i ==> bSlice[j] == LetterBytes[draws[j]]
    {
      bSlice[i] := LetterBytes[draws[i]];
    }
    forall i | 0 <= i < n
      ensures '0' <= bSlice[i] <= '9'
    {
      DigitLetter(draws[i]);
    }
    return Returned(bSlice[..]);
  }

  /** Every letter of the alphabet is a decimal digit. */
  lemma DigitLetter(k: nat)
    requires k < |LetterBytes|
    ensures '0' <= LetterBytes[k] <= '9'
  {
  }

  // ---------------------------------------------------------------------
  // GetEnvsByPid

  const Nul: char := '\U{0000}'

  /** `/proc/<pid>/environ`. */
  function EnvironPath(pid: string): Path
  {
    PathJoin(PathJoin("/proc", pid), "environ")
  }

  /**
   * `GetEnvsByPid`: the environment file's content split on NUL, or nothing
   * when the file cannot be read (`environ` is `None`).
   */
  function GetEnvsByPid(environ: Option<string>): (r: Option<seq<string>>)
    ensures r.None? <==> environ.None?
    ensures r.Some? ==> |r.value| >= 1 && Join(r.value, Nul) == environ.value
    ensures r.Some? ==> forall i :: 0 <= i < |r.value| ==> Nul !in r.value[i]
  {
    match environ
      case None => None
      case Some(content) =>
        JoinSplit(content, Nul);
        Some(Split(content, Nul))
  }

  /** The kernel's NUL-separated list is read back entry by entry. */
  lemma EnvsRoundTrip(envs: seq<string>)
    requires |envs| >= 1
    requires forall i :: 0 <= i < |envs| ==> Nul !in envs[i]
    ensures GetEnvsByPid(Some(Join(envs, Nul))) == Some(envs)
  {
    SplitJoin(envs, Nul);
  }
}
