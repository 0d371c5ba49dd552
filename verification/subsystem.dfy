/**
 * The cgroup v1 subsystems the runtime limits: cpu, cpuset and memory. Each
 * writes one limit file of its hierarchy from one field of the resource
 * configuration; all three share the base behaviour of setting a limit,
 * adding a process and removing the cgroup.
 *
 * The shared behaviour asks the base type for the subsystem's name, and
 * the base type's `Name` panics. `SetAsWritten`, `ApplyAsWritten` and
 * `RemoveAsWritten` model that; `SetLimit`, `ApplySpec` and `RemoveSpec`
 * model the evidently intended behaviour, with the concrete subsystem's
 * name.
 */
module Cgroups {
  import opened Wrappers
  import opened Decimal
  import opened Documents
  import opened HostOs
  import opened CgroupUtil

  /** The resource limits of a container; an empty string means "no limit". */
  datatype ResourceConfig = ResourceConfig(memoryLimit: string, cpuShares: string, cpuset: string)

  datatype Subsystem = Cpu | Cpuset | Memory

  /** The registry, in the order the subsystems are applied. */
  const Subsystems: seq<Subsystem> := [Cpu, Cpuset, Memory]

  function Name(s: Subsystem): string
  {
    match s
      case Cpu => "cpu"
      case Cpuset => "cpuset"
      case Memory => "memory"
  }

  /** The subsystem a hierarchy name stands for, if any. */
  function ByName(name: string): (r: Option<Subsystem>)
    ensures r.Some? ==> Name(r.value) == name
  {
    if name == "cpu" then Some(Cpu)
    else if name == "cpuset" then Some(Cpuset)
    else if name == "memory" then Some(Memory)
    else None
  }

  /** Every subsystem is in the registry exactly once and is found again by its name. */
  lemma RegistryComplete(s: Subsystem)
    ensures ByName(Name(s)) == Some(s)
    ensures s in Subsystems
    ensures forall i, j :: 0 <= i < j < |Subsystems| ==> Subsystems[i] != Subsystems[j]
  {
  }

  /** The limit file each subsystem's `Set` writes, and the configuration field it writes there. */
  function LimitFile(s: Subsystem): string
  {
    match s
      case Cpu => "cpu.shares"
      case Cpuset => "cpuset.cpus"
      case Memory => "memory.limit_in_bytes"
  }

  function LimitValue(s: Subsystem, res: ResourceConfig): string
  {
    match s
      case Cpu => res.cpuShares
      case Cpuset => res.cpuset
      case Memory => res.memoryLimit
  }

  /** Each limit file belongs to its own subsystem's hierarchy: its name starts with the subsystem's name and a dot. */
  lemma LimitFileOfSubsystem(s: Subsystem)
    ensures |LimitFile(s)| > |Name(s)| && LimitFile(s)[..|Name(s)|] == Name(s) && LimitFile(s)[|Name(s)|] == '.'
  {
  }

  /** Changing one subsystem's field of the configuration leaves what the other subsystems write unchanged. */
  lemma LimitValueFrame(s: Subsystem, res: ResourceConfig, v: string)
    ensures LimitValue(s, res.(cpuShares := v)) == if s == Cpu then v else LimitValue(s, res)
    ensures LimitValue(s, res.(cpuset := v)) == if s == Cpuset then v else LimitValue(s, res)
    ensures LimitValue(s, res.(memoryLimit := v)) == if s == Memory then v else LimitValue(s, res)
  {
  }

  // ---------------------------------------------------------------------
  // As written: the base type's name panics

  /** `SubsystemBase.Name`. */
  function BaseName(): Exit<string>
  {
    Panicked(NotImplemented)
  }

  /** `SubsystemBase.set` as written: nothing to do for an empty value, a panic otherwise. */
  function SetAsWritten(w: World, val: string): (r: Exit<(Option<Failure>, World)>)
  {
    if |val| == 0 then Returned((None, w))
    else
      match BaseName()
        case Panicked(m) => Panicked(m)
        case Returned(_) => Returned((None, w))
  }

  /** `SubsystemBase.Apply` as written. */
  function ApplyAsWritten(w: World): (r: Exit<Option<Failure>>)
  {
    match BaseName()
      case Panicked(m) => Panicked(m)
      case Returned(_) => Returned(None)
  }

  /** `SubsystemBase.Remove` as written. */
  function RemoveAsWritten(w: World): (r: Exit<Option<Failure>>)
  {
    match BaseName()
      case Panicked(m) => Panicked(m)
      case Returned(_) => Returned(None)
  }

  /**
   * Every path past the empty-value check panics before touching the
   * cgroup: a non-empty limit can never be set, and no process can ever be
   * added to or removed from a cgroup.
   */
  lemma AsWrittenPanics(w: World, val: string)
    ensures SetAsWritten(w, val) == if val == "" then Returned((None, w)) else Panicked(NotImplemented)
    ensures ApplyAsWritten(w) == Panicked(NotImplemented)
    ensures RemoveAsWritten(w) == Panicked(NotImplemented)
  {
  }

  // ---------------------------------------------------------------------
  // As evidently intended: the concrete subsystem's name

  /** Where a cgroup of the subsystem's hierarchy is, creating it when asked to. */
  function CgroupDir(env: Env, w: World, mountinfo: Option<seq<string>>, s: Subsystem, path: Path, autoCreate: bool)
    : Exit<(Result<Path, Failure>, World)>
  {
    GetCgroupPathSpec(env, w, mountinfo, Name(s), path, autoCreate)
  }

  /** Writing `text` into the file `name` of a resolved cgroup directory. */
  function WriteInto(env: Env, dir: Exit<(Result<Path, Failure>, World)>, name: string, text: string)
    : (r: Exit<(Option<Failure>, World)>)
    ensures dir.Panicked? ==> r == Panicked(dir.message)
    ensures dir.Returned? && dir.value.0.Err? ==> r == Returned((Some(dir.value.0.error), dir.value.1))
    ensures dir.Returned? && dir.value.0.Ok? ==>
      r.Returned? && r.value == Tried(env, dir.value.1, [WriteFile(PathJoin(dir.value.0.value, name), Other(text))])
  {
    match dir
      case Panicked(m) => Panicked(m)
      case Returned((Err(e), w1)) => Returned((Some(e), w1))
      case Returned((Ok(d), w1)) => Returned(Tried(env, w1, [WriteFile(PathJoin(d, name), Other(text))]))
  }

  /** `set(path, key, val)` with the subsystem's own name: the cgroup is created if missing. */
  function SetSpec(env: Env, w: World, mountinfo: Option<seq<string>>, s: Subsystem, path: Path, key: string, val: string)
    : (r: Exit<(Option<Failure>, World)>)
    ensures val == "" ==> r == Returned((None, w))
  {
    if |val| == 0 then Returned((None, w))
    else WriteInto(env, CgroupDir(env, w, mountinfo, s, path, true), key, val)
  }

  /** The subsystem's `Set`: its own limit file, from its own field of the configuration. */
  function SetLimit(env: Env, w: World, mountinfo: Option<seq<string>>, s: Subsystem, path: Path, res: ResourceConfig)
    : (r: Exit<(Option<Failure>, World)>)
  {
    SetSpec(env, w, mountinfo, s, path, LimitFile(s), LimitValue(s, res))
  }

  /** `Apply`: the decimal pid written into the cgroup's "tasks" file; the cgroup must exist. */
  function ApplySpec(env: Env, w: World, mountinfo: Option<seq<string>>, s: Subsystem, path: Path, pid: int)
    : (r: Exit<(Option<Failure>, World)>)
  {
    WriteInto(env, CgroupDir(env, w, mountinfo, s, path, false), "tasks", IntToString(pid))
  }

  /** `Remove`: the cgroup directory removed; it must exist. */
  function RemoveSpec(env: Env, w: World, mountinfo: Option<seq<string>>, s: Subsystem, path: Path)
    : (r: Exit<(Option<Failure>, World)>)
  {
    match CgroupDir(env, w, mountinfo, s, path, false)
      case Panicked(m) => Panicked(m)
      case Returned((Err(e), w1)) => Returned((Some(e), w1))
      case Returned((Ok(d), w1)) => Returned(Tried(env, w1, [RemoveAll(d)]))
  }

  /**
   * A successful `Set` of a value leaves exactly that value in the
   * subsystem's limit file below the cgroup's directory in the subsystem's
   * own hierarchy, and changes no other file.
   */
  lemma SetWritesLimit(env: Env, w: World, mountinfo: Option<seq<string>>, s: Subsystem, path: Path, res: ResourceConfig)
    requires LimitValue(s, res) != ""
    requires var r := SetLimit(env, w, mountinfo, s, path, res); r.Returned? && r.value.0.None?
    ensures var root := FindCgroupMountPoint(mountinfo, Name(s));
      var dir := PathJoin(root.value, path);
      var w' := SetLimit(env, w, mountinfo, s, path, res).value.1;
      && root.Returned?
      && w'.files == w.files[PathJoin(dir, LimitFile(s)) := Other(LimitValue(s, res))]
  {
    var root := FindCgroupMountPoint(mountinfo, Name(s));
    var dir := PathJoin(root.value, path);
    var cd := CgroupDir(env, w, mountinfo, s, path, true);
    SetLimitWrites(env, w, mountinfo, s, path, res);
    CgroupDirKeepsFiles(env, w, mountinfo, s, path, true);
    TriedWrite(env, cd.value.1, PathJoin(dir, LimitFile(s)), Other(LimitValue(s, res)));
  }

  lemma SetLimitWrites(env: Env, w: World, mountinfo: Option<seq<string>>, s: Subsystem, path: Path, res: ResourceConfig)
    requires LimitValue(s, res) != ""
    requires var r := SetLimit(env, w, mountinfo, s, path, res); r.Returned? && r.value.0.None?
    ensures var cd := CgroupDir(env, w, mountinfo, s, path, true);
      && cd.Returned? && cd.value.0.Ok?
      && SetLimit(env, w, mountinfo, s, path, res).value
         == Tried(env, cd.value.1, [WriteFile(PathJoin(cd.value.0.value, LimitFile(s)), Other(LimitValue(s, res)))])
  {
  }

  lemma CgroupDirKeepsFiles(env: Env, w: World, mountinfo: Option<seq<string>>, s: Subsystem, path: Path, autoCreate: bool)
    ensures var cd := CgroupDir(env, w, mountinfo, s, path, autoCreate);
      cd.Returned? ==>
        (cd.value.1.files == w.files
         && (cd.value.0.Ok? ==> cd.value.0.value == PathJoin(FindCgroupMountPoint(mountinfo, Name(s)).value, path)))
  {
  }

  /**
   * `Apply` and `Remove` do not create the cgroup: when its directory is
   * missing they fail, naming it, and change nothing; `Set` with a value
   * creates it instead.
   */
  lemma MissingCgroup(env: Env, w: World, mountinfo: Option<seq<string>>, s: Subsystem, path: Path, pid: int)
    requires FindCgroupMountPoint(mountinfo, Name(s)).Returned?
    requires StatOf(env, w, PathJoin(FindCgroupMountPoint(mountinfo, Name(s)).value, path)) == NotExist
    ensures var dir := PathJoin(FindCgroupMountPoint(mountinfo, Name(s)).value, path);
      && ApplySpec(env, w, mountinfo, s, path, pid) == Returned((Some(StatFailure(dir)), w))
      && RemoveSpec(env, w, mountinfo, s, path) == Returned((Some(StatFailure(dir)), w))
  {
  }

  /** What `Apply` writes reads back as the pid. */
  lemma ApplyWritesPid(env: Env, w: World, mountinfo: Option<seq<string>>, s: Subsystem, path: Path, pid: int)
    requires var r := ApplySpec(env, w, mountinfo, s, path, pid); r.Returned? && r.value.0.None?
    ensures var dir := PathJoin(FindCgroupMountPoint(mountinfo, Name(s)).value, path);
      var w' := ApplySpec(env, w, mountinfo, s, path, pid).value.1;
      && PathJoin(dir, "tasks") in w'.files
      && w'.files[PathJoin(dir, "tasks")].Other?
      && ParseInt(w'.files[PathJoin(dir, "tasks")].text) == Some(pid)
  {
    var dir := PathJoin(FindCgroupMountPoint(mountinfo, Name(s)).value, path);
    var cd := CgroupDir(env, w, mountinfo, s, path, false);
    ApplyWrites(env, w, mountinfo, s, path, pid);
    CgroupDirKeepsFiles(env, w, mountinfo, s, path, false);
    TriedWrite(env, cd.value.1, PathJoin(dir, "tasks"), Other(IntToString(pid)));
    IntToStringRoundTrip(pid);
  }

  /**
   * `Remove` of an existing cgroup, found through the subsystem's own name:
   * it removes the cgroup's directory and everything below it, and nothing
   * else; it fails only when the removal itself is refused.
   */
  lemma RemoveDeletesCgroup(env: Env, w: World, mountinfo: Option<seq<string>>, s: Subsystem, path: Path)
    requires FindCgroupMountPoint(mountinfo, Name(s)).Returned?
    requires StatOf(env, w, PathJoin(FindCgroupMountPoint(mountinfo, Name(s)).value, path)) == Found
    ensures var dir := PathJoin(FindCgroupMountPoint(mountinfo, Name(s)).value, path);
      var r := RemoveSpec(env, w, mountinfo, s, path);
      && r.Returned?
      && r.value.1.trace == w.trace + [RemoveAll(dir)]
      && (r.value.0.None? <==> RemoveAll(dir) !in env.faults)
      && (r.value.0.Some? ==> r.value == (Some(EffectFailure(RemoveAll(dir))), w.(trace := r.value.1.trace)))
      && (r.value.0.None? ==>
            && (forall q :: q in r.value.1.dirs <==> q in w.dirs && !Below(q, dir))
            && (forall q :: q in r.value.1.files <==> q in w.files && !Below(q, dir))
            && (forall q :: q in r.value.1.files ==> r.value.1.files[q] == w.files[q])
            && r.value.1.mounts == w.mounts
            && r.value.1.root == w.root && r.value.1.cwd == w.cwd)
  {
    var dir := PathJoin(FindCgroupMountPoint(mountinfo, Name(s)).value, path);
    RunOne(env, w, RemoveAll(dir));
  }

  lemma ApplyWrites(env: Env, w: World, mountinfo: Option<seq<string>>, s: Subsystem, path: Path, pid: int)
    requires var r := ApplySpec(env, w, mountinfo, s, path, pid); r.Returned? && r.value.0.None?
    ensures var cd := CgroupDir(env, w, mountinfo, s, path, false);
      && cd.Returned? && cd.value.0.Ok?
      && ApplySpec(env, w, mountinfo, s, path, pid).value
         == Tried(env, cd.value.1, [WriteFile(PathJoin(cd.value.0.value, "tasks"), Other(IntToString(pid)))])
  {
  }

  // ---------------------------------------------------------------------
  // The calls themselves (as evidently intended)

  method CgroupDirOf(h: Host, mountinfo: Option<seq<string>>, s: Subsystem, path: Path, autoCreate: bool)
    returns (r: Exit<Result<Path, Failure>>)
    modifies h
    ensures var spec := CgroupDir(h.env, old(h.world), mountinfo, s, path, autoCreate);
      && (r.Panicked? <==> spec.Panicked?)
      && (r.Panicked? ==> r.message == spec.message && h.world == old(h.world))
      && (r.Returned? ==> (r.value, h.world) == spec.value)
  {
    r := GetCgroupPath(h, mountinfo, Name(s), path, autoCreate);
  }

  method Set(h: Host, mountinfo: Option<seq<string>>, s: Subsystem, path: Path, res: ResourceConfig)
    returns (r: Exit<Option<Failure>>)
    modifies h
    ensures var spec := SetLimit(h.env, old(h.world), mountinfo, s, path, res);
      && (r.Panicked? <==> spec.Panicked?)
      && (r.Panicked? ==> r.message == spec.message)
      && (r.Returned? ==> (r.value, h.world) == spec.value)
  {
    var val := LimitValue(s, res);
    if |val| == 0 {
      return Returned(None);
    }
    var dir := CgroupDirOf(h, mountinfo, s, path, true);
    if dir.Panicked? {
      return Panicked(dir.message);
    }
    if dir.value.Err? {
      return Returned(Some(dir.value.error));
    }
    var e := h.Try([WriteFile(PathJoin(dir.value.value, LimitFile(s)), Other(val))]);
    return Returned(e);
  }

  method Apply(h: Host, mountinfo: Option<seq<string>>, s: Subsystem, path: Path, pid: int)
    returns (r: Exit<Option<Failure>>)
    modifies h
    ensures var spec := ApplySpec(h.env, old(h.world), mountinfo, s, path, pid);
      && (r.Panicked? <==> spec.Panicked?)
      && (r.Panicked? ==> r.message == spec.message)
      && (r.Returned? ==> (r.value, h.world) == spec.value)
  {
    var dir := CgroupDirOf(h, mountinfo, s, path, false);
    if dir.Panicked? {
      return Panicked(dir.message);
    }
    if dir.value.Err? {
      return Returned(Some(dir.value.error));
    }
    var e := h.Try([WriteFile(PathJoin(dir.value.value, "tasks"), Other(IntToString(pid)))]);
    return Returned(e);
  }

  method Remove(h: Host, mountinfo: Option<seq<string>>, s: Subsystem, path: Path)
    returns (r: Exit<Option<Failure>>)
    modifies h
    ensures var spec := RemoveSpec(h.env, old(h.world), mountinfo, s, path);
      && (r.Panicked? <==> spec.Panicked?)
      && (r.Panicked? ==> r.message == spec.message)
      && (r.Returned? ==> (r.value, h.world) == spec.value)
  {
    var dir := CgroupDirOf(h, mountinfo, s, path, false);
    if dir.Panicked? {
      return Panicked(dir.message);
    }
    if dir.value.Err? {
      return Returned(Some(dir.value.error));
    }
    var e := h.Try([RemoveAll(dir.value.value)]);
    return Returned(e);
  }
}
