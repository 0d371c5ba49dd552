/**
 * The container's workspace: an overlay root assembled from a read-only
 * layer (the extracted image), a per-container write layer and overlay work
 * directory, mounted at the container's mount point, plus an optional data
 * volume bind-mounted below it; and the teardown of all of this.
 */
module Workspace {
  import opened Wrappers
  import opened Strings
  import opened HostOs

  const MntDirPath: Path := "/root/mnt"
  const WriteLayerDirPath: Path := "/root/wirte_layer"

  /** Where image archives live; its value is not part of this model. */
  const ImageDirPath: Path
  /** Where images are extracted; its value is not part of this model. */
  const ReadOnlyLayerDirPath: Path
  /** Where the overlay work directories live; its value is not part of this model. */
  const OverlayWorkDirPath: Path

  /** `os.PathListSeparator` on Linux. */
  const PathListSeparator: char := ':'

  // ---------------------------------------------------------------------
  // The volume mapping "hostDir:containerDir"

  datatype MappingError = InvalidMapping(mapping: string)

  /**
   * `parseVolumeMapping`: a blank mapping means no volume; otherwise it must
   * be exactly two non-empty parts around one ':' (the parts are not trimmed).
   */
  function ParseVolumeMapping(mapping: string): (r: Result<(string, string), MappingError>)
    ensures TrimSpace(mapping) == "" ==> r == Ok(("", ""))
    ensures r.Ok? && TrimSpace(mapping) != "" ==>
      && r.value.0 != "" && r.value.1 != ""
      && PathListSeparator !in r.value.0 && PathListSeparator !in r.value.1
      && mapping == r.value.0 + [PathListSeparator] + r.value.1
    ensures r.Err? ==> r.error == InvalidMapping(mapping)
  {
    if TrimSpace(mapping) == "" then Ok(("", ""))
    else
      var volumes := Split(mapping, PathListSeparator);
      JoinSplit(mapping, PathListSeparator);
      if |volumes| != 2 || volumes[0] == "" || volumes[1] == "" then Err(InvalidMapping(mapping))
      else Ok((volumes[0], volumes[1]))
  }

  /** Every "a:b" with non-empty, colon-free parts parses back into its parts. */
  lemma ParseVolumeRoundTrip(a: string, b: string)
    requires a != "" && b != ""
    requires PathListSeparator !in a && PathListSeparator !in b
    ensures ParseVolumeMapping(a + [PathListSeparator] + b) == Ok((a, b))
  {
    var m := a + [PathListSeparator] + b;
    assert m[|a|] == PathListSeparator && !IsSpace(m[|a|]);
    TrimSpaceEmpty(m);
    assert Join([a, b], PathListSeparator) == m;
    SplitJoin([a, b], PathListSeparator);
  }

  /** Whether a parsed mapping asks for a volume: both parts are non-empty. */
  predicate HasVolume(mapping: string)
  {
    var r := ParseVolumeMapping(mapping);
    r.Ok? && r.value.0 != "" && r.value.1 != ""
  }

  // ---------------------------------------------------------------------
  // Paths and the calls each step makes

  function ImagePath(image: string): Path
  {
    PathJoin(ImageDirPath, image + ".tar")
  }

  function UntarDir(image: string): Path
  {
    PathJoin(ReadOnlyLayerDirPath, image)
  }

  function WriteLayerPath(name: string): Path
  {
    PathJoin(WriteLayerDirPath, name)
  }

  function MountPath(name: string): Path
  {
    PathJoin(MntDirPath, name)
  }

  function WorkDirPath(name: string): Path
  {
    PathJoin(OverlayWorkDirPath, name)
  }

  /** Where the container side of a volume is mounted: below the mount point. */
  function VolumePath(name: string, containerVolume: string): Path
  {
    PathJoin(MountPath(name), containerVolume)
  }

  /** The overlay mount data. */
  function OverlayOptions(name: string, image: string): string
  {
    "upperdir=" + WriteLayerPath(name) + ",lowerdir=" + UntarDir(image) + ",workdir=" + WorkDirPath(name)
  }

  function ExtractPlan(image: string): seq<Effect>
  {
    [MkdirAll(UntarDir(image)), Untar(ImagePath(image), UntarDir(image))]
  }

  function WriteLayerPlan(name: string): seq<Effect>
  {
    [MkdirAll(WriteLayerPath(name))]
  }

  function MountPointPlan(name: string, image: string): seq<Effect>
  {
    [MkdirAll(MountPath(name)), MkdirAll(WorkDirPath(name)),
     Mount(MountPath(name), MountPath(name), "overlay", {}, OverlayOptions(name, image))]
  }

  function VolumePlan(parent: Path, containerVolume: Path, name: string): seq<Effect>
  {
    [MkdirAll(parent), MkdirAll(VolumePath(name, containerVolume)),
     Mount(parent, VolumePath(name, containerVolume), "", {Bind, Rec}, "")]
  }

  function DeleteMountPointPlan(name: string): seq<Effect>
  {
    [Unmount(MountPath(name), false), RemoveAll(MountPath(name)), RemoveAll(WorkDirPath(name))]
  }

  // ---------------------------------------------------------------------
  // The steps

  /**
   * `createReadOnlyLayer`: the image archive must exist; an image already
   * extracted is left alone; otherwise create the directory and extract.
   */
  function CreateReadOnlyLayerSpec(env: Env, w: World, image: string): (r: (Option<Failure>, World))
    ensures StatOf(env, w, ImagePath(image)) != Found ==> r == (Some(StatFailure(ImagePath(image))), w)
    ensures StatOf(env, w, ImagePath(image)) == Found && StatOf(env, w, UntarDir(image)) == Found ==> r == (None, w)
  {
    if StatOf(env, w, ImagePath(image)) != Found then (Some(StatFailure(ImagePath(image))), w)
    else
      match StatOf(env, w, UntarDir(image))
        case Found => (None, w)
        case StatFailed => (Some(StatFailure(UntarDir(image))), w)
        case NotExist => Tried(env, w, ExtractPlan(image))
  }

  function CreateWriteLayerSpec(env: Env, w: World, name: string): (r: (Option<Failure>, World))
  {
    Tried(env, w, WriteLayerPlan(name))
  }

  function CreateMountPointSpec(env: Env, w: World, name: string, image: string): (r: (Option<Failure>, World))
  {
    Tried(env, w, MountPointPlan(name, image))
  }

  function MountVolumeSpec(env: Env, w: World, parent: Path, containerVolume: Path, name: string): (r: (Option<Failure>, World))
  {
    Tried(env, w, VolumePlan(parent, containerVolume, name))
  }

  datatype WorkspaceError =
    | ReadOnlyLayerFailed(cause: Failure)
    | WriteLayerFailed(cause: Failure)
    | MountPointFailed(cause: Failure)
    | VolumeRemovalFailed(cause: Failure)
    | MountPointRemovalFailed(cause: Failure)
    | WriteLayerRemovalFailed(cause: Failure)

  /**
   * `NewWorkspace`: the three layers in order, stopping at the first
   * failure; then the volume, whose parse and mount errors are only logged.
   */
  function NewWorkspaceSpec(env: Env, w: World, mapping: string, image: string, name: string): (r: (Option<WorkspaceError>, World))
    ensures StatOf(env, w, ImagePath(image)) != Found ==> r == (Some(ReadOnlyLayerFailed(StatFailure(ImagePath(image)))), w)
    ensures r.0.Some? ==> r.0.value.ReadOnlyLayerFailed? || r.0.value.WriteLayerFailed? || r.0.value.MountPointFailed?
  {
    var (e1, w1) := CreateReadOnlyLayerSpec(env, w, image);
    if e1.Some? then (Some(ReadOnlyLayerFailed(e1.value)), w1)
    else
      var (e2, w2) := CreateWriteLayerSpec(env, w1, name);
      if e2.Some? then (Some(WriteLayerFailed(e2.value)), w2)
      else
        var (e3, w3) := CreateMountPointSpec(env, w2, name, image);
        if e3.Some? then (Some(MountPointFailed(e3.value)), w3)
        else if HasVolume(mapping) then
          var (parent, containerVolume) := ParseVolumeMapping(mapping).value;
          (None, MountVolumeSpec(env, w3, parent, containerVolume, name).1)
        else (None, w3)
  }

  function DeleteVolumeSpec(env: Env, w: World, containerVolume: Path, name: string): (r: (Option<Failure>, World))
  {
    Tried(env, w, [Unmount(VolumePath(name, containerVolume), false)])
  }

  function DeleteMountPointSpec(env: Env, w: World, name: string): (r: (Option<Failure>, World))
  {
    Tried(env, w, DeleteMountPointPlan(name))
  }

  function DeleteWriteLayerSpec(env: Env, w: World, name: string): (r: (Option<Failure>, World))
  {
    Tried(env, w, [RemoveAll(WriteLayerPath(name))])
  }

  /** `DeleteWorkspace`'s first step: the volume's unmount, when the mapping names one. */
  function DeleteVolumeIfAnySpec(env: Env, w: World, mapping: string, name: string): (r: (Option<Failure>, World))
  {
    if HasVolume(mapping) then DeleteVolumeSpec(env, w, ParseVolumeMapping(mapping).value.1, name)
    else (None, w)
  }

  /** The unmount of the volume `DeleteWorkspace` attempts first, if the mapping names one. */
  function VolumeUnmounts(mapping: string, name: string): seq<Effect>
  {
    if HasVolume(mapping) then [Unmount(VolumePath(name, ParseVolumeMapping(mapping).value.1), false)] else []
  }

  /**
   * `DeleteWorkspace`: every step runs whatever happened before it, and the
   * error reported is the one of the last step that failed.
   */
  function DeleteWorkspaceSpec(env: Env, w: World, mapping: string, name: string): (r: (Option<WorkspaceError>, World))
  {
    var (e1, w1) := DeleteVolumeIfAnySpec(env, w, mapping, name);
    var (e2, w2) := DeleteMountPointSpec(env, w1, name);
    var (e3, w3) := DeleteWriteLayerSpec(env, w2, name);
    var err :=
      if e3.Some? then Some(WriteLayerRemovalFailed(e3.value))
      else if e2.Some? then Some(MountPointRemovalFailed(e2.value))
      else if e1.Some? then Some(VolumeRemovalFailed(e1.value))
      else None;
    (err, w3)
  }

  // ---------------------------------------------------------------------
  // Properties

  /** The calls of the three layers, for an image not yet extracted or already extracted. */
  function LayerPlan(env: Env, w: World, image: string, name: string): seq<Effect>
  {
    (if StatOf(env, w, UntarDir(image)) == Found then [] else ExtractPlan(image))
      + WriteLayerPlan(name) + MountPointPlan(name, image)
  }

  /**
   * Once the archive and the extraction directory can be examined,
   * `NewWorkspace` is one short-circuit run of the layer calls, in order,
   * followed by the volume calls only when every layer succeeded and the
   * mapping names a volume; it fails exactly when a layer call fails.
   */
  lemma NewWorkspaceIsOneRun(env: Env, w: World, mapping: string, image: string, name: string)
    requires StatOf(env, w, ImagePath(image)) == Found && StatOf(env, w, UntarDir(image)) != StatFailed
    ensures var core := Run(env, w, LayerPlan(env, w, image, name));
      var out := NewWorkspaceSpec(env, w, mapping, image, name);
      && (out.0.None? <==> core.failed.None?)
      && out.1 == if core.failed.None? && HasVolume(mapping)
                  then Run(env, core.world, VolumePlan(ParseVolumeMapping(mapping).value.0, ParseVolumeMapping(mapping).value.1, name)).world
                  else core.world
  {
    var ro := if StatOf(env, w, UntarDir(image)) == Found then [] else ExtractPlan(image);
    var wl, mp := WriteLayerPlan(name), MountPointPlan(name, image);
    assert LayerPlan(env, w, image, name) == ro + wl + mp;
    RunAppend(env, w, ro, wl);
    RunAppend(env, w, ro + wl, mp);
    if ro == [] {
      assert ro + wl == wl;
    }
  }

  /** An image already extracted is not extracted again: a second call changes nothing. */
  lemma CreateReadOnlyLayerIdempotent(env: Env, w: World, image: string)
    requires CreateReadOnlyLayerSpec(env, w, image).0.None?
    ensures var w1 := CreateReadOnlyLayerSpec(env, w, image).1;
      CreateReadOnlyLayerSpec(env, w1, image) == (None, w1)
  {
    var w1 := CreateReadOnlyLayerSpec(env, w, image).1;
    if StatOf(env, w, UntarDir(image)) == NotExist {
      var d := UntarDir(image);
      ExtractGrows(env, w, image);
      assert !UnderFile(w1, d) && !UnderFile(w1, ImagePath(image));
    }
  }

  /** A successful extraction keeps every file and directory and adds the extraction directory. */
  lemma ExtractGrows(env: Env, w: World, image: string)
    requires Tried(env, w, ExtractPlan(image)).0.None?
    ensures var w1 := Tried(env, w, ExtractPlan(image)).1;
      w1.files == w.files && w.dirs <= w1.dirs && UntarDir(image) in w1.dirs
  {
    var d := UntarDir(image);
    RunTwo(env, w, MkdirAll(d), Untar(ImagePath(image), d));
    RunOne(env, Step(env, w, MkdirAll(d)), Untar(ImagePath(image), d));
  }

  /** Container names are single path elements. */
  predicate ValidName(name: string)
  {
    name != "" && '/' !in name
  }

  /**
   * Whether the volume step of `DeleteWorkspace` succeeds: the mapping names
   * no volume, or the volume's plain unmount goes through (it is mounted and
   * nothing else is mounted below it).
   */
  predicate VolumeReleased(env: Env, w: World, mapping: string, name: string)
  {
    HasVolume(mapping) ==>
      var vp := VolumePath(name, ParseVolumeMapping(mapping).value.1);
      Unmount(vp, false) !in env.faults && vp in w.mounts && !Busy(w.mounts, vp)
  }

  /** The mounts that remain once the volume step of `DeleteWorkspace` has run. */
  function MountsLeft(env: Env, w: World, mapping: string, name: string): map<Path, Effect>
  {
    if HasVolume(mapping) && VolumeReleased(env, w, mapping, name)
    then w.mounts - {VolumePath(name, ParseVolumeMapping(mapping).value.1)}
    else w.mounts
  }

  /** Whether the plain unmount of the mount point goes through when `mounts` are mounted. */
  predicate MountPointUnmounts(env: Env, mounts: map<Path, Effect>, name: string)
  {
    Unmount(MountPath(name), false) !in env.faults && MountPath(name) in mounts && !Busy(mounts, MountPath(name))
  }

  /** `deleteVolume` attempts its one unmount, which takes away that mount and no other. */
  lemma DeleteVolumeRun(env: Env, w: World, containerVolume: Path, name: string)
    requires ValidName(name) && containerVolume != ""
    ensures var vp := VolumePath(name, containerVolume);
      var r := DeleteVolumeSpec(env, w, containerVolume, name);
      && r.1.trace == w.trace + [Unmount(vp, false)]
      && (r.0.None? <==> Unmount(vp, false) !in env.faults && vp in w.mounts && !Busy(w.mounts, vp))
      && r.1.mounts == (if r.0.None? then w.mounts - {vp} else w.mounts)
      && (MountPath(name) in r.1.mounts <==> MountPath(name) in w.mounts)
  {
    PlainUnmount(env, w, VolumePath(name, containerVolume));
    VolumeBelowMountPoint(name, containerVolume);
  }

  /** A plain unmount, attempted alone, takes away its target's mount and nothing else, or fails. */
  lemma PlainUnmount(env: Env, w: World, t: Path)
    ensures var r := Tried(env, w, [Unmount(t, false)]);
      && r.1.trace == w.trace + [Unmount(t, false)]
      && (r.0.None? <==> Unmount(t, false) !in env.faults && t in w.mounts && !Busy(w.mounts, t))
      && r.1.mounts == (if r.0.None? then w.mounts - {t} else w.mounts)
  {
    RunOne(env, w, Unmount(t, false));
  }

  /** The volume's unmount, if any, attempts only that call and leaves `MountsLeft` mounted. */
  lemma DeleteVolumeIfAnyRun(env: Env, w: World, mapping: string, name: string)
    requires ValidName(name)
    ensures var r := DeleteVolumeIfAnySpec(env, w, mapping, name);
      && r.1.trace == w.trace + VolumeUnmounts(mapping, name)
      && (r.0.None? <==> VolumeReleased(env, w, mapping, name))
      && r.1.mounts == MountsLeft(env, w, mapping, name)
  {
    if HasVolume(mapping) {
      DeleteVolumeRun(env, w, ParseVolumeMapping(mapping).value.1, name);
    }
  }

  /**
   * The calls `DeleteWorkspace` attempts: the volume unmount (if any), then
   * the mount point's unmount and, only if that succeeded, the removal of
   * the mount point and then of the work directory, and last, always, the
   * removal of the write layer.
   */
  lemma DeleteWorkspaceTrace(env: Env, w: World, mapping: string, name: string)
    requires ValidName(name)
    ensures var mp := MountPath(name);
      var k := if !MountPointUnmounts(env, MountsLeft(env, w, mapping, name), name) then 1
               else if RemoveAll(mp) in env.faults then 2 else 3;
      DeleteWorkspaceSpec(env, w, mapping, name).1.trace ==
        w.trace + VolumeUnmounts(mapping, name) + DeleteMountPointPlan(name)[..k] + [RemoveAll(WriteLayerPath(name))]
  {
    DeleteVolumeIfAnyRun(env, w, mapping, name);
    var w1 := DeleteVolumeIfAnySpec(env, w, mapping, name).1;
    DeleteMountPointRun(env, w1, name);
    var w2 := DeleteMountPointSpec(env, w1, name).1;
    WriteLayerRun(env, w2, name);
  }

  /** The volume's mount target lies strictly below the mount point. */
  lemma VolumeBelowMountPoint(name: string, containerVolume: Path)
    requires ValidName(name) && containerVolume != ""
    ensures VolumePath(name, containerVolume) != MountPath(name)
    ensures Below(VolumePath(name, containerVolume), MountPath(name))
  {
    assert MountPath(name) == MntDirPath + "/" + TrimLeadingSlashes(name);
    assert TrimTrailingSlashes(MountPath(name)) == MountPath(name);
  }

  /** `deleteMountPoint` stops at the first failing call. */
  lemma DeleteMountPointRun(env: Env, w: World, name: string)
    ensures var mp := MountPath(name);
      var k := if !MountPointUnmounts(env, w.mounts, name) then 1
               else if RemoveAll(mp) in env.faults then 2 else 3;
      var r := DeleteMountPointSpec(env, w, name);
      && r.1.trace == w.trace + DeleteMountPointPlan(name)[..k]
      && (r.0.None? <==> k == 3 && RemoveAll(WorkDirPath(name)) !in env.faults)
  {
    var plan := DeleteMountPointPlan(name);
    RunTrace(env, w, plan);
    var mp := MountPath(name);
    if Succeeds(env, w, plan[0]) {
      var w1 := Step(env, w, plan[0]);
      assert plan[1..][0] == RemoveAll(mp);
      if Succeeds(env, w1, plan[1]) {
        assert plan[1..][1..] == [RemoveAll(WorkDirPath(name))];
        RunOne(env, Step(env, w1, plan[1]), RemoveAll(WorkDirPath(name)));
      }
    }
  }

  /**
   * The error `DeleteWorkspace` returns is the one of the last failing step,
   * and it returns none exactly when every step succeeded.
   */
  lemma DeleteWorkspaceLastError(env: Env, w: World, mapping: string, name: string)
    requires ValidName(name)
    ensures var mp := MountPath(name);
      var volumeOk := VolumeReleased(env, w, mapping, name);
      var mountPointOk := MountPointUnmounts(env, MountsLeft(env, w, mapping, name), name)
        && RemoveAll(mp) !in env.faults && RemoveAll(WorkDirPath(name)) !in env.faults;
      var writeLayerOk := RemoveAll(WriteLayerPath(name)) !in env.faults;
      var err := DeleteWorkspaceSpec(env, w, mapping, name).0;
      && (err.None? <==> volumeOk && mountPointOk && writeLayerOk)
      && (err.Some? && err.value.WriteLayerRemovalFailed? <==> !writeLayerOk)
      && (err.Some? && err.value.MountPointRemovalFailed? <==> writeLayerOk && !mountPointOk)
      && (err.Some? && err.value.VolumeRemovalFailed? <==> writeLayerOk && mountPointOk && !volumeOk)
  {
    DeleteVolumeIfAnyRun(env, w, mapping, name);
    var w1 := DeleteVolumeIfAnySpec(env, w, mapping, name).1;
    DeleteMountPointRun(env, w1, name);
    var w2 := DeleteMountPointSpec(env, w1, name).1;
    WriteLayerRun(env, w2, name);
  }

  /**
   * A volume that is still mounted keeps the mount point busy: when the
   * volume's unmount fails, the mount point's plain unmount is refused too,
   * the mount point is never removed (so nothing still bound to the volume
   * is deleted), both stay mounted, and the error
   * reported is the mount point's unless the write layer's removal fails.
   */
  lemma VolumeStillMountedKeepsMountPoint(env: Env, w: World, mapping: string, name: string)
    requires ValidName(name) && HasVolume(mapping)
    requires var vp := VolumePath(name, ParseVolumeMapping(mapping).value.1);
      vp in w.mounts && !VolumeReleased(env, w, mapping, name)
    ensures var vp := VolumePath(name, ParseVolumeMapping(mapping).value.1);
      var mp := MountPath(name);
      var r := DeleteWorkspaceSpec(env, w, mapping, name);
      && r.1.trace == w.trace + [Unmount(vp, false), Unmount(mp, false), RemoveAll(WriteLayerPath(name))]
      && RemoveAll(mp) !in r.1.trace[|w.trace|..]
      && vp in r.1.mounts && (mp in w.mounts ==> mp in r.1.mounts)
      && (RemoveAll(WriteLayerPath(name)) !in env.faults ==> r.0 == Some(MountPointRemovalFailed(EffectFailure(Unmount(mp, false)))))
  {
    var vp := VolumePath(name, ParseVolumeMapping(mapping).value.1);
    var mp := MountPath(name);
    BusyTeardown(env, w, mapping, name);
    MountPointNotWriteLayer(name);
    RemoveAllAfter(env, w, Unmount(vp, false), Unmount(mp, false), WriteLayerPath(name), DeleteWorkspaceSpec(env, w, mapping, name).1);
  }

  /**
   * Removing a tree after two recorded calls: the mounts are untouched, all
   * three calls are traced, and a different tree is not removed.
   */
  lemma RemoveAllAfter(env: Env, w: World, a: Effect, b: Effect, p: Path, w3: World)
    requires a.Unmount? && b.Unmount?
    requires w3 == Step(env, w.(trace := w.trace + [a, b]), RemoveAll(p))
    ensures w3.mounts == w.mounts
    ensures w3.trace == w.trace + [a, b, RemoveAll(p)]
    ensures forall q :: q != p ==> RemoveAll(q) !in w3.trace[|w.trace|..]
  {
    var w2 := w.(trace := w.trace + [a, b]);
    assert w2.trace + [RemoveAll(p)] == w.trace + [a, b, RemoveAll(p)];
    assert w3.trace[|w.trace|..] == [a, b, RemoveAll(p)];
  }

  /** What a teardown whose volume stays mounted returns, written out. */
  lemma BusyTeardown(env: Env, w: World, mapping: string, name: string)
    requires ValidName(name) && HasVolume(mapping)
    requires var vp := VolumePath(name, ParseVolumeMapping(mapping).value.1);
      vp in w.mounts && !VolumeReleased(env, w, mapping, name)
    ensures var vp := VolumePath(name, ParseVolumeMapping(mapping).value.1);
      var mp := MountPath(name);
      var wl := RemoveAll(WriteLayerPath(name));
      var w2 := w.(trace := w.trace + [Unmount(vp, false), Unmount(mp, false)]);
      DeleteWorkspaceSpec(env, w, mapping, name) ==
        (Some(if wl in env.faults then WriteLayerRemovalFailed(EffectFailure(wl))
              else MountPointRemovalFailed(EffectFailure(Unmount(mp, false)))),
         Step(env, w2, wl))
  {
    var vp := VolumePath(name, ParseVolumeMapping(mapping).value.1);
    var mp := MountPath(name);
    VolumeRefused(env, w, mapping, name);
    var w1 := w.(trace := w.trace + [Unmount(vp, false)]);
    VolumeKeepsMountPointBusy(w1.mounts, name, ParseVolumeMapping(mapping).value.1);
    MountPointRefused(env, w1, name);
    var w2 := w1.(trace := w1.trace + [Unmount(mp, false)]);
    AppendTwo(w.trace, Unmount(vp, false), Unmount(mp, false));
    WriteLayerRun(env, w2, name);
  }

  /** Recording two calls one after the other. */
  lemma AppendTwo(t: seq<Effect>, a: Effect, b: Effect)
    ensures t + [a] + [b] == t + [a, b]
  {
  }

  /** A mounted volume keeps its container's mount point busy. */
  lemma VolumeKeepsMountPointBusy(mounts: map<Path, Effect>, name: string, containerVolume: Path)
    requires ValidName(name) && containerVolume != ""
    requires VolumePath(name, containerVolume) in mounts
    ensures Busy(mounts, MountPath(name))
  {
    VolumeBelowMountPoint(name, containerVolume);
  }

  /** A volume unmount that does not go through fails at once and changes nothing. */
  lemma VolumeRefused(env: Env, w: World, mapping: string, name: string)
    requires HasVolume(mapping) && !VolumeReleased(env, w, mapping, name)
    ensures var vp := VolumePath(name, ParseVolumeMapping(mapping).value.1);
      DeleteVolumeIfAnySpec(env, w, mapping, name) ==
        (Some(EffectFailure(Unmount(vp, false))), w.(trace := w.trace + [Unmount(vp, false)]))
  {
    RunOne(env, w, Unmount(VolumePath(name, ParseVolumeMapping(mapping).value.1), false));
  }

  /** Removing the write layer fails exactly when the environment says so. */
  lemma WriteLayerRun(env: Env, w: World, name: string)
    ensures var wl := RemoveAll(WriteLayerPath(name));
      DeleteWriteLayerSpec(env, w, name) == (if wl in env.faults then Some(EffectFailure(wl)) else None, Step(env, w, wl))
  {
    RunOne(env, w, RemoveAll(WriteLayerPath(name)));
  }

  /** The mount point and the write layer are different directories. */
  lemma MountPointNotWriteLayer(name: string)
    requires ValidName(name)
    ensures MountPath(name) != WriteLayerPath(name)
  {
    assert TrimTrailingSlashes(MntDirPath) == MntDirPath;
    assert TrimTrailingSlashes(WriteLayerDirPath) == WriteLayerDirPath;
    var m := MntDirPath + "/" + TrimLeadingSlashes(name);
    var l := WriteLayerDirPath + "/" + TrimLeadingSlashes(name);
    assert m[6] == MntDirPath[6] == 'm';
    assert l[6] == WriteLayerDirPath[6] == 'w';
  }

  /** A refused unmount of the mount point ends `deleteMountPoint` at once, changing nothing. */
  lemma MountPointRefused(env: Env, w: World, name: string)
    requires !MountPointUnmounts(env, w.mounts, name)
    ensures DeleteMountPointSpec(env, w, name) ==
      (Some(EffectFailure(Unmount(MountPath(name), false))), w.(trace := w.trace + [Unmount(MountPath(name), false)]))
  {
    assert DeleteMountPointPlan(name)[0] == Unmount(MountPath(name), false);
  }

  // ---------------------------------------------------------------------
  // The calls themselves

  method CreateReadOnlyLayer(h: Host, image: string) returns (err: Option<Failure>)
    modifies h
    ensures (err, h.world) == CreateReadOnlyLayerSpec(h.env, old(h.world), image)
  {
    var st := h.Stat(ImagePath(image));
    if st != Found {
      return Some(StatFailure(ImagePath(image)));
    }
    st := h.Stat(UntarDir(image));
    if st == Found {
      return None;
    } else if st == StatFailed {
      return Some(StatFailure(UntarDir(image)));
    }
    err := h.Try(ExtractPlan(image));
  }

  method NewWorkspace(h: Host, mapping: string, image: string, name: string) returns (err: Option<WorkspaceError>)
    modifies h
    ensures (err, h.world) == NewWorkspaceSpec(h.env, old(h.world), mapping, image, name)
  {
    var e := CreateReadOnlyLayer(h, image);
    if e.Some? {
      return Some(ReadOnlyLayerFailed(e.value));
    }
    e := h.Try(WriteLayerPlan(name));
    if e.Some? {
      return Some(WriteLayerFailed(e.value));
    }
    e := h.Try(MountPointPlan(name, image));
    if e.Some? {
      return Some(MountPointFailed(e.value));
    }
    var volumes := ParseVolumeMapping(mapping);
    if volumes.Ok? && volumes.value.0 != "" && volumes.value.1 != "" {
      e := h.Try(VolumePlan(volumes.value.0, volumes.value.1, name));
    }
    return None;
  }

  method DeleteWorkspace(h: Host, mapping: string, name: string) returns (err: Option<WorkspaceError>)
    modifies h
    ensures (err, h.world) == DeleteWorkspaceSpec(h.env, old(h.world), mapping, name)
  {
    err := None;
    var volumes := ParseVolumeMapping(mapping);
    if volumes.Ok? && volumes.value.0 != "" && volumes.value.1 != "" {
      var e := h.Try([Unmount(VolumePath(name, volumes.value.1), false)]);
      if e.Some? {
        err := Some(VolumeRemovalFailed(e.value));
      }
    }
    var e := h.Try(DeleteMountPointPlan(name));
    if e.Some? {
      err := Some(MountPointRemovalFailed(e.value));
    }
    e := h.Try([RemoveAll(WriteLayerPath(name))]);
    if e.Some? {
      err := Some(WriteLayerRemovalFailed(e.value));
    }
  }
}
