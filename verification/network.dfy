/**
 * The network registry: the drivers by name, the networks by name, and
 * the persisted network records. Creating a network chains the driver
 * lookup, the gateway allocation, the driver's own creation, the record's
 * dump and the registration, stopping at the first failure.
 */
module Networks {
  import opened Wrappers
  import opened IPv4
  import opened Documents
  import opened HostOs
  import opened Ipam
  import opened Bridge

  /** Where the network records are kept. */
  const DefaultNetworkPath: Path := "/var/run/dicker/network/network"

  /** The drivers there are; the bridge is the only one. */
  datatype DriverKind = BridgeDriver

  /** `GetNetworkDriver`: nothing for an unknown name. */
  function GetNetworkDriver(drivers: map<string, DriverKind>, name: string): (r: Option<DriverKind>)
    ensures r.None? <==> name !in drivers
    ensures r.Some? ==> r.value == drivers[name]
  {
    if name in drivers then Some(drivers[name]) else None
  }

  /** `GetNetwork`: nothing for an unknown name. */
  function GetNetwork(networks: map<string, NetworkRecord>, name: string): (r: Option<NetworkRecord>)
    ensures r.None? <==> name !in networks
    ensures r.Some? ==> r.value == networks[name]
  {
    if name in networks then Some(networks[name]) else None
  }

  /** Everything `CreateNetwork` reads or changes. */
  datatype System = System(
    drivers: map<string, DriverKind>,
    networks: map<string, NetworkRecord>,
    table: Table,
    world: World,
    kernel: KernelState)

  datatype NetworkError =
    | InvalidDriver(name: string)
    | AllocFailed(allocError: IpamError)
    | DriverFailed(driverError: BridgeError)
    | DumpFailed(dumpError: Failure)

  /** The record's file, as the source names it: below the address manager's file. */
  function NetworkFileAsWritten(name: string): Path
  {
    PathJoin(DefaultAllocatorPath, name)
  }

  /** The record's file, in the directory `Init` walks. */
  function NetworkFile(name: string): Path
  {
    PathJoin(DefaultNetworkPath, name)
  }

  /**
   * `CreateNetwork`, with the address manager persisted at `allocPath` and
   * the record dumped to `file`. The first failure ends it; nothing done
   * before is undone (the gateway stays allocated, the bridge stays up).
   */
  function CreateSpec(env: Env, ke: KernelEnv, sys: System, driver: string, subnet: CidrInput, name: string,
                      allocPath: Path, file: Path): (r: (Option<NetworkError>, System))
    ensures driver !in sys.drivers ==> r == (Some(InvalidDriver(driver)), sys)
    ensures r.0.Some? ==> r.1.networks == sys.networks
  {
    if driver !in sys.drivers then (Some(InvalidDriver(driver)), sys)
    else
      var a := AllocSpec(env, sys.world, allocPath, sys.table, subnet);
      var sys1 := sys.(table := a.table, world := a.world);
      if a.result.Err? then (Some(AllocFailed(a.result.error)), sys1)
      else CreateAfterAlloc(env, ke, sys1, subnet, name, a.result.value, file)
  }

  /** The steps of `CreateNetwork` once the gateway is allocated. */
  function CreateAfterAlloc(env: Env, ke: KernelEnv, sys: System, subnet: CidrInput, name: string, gateway: Addr, file: Path)
    : (r: (Option<NetworkError>, System))
    ensures r.0.Some? ==> r.1.networks == sys.networks
    ensures r.1.drivers == sys.drivers && r.1.table == sys.table
  {
    var (nw, k) := Bridge.CreateNetworkSpec(ke, sys.kernel, name, subnet, gateway);
    var sys2 := sys.(kernel := k);
    if nw.Err? then (Some(DriverFailed(nw.error)), sys2)
    else
      var (err, w) := DumpSpec(env, sys2.world, file, NetworkDoc(nw.value));
      var sys3 := sys2.(world := w);
      if err.Some? then (Some(DumpFailed(err.value)), sys3)
      else (None, sys3.(networks := sys.networks[name := nw.value]))
  }

  /**
   * An unknown driver fails before the address manager is touched; a failed
   * allocation never reaches the driver; once allocated, the gateway stays
   * allocated whatever fails next; success registers the driver's network,
   * named as asked, with the allocated gateway, and changes no other entry.
   */
  lemma CreateSteps(env: Env, ke: KernelEnv, sys: System, driver: string, subnet: CidrInput, name: string,
                    allocPath: Path, file: Path)
    ensures var (err, sys') := CreateSpec(env, ke, sys, driver, subnet, name, allocPath, file);
      var a := AllocSpec(env, sys.world, allocPath, sys.table, subnet);
      && sys'.drivers == sys.drivers
      && (driver !in sys.drivers ==> sys' == sys)
      && (driver in sys.drivers ==> sys'.table == a.table)
      && (driver in sys.drivers && a.result.Err? ==> err == Some(AllocFailed(a.result.error)) && sys'.kernel == sys.kernel)
      && (err.None? ==> (subnet.V4Net? && a.result.Ok?
            && sys'.networks == sys.networks[name := NetworkRecord(name,
                 CidrString(NetworkOf(subnet.addr, subnet.prefix), subnet.prefix), Some(a.result.value), BridgeName)]))
  {
  }

  /** `CreateNetwork` as written. */
  function CreateNetworkAsWritten(env: Env, ke: KernelEnv, sys: System, driver: string, subnet: CidrInput, name: string)
    : (r: (Option<NetworkError>, System))
    ensures r.0.Some? ==> r.1.networks == sys.networks
  {
    CreateSpec(env, ke, sys, driver, subnet, name, DefaultAllocatorPath, NetworkFileAsWritten(name))
  }

  /** `CreateNetwork` with the record kept where `Init` looks for it. */
  function CreateNetworkCorrected(env: Env, ke: KernelEnv, sys: System, driver: string, subnet: CidrInput, name: string)
    : (r: (Option<NetworkError>, System))
    ensures r.0.Some? ==> r.1.networks == sys.networks
  {
    CreateSpec(env, ke, sys, driver, subnet, name, DefaultAllocatorPath, NetworkFile(name))
  }

  // ---------------------------------------------------------------------
  // Why the record cannot be dumped below the allocator's file

  /** A successful allocation leaves the table's file in place. */
  lemma AllocLeavesStore(env: Env, w: World, path: Path, table: Table, subnet: CidrInput)
    requires AllocSpec(env, w, path, table, subnet).result.Ok?
    ensures path in AllocSpec(env, w, path, table, subnet).world.files
  {
    var a, p := subnet.addr, subnet.prefix;
    var net := NetworkOf(a, p);
    var key := CidrString(net, p);
    var t := Prepared(Loaded(LoadTable(env, w, path)), key, p);
    var i := FirstFree(t[key]).value;
    DumpLeavesFile(env, w, path, SubnetTable(t[key := t[key][i := true]]));
  }

  /** The directory of a path joined below `file` starts with `file` and a '/'. */
  lemma JoinedBelow(file: Path, name: string)
    requires file != "" && file[|file| - 1] != '/' && name != ""
    ensures var d := DirPart(PathJoin(file, name));
      |d| > |file| && d[..|file|] == file && d[|file|] == '/'
  {
    var p := PathJoin(file, name);
    assert |p| > |file| && p[..|file|] == file && p[|file|] == '/' by {
      assert TrimTrailingSlashes(file) == file;
      assert p == file + "/" + TrimLeadingSlashes(name);
    }
    var d := DirPart(p);
    assert |d| > |file|;
    assert d[..|file|] == p[..|file|];
  }

  /**
   * Dumping to a path joined below an existing regular file fails at the
   * `Stat` of its directory (the kernel answers ENOTDIR) and changes nothing.
   */
  lemma DumpBelowFileFails(env: Env, w: World, file: Path, name: string, c: Content)
    requires file in w.files && file != "" && file[|file| - 1] != '/' && name != ""
    ensures var dir := DirPart(PathJoin(file, name));
      DumpSpec(env, w, PathJoin(file, name), c) == (Some(StatFailure(dir)), w)
  {
    var dir := DirPart(PathJoin(file, name));
    JoinedBelow(file, name);
    assert UnderFile(w, dir) by {
      assert 0 < |file| < |dir| && dir[|file|] == '/' && dir[..|file|] in w.files;
    }
  }

  /**
   * As written, `CreateNetwork` never registers a network: whenever the
   * gateway is allocated, the allocator's file exists, so the record's
   * directory, below that file, cannot be examined.
   */
  lemma AsWrittenNeverRegisters(env: Env, ke: KernelEnv, sys: System, driver: string, subnet: CidrInput, name: string)
    requires name != ""
    ensures var (err, sys') := CreateNetworkAsWritten(env, ke, sys, driver, subnet, name);
      err.Some? && sys'.networks == sys.networks
  {
    var a := AllocSpec(env, sys.world, DefaultAllocatorPath, sys.table, subnet);
    if driver in sys.drivers && a.result.Ok? {
      AllocLeavesStore(env, sys.world, DefaultAllocatorPath, sys.table, subnet);
      var (nw, k) := Bridge.CreateNetworkSpec(ke, sys.kernel, name, subnet, a.result.value);
      if nw.Ok? {
        assert DefaultAllocatorPath[|DefaultAllocatorPath| - 1] == 'n';
        DumpBelowFileFails(env, a.world, DefaultAllocatorPath, name, NetworkDoc(nw.value));
      }
    }
  }

  /** A valid network name keeps its record directly in the records' directory. */
  lemma NetworkFileOf(name: string)
    requires name != "" && '/' !in name
    ensures NetworkFile(name) == DefaultNetworkPath + "/" + name
    ensures |NetworkFile(name)| > 0 && NetworkFile(name)[|NetworkFile(name)| - 1] != '/'
  {
    assert DefaultNetworkPath[|DefaultNetworkPath| - 1] == 'k';
    assert TrimTrailingSlashes(DefaultNetworkPath) == DefaultNetworkPath;
    assert name[0] != '/';
    assert name[|name| - 1] in name;
  }

  /**
   * The allocator's writes touch only its own file, its directory and the
   * directories above that, none of which lies on the way to a network record.
   */
  lemma AllocClearOfRecords(env: Env, w: World, table: Table, subnet: CidrInput, name: string)
    requires name != "" && '/' !in name
    requires !UnderFile(w, NetworkFile(name)) && NetworkFile(name) !in w.dirs
    ensures var w' := AllocSpec(env, w, DefaultAllocatorPath, table, subnet).world;
      !UnderFile(w', NetworkFile(name)) && NetworkFile(name) !in w'.dirs
  {
    var w' := AllocSpec(env, w, DefaultAllocatorPath, table, subnet).world;
    AllocFrame(env, w, DefaultAllocatorPath, table, subnet);
    RecordsApart(name);
    ClearOf(w, w', NetworkFile(name), DefaultAllocatorPath);
  }

  /** No record's path lies on the way to the allocator's file, or is its directory or above it. */
  lemma RecordsApart(name: string)
    requires name != "" && '/' !in name
    ensures NetworkFile(name) != DirPart(DefaultAllocatorPath)
    ensures NetworkFile(name) !in Ancestors(DirPart(DefaultAllocatorPath))
    ensures forall k :: 0 < k <= |NetworkFile(name)| ==> NetworkFile(name)[..k] != DefaultAllocatorPath
  {
    NetworkFileOf(name);
    assert NetworkFile(name)[24] == DefaultNetworkPath[24] == 'n';
    PathsApart(NetworkFile(name), DefaultAllocatorPath, 24, 28);
  }

  /** Two paths that differ at position `i` before a '/' of `file` at `j` are apart. */
  lemma PathsApart(path: Path, file: Path, i: nat, j: nat)
    requires i < j < |file| && i < |path| && path[i] != file[i] && file[j] == '/'
    ensures path != DirPart(file)
    ensures path !in Ancestors(DirPart(file))
    ensures forall k :: 0 < k <= |path| ==> path[..k] != file
  {
    var d := DirPart(file);
    assert |d| > j;
    assert d[i] == file[i];
    forall k | 0 < k <= |path| ensures path[..k] != file {
      if k == |file| {
        assert path[..k][i] == path[i];
      }
    }
  }

  /** Writing one file and some directories, none of them on the way to `path`, keeps `path` clear. */
  lemma ClearOf(w: World, w': World, path: Path, file: Path)
    requires w'.dirs <= w.dirs + {DirPart(file)} + Ancestors(DirPart(file)) && w'.files.Keys <= w.files.Keys + {file}
    requires path != DirPart(file) && path !in Ancestors(DirPart(file))
    requires forall k :: 0 < k <= |path| ==> path[..k] != file
    requires !UnderFile(w, path) && path !in w.dirs
    ensures !UnderFile(w', path) && path !in w'.dirs
  {
    forall k | 0 < k < |path| && path[k] == '/'
      ensures path[..k] !in w'.files
    {
      assert path[..k] !in w.files;
    }
  }

  /** A dump adds at most its own file, its directory and the directories above that. */
  lemma DumpFrame(env: Env, w: World, path: Path, c: Content)
    ensures var w' := DumpSpec(env, w, path, c).1;
      w'.dirs <= w.dirs + {DirPart(path)} + Ancestors(DirPart(path)) && w'.files.Keys <= w.files.Keys + {path}
  {
    var dir := DirPart(path);
    RunTwo(env, w, MkdirAll(dir), WriteFile(path, c));
    RunOne(env, Step(env, w, MkdirAll(dir)), WriteFile(path, c));
    RunOne(env, w, WriteFile(path, c));
  }

  /** An allocation adds at most the table's file, its directory and the directories above that. */
  lemma AllocFrame(env: Env, w: World, path: Path, table: Table, subnet: CidrInput)
    ensures var w' := AllocSpec(env, w, path, table, subnet).world;
      w'.dirs <= w.dirs + {DirPart(path)} + Ancestors(DirPart(path)) && w'.files.Keys <= w.files.Keys + {path}
  {
    if subnet.V4Net? {
      var a, p := subnet.addr, subnet.prefix;
      var net := NetworkOf(a, p);
      var key := CidrString(net, p);
      var t := Prepared(Loaded(LoadTable(env, w, path)), key, p);
      if FirstFree(t[key]).Some? {
        var i := FirstFree(t[key]).value;
        DumpFrame(env, w, path, SubnetTable(t[key := t[key][i := true]]));
      }
    }
  }

  /**
   * Corrected, `CreateNetwork` in a reliable host and kernel registers the
   * bridge network under its name, with the allocated gateway and the
   * subnet's canonical text, and persists the record where `Init` reads it.
   */
  lemma CorrectedRegisters(env: Env, ke: KernelEnv, sys: System, driver: string, a: Addr, p: Prefix, name: string)
    requires Reliable(env) && ReliableKernel(ke)
    requires driver in sys.drivers && name != "" && '/' !in name && name !in sys.kernel.links
    requires AllocSpec(env, sys.world, DefaultAllocatorPath, sys.table, V4Net(a, p)).result.Ok?
    requires !UnderFile(sys.world, NetworkFile(name)) && NetworkFile(name) !in sys.world.dirs
    ensures var gateway := AllocSpec(env, sys.world, DefaultAllocatorPath, sys.table, V4Net(a, p)).result.value;
      var record := NetworkRecord(name, CidrString(NetworkOf(a, p), p), Some(gateway), BridgeName);
      var (err, sys') := CreateNetworkCorrected(env, ke, sys, driver, V4Net(a, p), name);
      && err.None?
      && sys'.networks == sys.networks[name := record]
      && ReadFile(env, sys'.world, NetworkFile(name)) == Ok(NetworkDoc(record))
  {
    var alloc := AllocSpec(env, sys.world, DefaultAllocatorPath, sys.table, V4Net(a, p));
    var gateway := alloc.result.value;
    ReliableCreateNetwork(ke, sys.kernel, name, a, p, gateway);
    var record := NetworkRecord(name, CidrString(NetworkOf(a, p), p), Some(gateway), BridgeName);
    AllocClearOfRecords(env, sys.world, sys.table, V4Net(a, p), name);
    NetworkFileOf(name);
    DumpSucceeds(env, alloc.world, NetworkFile(name), NetworkDoc(record));
    DumpThenRead(env, alloc.world, NetworkFile(name), NetworkDoc(record));
    var sys1 := sys.(table := alloc.table, world := alloc.world);
    var k := Bridge.CreateNetworkSpec(ke, sys1.kernel, name, V4Net(a, p), gateway).1;
    var w' := DumpSpec(env, alloc.world, NetworkFile(name), NetworkDoc(record)).1;
    assert CreateAfterAlloc(env, ke, sys1, V4Net(a, p), name, gateway, NetworkFile(name))
      == (None, sys1.(kernel := k, world := w', networks := sys.networks[name := record]));
  }

  // ---------------------------------------------------------------------
  // Records on disk

  datatype RecordLoadError = RecordUnreadable(cause: Failure) | RecordMalformed

  /** `Network.Load`: the file must hold a network record. */
  function LoadNetwork(env: Env, w: World, path: Path): (r: Result<NetworkRecord, RecordLoadError>)
    ensures r.Ok? ==> path in w.files && w.files[path] == NetworkDoc(r.value)
  {
    match ReadFile(env, w, path)
      case Err(f) => Err(RecordUnreadable(f))
      case Ok(NetworkDoc(n)) => Ok(n)
      case Ok(_) => Err(RecordMalformed)
  }

  /** A record that was dumped is what a later load finds. */
  lemma LoadAfterDump(env: Env, w: World, path: Path, n: NetworkRecord)
    requires DumpSpec(env, w, path, NetworkDoc(n)).0.None? && path !in env.readFaults
    ensures LoadNetwork(env, DumpSpec(env, w, path, NetworkDoc(n)).1, path) == Ok(n)
  {
    DumpThenRead(env, w, path, NetworkDoc(n));
  }

  /** `Network.Remove`: nothing to do for a missing file, otherwise remove it. */
  function RemoveSpec(env: Env, w: World, path: Path): (r: (Option<Failure>, World))
    ensures StatOf(env, w, path) == NotExist ==> r == (None, w)
    ensures r.0.None? ==> path !in r.1.files && path !in r.1.dirs
    ensures r.1.files == w.files || r.1.files == w.files - {path}
  {
    match StatOf(env, w, path)
      case NotExist => (None, w)
      case StatFailed => (Some(StatFailure(path)), w)
      case Found =>
        RunOne(env, w, HostOs.Remove(path));
        Tried(env, w, [HostOs.Remove(path)])
  }

  /** Removing a record twice is removing it once. */
  lemma RemoveIdempotent(env: Env, w: World, path: Path)
    requires RemoveSpec(env, w, path).0.None?
    ensures var w' := RemoveSpec(env, w, path).1;
      RemoveSpec(env, w', path) == (None, w')
  {
    var w' := RemoveSpec(env, w, path).1;
    if StatOf(env, w, path) == Found {
      RunOne(env, w, HostOs.Remove(path));
    }
  }

  // ---------------------------------------------------------------------
  // Init

  /** What `Init` registers for a walked file: the loaded record, or the empty one when the load failed. */
  function Registered(env: Env, w: World, path: Path): (n: NetworkRecord)
    ensures LoadNetwork(env, w, path).Err? ==> n == EmptyNetwork
  {
    var l := LoadNetwork(env, w, path);
    if l.Ok? then l.value else EmptyNetwork
  }

  /** The registry after the walk visited `walked`, in order, skipping directories. */
  function WalkRegister(env: Env, w: World, networks: map<string, NetworkRecord>, walked: seq<Path>)
    : map<string, NetworkRecord>
    decreases |walked|
  {
    if walked == [] then networks
    else
      var before := WalkRegister(env, w, networks, walked[..|walked| - 1]);
      var path := walked[|walked| - 1];
      if path in w.dirs then before
      else before[Registered(env, w, path).name := Registered(env, w, path)]
  }

  /** The names a walk registers: one per walked file that is not a directory. */
  function WalkedNames(env: Env, w: World, walked: seq<Path>): set<string>
  {
    set i | 0 <= i < |walked| && walked[i] !in w.dirs :: Registered(env, w, walked[i]).name
  }

  /** `Init` adds exactly one entry per name loaded from a walked file, and keeps the others. */
  lemma {:induction false} WalkRegisterKeys(env: Env, w: World, networks: map<string, NetworkRecord>, walked: seq<Path>)
    ensures WalkRegister(env, w, networks, walked).Keys == networks.Keys + WalkedNames(env, w, walked)
    decreases |walked|
  {
    if walked != [] {
      var init := walked[..|walked| - 1];
      WalkRegisterKeys(env, w, networks, init);
      var path := walked[|walked| - 1];
      var names := WalkedNames(env, w, walked);
      var before := WalkedNames(env, w, init);
      forall n | n in names ensures n in before || (path !in w.dirs && n == Registered(env, w, path).name) {
        var i :| 0 <= i < |walked| && walked[i] !in w.dirs && n == Registered(env, w, walked[i]).name;
        if i < |walked| - 1 {
          assert walked[i] == init[i];
        }
      }
      forall n | n in before ensures n in names {
        var i :| 0 <= i < |init| && init[i] !in w.dirs && n == Registered(env, w, init[i]).name;
        assert init[i] == walked[i];
      }
      if path !in w.dirs {
        assert walked[|walked| - 1] == path;
      }
    }
  }

  /** A file whose load fails is registered under the empty name, as the empty record. */
  lemma {:induction false} FailedLoadRegistered(env: Env, w: World, networks: map<string, NetworkRecord>, walked: seq<Path>, i: nat)
    requires i < |walked| && walked[i] !in w.dirs && LoadNetwork(env, w, walked[i]).Err?
    ensures "" in WalkRegister(env, w, networks, walked)
  {
    WalkRegisterKeys(env, w, networks, walked);
    assert Registered(env, w, walked[i]).name == "";
  }

  /**
   * The record a name ends up with is the one loaded from the last walked
   * file that carries that name.
   */
  lemma {:induction false} WalkLastWins(env: Env, w: World, networks: map<string, NetworkRecord>, walked: seq<Path>, i: nat)
    requires i < |walked| && walked[i] !in w.dirs
    requires forall j :: i < j < |walked| && walked[j] !in w.dirs ==>
      Registered(env, w, walked[j]).name != Registered(env, w, walked[i]).name
    ensures var n := Registered(env, w, walked[i]);
      n.name in WalkRegister(env, w, networks, walked) && WalkRegister(env, w, networks, walked)[n.name] == n
    decreases |walked|
  {
    if i < |walked| - 1 {
      var init := walked[..|walked| - 1];
      assert init[i] == walked[i];
      forall j | i < j < |init| && init[j] !in w.dirs
        ensures Registered(env, w, init[j]).name != Registered(env, w, init[i]).name
      {
        assert init[j] == walked[j];
      }
      WalkLastWins(env, w, networks, init, i);
    }
  }

  /**
   * `Init`: make sure the records' directory exists (giving up if it
   * cannot be examined or created), then register every walked file.
   */
  function InitSpec(env: Env, w: World, networks: map<string, NetworkRecord>, walked: seq<Path>)
    : (r: (Option<Failure>, World, map<string, NetworkRecord>))
    ensures r.0.Some? ==> r.2 == networks
    ensures r.0.None? ==> DefaultNetworkPath in r.1.dirs || DefaultNetworkPath in r.1.files
  {
    match StatOf(env, w, DefaultNetworkPath)
      case StatFailed => (Some(StatFailure(DefaultNetworkPath)), w, networks)
      case NotExist =>
        RunOne(env, w, MkdirAll(DefaultNetworkPath));
        var (err, w1) := Tried(env, w, [MkdirAll(DefaultNetworkPath)]);
        if err.Some? then (err, w1, networks) else (None, w1, WalkRegister(env, w1, networks, walked))
      case Found => (None, w, WalkRegister(env, w, networks, walked))
  }

  /** In a reliable host `Init` succeeds, and registers one entry per name loaded. */
  lemma ReliableInit(env: Env, w: World, networks: map<string, NetworkRecord>, walked: seq<Path>)
    requires Reliable(env) && !UnderFile(w, DefaultNetworkPath) && DefaultNetworkPath !in w.files
    ensures var (err, w', nets) := InitSpec(env, w, networks, walked);
      err.None? && nets.Keys == networks.Keys + WalkedNames(env, w', walked)
  {
    RunOne(env, w, MkdirAll(DefaultNetworkPath));
    var w' := InitSpec(env, w, networks, walked).1;
    WalkRegisterKeys(env, w', networks, walked);
  }

  // ---------------------------------------------------------------------
  // The package's entry points that are not implemented

  /** `DeleteNetwork` always panics. */
  function DeleteNetwork(name: string): (r: Exit<Option<NetworkError>>)
    ensures r.Panicked?
  {
    Panicked(NotImplemented)
  }

  /** `ConnectToNetwork` always panics. */
  function ConnectToNetwork(networkName: string, containerName: string): (r: Exit<Option<NetworkError>>)
    ensures r.Panicked?
  {
    Panicked(NotImplemented)
  }

  /** `DisconnectFromNetwork` always panics. */
  function DisconnectFromNetwork(networkName: string, containerName: string): (r: Exit<Option<NetworkError>>)
    ensures r.Panicked?
  {
    Panicked(NotImplemented)
  }

  // ---------------------------------------------------------------------
  // The registry

  /** The package's registries of drivers and networks. */
  class Registry {
    var drivers: map<string, DriverKind>
    var networks: map<string, NetworkRecord>

    /** The registries as `Init` leaves the drivers: empty. */
    constructor ()
      ensures drivers == map[] && networks == map[]
    {
      drivers := map[];
      networks := map[];
    }

    method CreateNetwork(ipam: IpAddrManager, h: Host, k: Kernel, driver: string, subnet: CidrInput, name: string)
      returns (err: Option<NetworkError>)
      requires ipam.allocatorPath == DefaultAllocatorPath
      modifies this, ipam, h, k
      ensures (err, System(drivers, networks, ipam.subnets, h.world, k.state)) ==
        CreateNetworkCorrected(h.env, k.env, old(System(drivers, networks, ipam.subnets, h.world, k.state)), driver, subnet, name)
    {
      if GetNetworkDriver(drivers, driver).None? {
        return Some(InvalidDriver(driver));
      }
      var gateway := ipam.Alloc(h, subnet);
      if gateway.Err? {
        return Some(AllocFailed(gateway.error));
      }
      var nw := Bridge.CreateNetwork(k, name, subnet, gateway.value);
      if nw.Err? {
        return Some(DriverFailed(nw.error));
      }
      var e := h.Dump(NetworkFile(name), NetworkDoc(nw.value));
      if e.Some? {
        return Some(DumpFailed(e.value));
      }
      networks := networks[name := nw.value];
      return None;
    }

    method Init(h: Host, walked: seq<Path>) returns (err: Option<Failure>)
      modifies this, h
      ensures (err, h.world, networks) == InitSpec(h.env, old(h.world), old(networks), walked)
      ensures drivers == old(drivers)
    {
      var st := h.Stat(DefaultNetworkPath);
      if st == StatFailed {
        return Some(StatFailure(DefaultNetworkPath));
      } else if st == NotExist {
        err := h.Try([MkdirAll(DefaultNetworkPath)]);
        if err.Some? {
          return err;
        }
      }
      for i := 0 to |walked|
        invariant networks == WalkRegister(h.env, h.world, old(networks), walked[..i])
        invariant drivers == old(drivers)
        invariant h.world == InitSpec(h.env, old(h.world), old(networks), walked).1
      {
        assert walked[..i + 1][..i] == walked[..i];
        var path := walked[i];
        if path !in h.world.dirs {
          var loaded := LoadRecord(h, path);
          var n := if loaded.Ok? then loaded.value else EmptyNetwork;
          networks := networks[n.name := n];
        }
      }
      assert walked[..|walked|] == walked;
      return None;
    }
  }

  method LoadRecord(h: Host, path: Path) returns (r: Result<NetworkRecord, RecordLoadError>)
    ensures r == LoadNetwork(h.env, h.world, path)
  {
    var content := h.Read(path);
    if content.Err? {
      return Err(RecordUnreadable(content.error));
    }
    if !content.value.NetworkDoc? {
      return Err(RecordMalformed);
    }
    return Ok(content.value.network);
  }

  method RemoveRecord(h: Host, path: Path) returns (err: Option<Failure>)
    modifies h
    ensures (err, h.world) == RemoveSpec(h.env, old(h.world), path)
  {
    var st := h.Stat(path);
    if st == NotExist {
      return None;
    } else if st == StatFailed {
      return Some(StatFailure(path));
    }
    err := h.Try([HostOs.Remove(path)]);
  }
}
