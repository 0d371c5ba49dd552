/**
 * The IPv4 address manager: one bitmap per subnet, keyed by the subnet's
 * canonical text, persisted as a JSON file that every operation reloads
 * first. `Alloc` hands out the lowest free host offset; `Release` clears the
 * offset of an address. Offset 0 (the network address) and the last offset
 * (the broadcast address) are never handed out.
 */
module Ipam {
  import opened Wrappers
  import opened IPv4
  import opened Documents
  import opened HostOs

  const DefaultAllocatorPath: Path := "/var/run/dicker/network/ipam/subnet.json"

  /** What `net.ParseCIDR` makes of a subnet text, after `To4`. */
  datatype CidrInput = Unparsable | NonIPv4Net | V4Net(addr: Addr, prefix: Prefix)

  /** What `To4` makes of the address handed to `Release`. */
  datatype IpInput = NonIPv4Ip | V4Ip(ip: Addr)

  /** Why `load` failed. */
  datatype LoadFailure = StoreMissing | StoreUnreadable(cause: Failure) | StoreMalformed

  datatype IpamError =
    | ParseCidrError
    | UnsupportedNet
    | UnsupportedIp
    | LoadError(load: LoadFailure)
    | NoFreeAddress
    | InvalidReleaseAddress
    | DumpError(cause: Failure)

  datatype AllocOutcome = AllocOutcome(result: Result<Addr, IpamError>, table: Table, world: World)

  datatype ReleaseOutcome = ReleaseOutcome(result: Option<IpamError>, table: Table, world: World)

  // ---------------------------------------------------------------------
  // The bitmap

  /** A fresh bitmap: no address handed out. */
  function Zeros(n: nat): (bits: seq<bool>)
    ensures |bits| == n && forall i :: 0 <= i < n ==> !bits[i]
  {
    seq(n, _ => false)
  }

  /** An offset that may be handed out: neither the network nor the broadcast offset. */
  predicate Usable(bits: seq<bool>, i: int)
  {
    1 <= i <= |bits| - 2
  }

  /** The lowest usable offset at or above `from` whose flag is clear. */
  function FirstFreeFrom(bits: seq<bool>, from: nat): (r: Option<nat>)
    requires from >= 1
    ensures r.Some? ==> from <= r.value && Usable(bits, r.value) && !bits[r.value]
    ensures r.Some? ==> forall j :: from <= j < r.value ==> bits[j]
    ensures r.None? ==> forall j :: from <= j && Usable(bits, j) ==> bits[j]
    decreases |bits| - from
  {
    if from >= |bits| - 1 then None
    else if !bits[from] then Some(from)
    else FirstFreeFrom(bits, from + 1)
  }

  /** First fit: the lowest usable offset whose flag is clear. */
  function FirstFree(bits: seq<bool>): (r: Option<nat>)
    ensures r.Some? ==> Usable(bits, r.value) && !bits[r.value]
    ensures r.Some? ==> forall j :: 1 <= j < r.value ==> bits[j]
    ensures r.None? ==> forall j :: Usable(bits, j) ==> bits[j]
  {
    FirstFreeFrom(bits, 1)
  }

  /** The first-fit choice is the only offset with its properties. */
  lemma FirstFreeUnique(bits: seq<bool>, i: nat)
    requires Usable(bits, i) && !bits[i]
    requires forall j :: 1 <= j < i ==> bits[j]
    ensures FirstFree(bits) == Some(i)
  {
  }

  // ---------------------------------------------------------------------
  // The persisted table

  /** `load` as corrected: the whole file is read and must hold a subnet table. */
  function LoadTable(env: Env, w: World, path: Path): (r: Result<Table, LoadFailure>)
    ensures r.Ok? ==> path in w.files && w.files[path] == SubnetTable(r.value)
  {
    match StatOf(env, w, path)
      case NotExist => Err(StoreMissing)
      case StatFailed => Err(StoreUnreadable(StatFailure(path)))
      case Found =>
        match ReadFile(env, w, path)
          case Err(f) => Err(StoreUnreadable(f))
          case Ok(SubnetTable(t)) => Ok(t)
          case Ok(_) => Err(StoreMalformed)
  }

  /**
   * `load` as written: a single 2048-byte read, so a table whose JSON text
   * is longer is cut short and does not parse.
   */
  ghost function LoadTableAsWritten(env: Env, w: World, path: Path): (r: Result<Table, LoadFailure>)
    ensures r.Ok? ==> JsonSize(r.value) <= 2048
  {
    match LoadTable(env, w, path)
      case Ok(t) => if JsonSize(t) <= 2048 then Ok(t) else Err(StoreMalformed)
      case Err(e) => Err(e)
  }

  /** `load` starts from an empty table, so a failed load leaves nothing behind. */
  function Loaded(r: Result<Table, LoadFailure>): Table
  {
    if r.Ok? then r.value else map[]
  }

  /** The table `Alloc` scans: the loaded one, with a fresh bitmap for a subnet it does not know. */
  function Prepared(loaded: Table, key: string, p: Prefix): (t: Table)
    ensures key in t && t.Keys == loaded.Keys + {key}
    ensures key in loaded ==> t == loaded
    ensures key !in loaded ==> t[key] == Zeros(SubnetSize(p))
  {
    if key in loaded then loaded else loaded[key := Zeros(SubnetSize(p))]
  }

  // ---------------------------------------------------------------------
  // Specification of the two operations

  /** `Alloc` once the table is loaded: first fit, set the flag, dump. */
  function AllocAfterLoad(env: Env, w: World, path: Path, net: Addr, p: Prefix, loaded: Table): (out: AllocOutcome)
    ensures out.world.files == w.files || out.world.files == w.files[path := SubnetTable(out.table)]
  {
    var key := CidrString(net, p);
    var t := Prepared(loaded, key, p);
    match FirstFree(t[key])
      case None => AllocOutcome(Err(NoFreeAddress), t, w)
      case Some(i) =>
        var t' := t[key := t[key][i := true]];
        var (err, w') := DumpSpec(env, w, path, SubnetTable(t'));
        AllocOutcome(if err.Some? then Err(DumpError(err.value)) else Ok(AddrAt(net, i)), t', w')
  }

  /**
   * `IpAddrManager.Alloc`: reject what is not an IPv4 subnet before reading
   * anything, load (a failed load only loses the table), then allocate.
   * The load is the corrected whole-file one; `AllocSpecAsWritten` keeps
   * the 2048-byte read.
   */
  function AllocSpec(env: Env, w: World, path: Path, table: Table, subnet: CidrInput): (out: AllocOutcome)
    ensures !subnet.V4Net? ==> out.result.Err? && out.table == table && out.world == w
    ensures out.world.files == w.files || out.world.files == w.files[path := SubnetTable(out.table)]
  {
    match subnet
      case Unparsable => AllocOutcome(Err(ParseCidrError), table, w)
      case NonIPv4Net => AllocOutcome(Err(UnsupportedNet), table, w)
      case V4Net(a, p) => AllocAfterLoad(env, w, path, NetworkOf(a, p), p, Loaded(LoadTable(env, w, path)))
  }

  /** `Alloc` with the 2048-byte `load` of the source. */
  ghost function AllocSpecAsWritten(env: Env, w: World, path: Path, table: Table, subnet: CidrInput): AllocOutcome
  {
    match subnet
      case Unparsable => AllocOutcome(Err(ParseCidrError), table, w)
      case NonIPv4Net => AllocOutcome(Err(UnsupportedNet), table, w)
      case V4Net(a, p) => AllocAfterLoad(env, w, path, NetworkOf(a, p), p, Loaded(LoadTableAsWritten(env, w, path)))
  }

  /** The number of flags a table holds for `key`; an absent subnet has none. */
  function FlagCount(t: Table, key: string): nat
  {
    if key in t then |t[key]| else 0
  }

  /**
   * `IpAddrManager.Release`: reject non-IPv4 inputs, load (a failed load is
   * an error here), turn the address into an offset, refuse the network and
   * broadcast offsets and anything beyond the bitmap, clear the flag, dump.
   * The load is the corrected whole-file one; `ReleaseSpecAsWritten` keeps
   * the 2048-byte read.
   */
  function ReleaseSpec(env: Env, w: World, path: Path, table: Table, subnet: CidrInput, ip: IpInput): (out: ReleaseOutcome)
    ensures !subnet.V4Net? || !ip.V4Ip? ==> out.result.Some? && out.table == table && out.world == w
    ensures out.world.files == w.files || out.world.files == w.files[path := SubnetTable(out.table)]
  {
    match subnet
      case Unparsable => ReleaseOutcome(Some(ParseCidrError), table, w)
      case NonIPv4Net => ReleaseOutcome(Some(UnsupportedNet), table, w)
      case V4Net(a, p) =>
        match ip
          case NonIPv4Ip => ReleaseOutcome(Some(UnsupportedIp), table, w)
          case V4Ip(x) =>
            match LoadTable(env, w, path)
              case Err(e) => ReleaseOutcome(Some(LoadError(e)), map[], w)
              case Ok(t) =>
                var net := NetworkOf(a, p);
                var key := CidrString(net, p);
                var idx := OffsetOf(net, x);
                if idx == 0 || idx >= FlagCount(t, key) - 1 then ReleaseOutcome(Some(InvalidReleaseAddress), t, w)
                else
                  var t' := t[key := t[key][idx := false]];
                  var (err, w') := DumpSpec(env, w, path, SubnetTable(t'));
                  ReleaseOutcome(if err.Some? then Some(DumpError(err.value)) else None, t', w')
  }

  /**
   * `Release` with the 2048-byte `load` of the source: a table the single
   * read cuts short is reported as a load error, and nothing is released.
   * Otherwise both loads agree and so does the outcome.
   */
  ghost function ReleaseSpecAsWritten(env: Env, w: World, path: Path, table: Table, subnet: CidrInput, ip: IpInput): ReleaseOutcome
  {
    var loaded := LoadTableAsWritten(env, w, path);
    if subnet.V4Net? && ip.V4Ip? && loaded.Err? then ReleaseOutcome(Some(LoadError(loaded.error)), map[], w)
    else ReleaseSpec(env, w, path, table, subnet, ip)
  }

  // ---------------------------------------------------------------------
  // The manager

  class IpAddrManager {
    /** Where the subnet table is persisted. */
    const allocatorPath: Path
    /** The in-memory subnet table. */
    var subnets: Table

    constructor (allocatorPath: Path)
      ensures this.allocatorPath == allocatorPath && subnets == map[]
    {
      this.allocatorPath := allocatorPath;
      subnets := map[];
    }

    /** `load` as corrected: empty the table, then fill it from the whole persisted file. */
    method Load(h: Host) returns (err: Option<LoadFailure>)
      modifies this
      ensures subnets == Loaded(LoadTable(h.env, h.world, allocatorPath))
      ensures var l := LoadTable(h.env, h.world, allocatorPath);
        err == if l.Ok? then None else Some(l.error)
    {
      subnets := map[];
      var st := h.Stat(allocatorPath);
      if st == NotExist {
        return Some(StoreMissing);
      } else if st == StatFailed {
        return Some(StoreUnreadable(StatFailure(allocatorPath)));
      }
      var content := h.Read(allocatorPath);
      if content.Err? {
        return Some(StoreUnreadable(content.error));
      }
      if !content.value.SubnetTable? {
        return Some(StoreMalformed);
      }
      subnets := content.value.table;
      return None;
    }

    /** `Alloc`, reading the table with the whole-file load of `AllocSpec`. */
    method Alloc(h: Host, subnet: CidrInput) returns (r: Result<Addr, IpamError>)
      modifies this, h
      ensures AllocOutcome(r, subnets, h.world) == AllocSpec(h.env, old(h.world), allocatorPath, old(subnets), subnet)
    {
      if subnet.Unparsable? {
        return Err(ParseCidrError);
      } else if subnet.NonIPv4Net? {
        return Err(UnsupportedNet);
      }
      var p := subnet.prefix;
      var net := NetworkOf(subnet.addr, p);
      var _ := Load(h);
      var key := CidrString(net, p);
      if key !in subnets {
        subnets := subnets[key := Zeros(SubnetSize(p))];
      }
      var bits := subnets[key];
      var i := 0;
      while i < |bits|
        invariant 0 <= i <= |bits|
        invariant forall j :: 1 <= j < i && Usable(bits, j) ==> bits[j]
      {
        if !bits[i] && i != 0 && i < |bits| - 1 {
          FirstFreeUnique(bits, i);
          var ip := AddOffset(net, i);
          subnets := subnets[key := bits[i := true]];
          var err := h.Dump(allocatorPath, SubnetTable(subnets));
          if err.Some? {
            return Err(DumpError(err.value));
          }
          return Ok(ip);
        }
        i := i + 1;
      }
      assert FirstFree(bits).None?;
      return Err(NoFreeAddress);
    }

    /** `Release`, reading the table with the whole-file load of `ReleaseSpec`. */
    method Release(h: Host, subnet: CidrInput, ip: IpInput) returns (err: Option<IpamError>)
      modifies this, h
      ensures ReleaseOutcome(err, subnets, h.world) == ReleaseSpec(h.env, old(h.world), allocatorPath, old(subnets), subnet, ip)
    {
      if subnet.Unparsable? {
        return Some(ParseCidrError);
      } else if subnet.NonIPv4Net? {
        return Some(UnsupportedNet);
      } else if ip.NonIPv4Ip? {
        return Some(UnsupportedIp);
      }
      var p := subnet.prefix;
      var net := NetworkOf(subnet.addr, p);
      var x := ip.ip;
      var loadErr := Load(h);
      if loadErr.Some? {
        return Some(LoadError(loadErr.value));
      }
      var key := CidrString(net, p);
      var idx := OffsetBetween(net, x);
      var count := if key in subnets then |subnets[key]| else 0;
      if idx == 0 || idx >= count - 1 {
        return Some(InvalidReleaseAddress);
      }
      subnets := subnets[key := subnets[key][idx := false]];
      var dumpErr := h.Dump(allocatorPath, SubnetTable(subnets));
      if dumpErr.Some? {
        return Some(DumpError(dumpErr.value));
      }
      return None;
    }
  }

  /** The address at offset `i`: each byte of the offset added to the matching byte of `net`, wrapping per byte. */
  method AddOffset(net: Addr, i: nat) returns (ip: Addr)
    ensures ip == AddrAt(net, i)
  {
    var bytes: seq<byte> := net;
    var j := 0;
    while j < 4
      invariant 0 <= j <= 4 && |bytes| == 4
      invariant forall k :: 0 <= k < j ==> bytes[k] == AddrAt(net, i)[k]
      invariant forall k :: j <= k < 4 ==> bytes[k] == net[k]
    {
      bytes := bytes[j := AddByte(bytes[j], Digit(i, j))];
      j := j + 1;
    }
    ip := bytes;
  }

  /** The offset of `x` from `net`: the per-byte differences, each shifted into its place and summed. */
  method OffsetBetween(net: Addr, x: Addr) returns (idx: nat)
    ensures idx == OffsetOf(net, x)
  {
    idx := 0;
    var k := 0;
    while k < 4
      invariant 0 <= k <= 4
      invariant idx == OffsetPrefix(net, x, k)
    {
      idx := idx + SubByte(x[k], net[k]) * Weight(k);
      k := k + 1;
    }
    assert OffsetPrefix(net, x, 1) == SubByte(x[0], net[0]) * 16777216;
    assert OffsetPrefix(net, x, 2) == OffsetPrefix(net, x, 1) + SubByte(x[1], net[1]) * 65536;
    assert OffsetPrefix(net, x, 3) == OffsetPrefix(net, x, 2) + SubByte(x[2], net[2]) * 256;
  }

  /** The offset accumulated over the first `k` bytes. */
  function OffsetPrefix(net: Addr, ip: Addr, k: nat): nat
    requires k <= 4
  {
    if k == 0 then 0 else OffsetPrefix(net, ip, k - 1) + SubByte(ip[k - 1], net[k - 1]) * Weight(k - 1)
  }
}
