/**
 * What the address manager promises, stated over `AllocSpec` and
 * `ReleaseSpec`: first fit inside the subnet, exhaustion exactly when every
 * host flag is set, release of exactly the host addresses, and what
 * survives a round trip through the persisted table.
 */
module IpamFacts {
  import opened Wrappers
  import opened IPv4
  import opened Documents
  import opened HostOs
  import opened Ipam
  import opened HostAddresses

  /** The bitmap the table holds for `key`, if any, has one flag per address of a /p subnet. */
  predicate SizedFor(t: Table, key: string, p: Prefix)
  {
    key in t ==> |t[key]| == SubnetSize(p)
  }

  /** A table written by a successful dump is what the next load finds. */
  lemma LoadAfterDump(env: Env, w: World, path: Path, t: Table)
    requires DumpSpec(env, w, path, SubnetTable(t)).0.None?
    requires path !in env.statFaults && path !in env.readFaults
    ensures LoadTable(env, DumpSpec(env, w, path, SubnetTable(t)).1, path) == Ok(t)
  {
    DumpLeavesFile(env, w, path, SubnetTable(t));
  }

  /**
   * A successful `Alloc` returns the address at the lowest clear usable
   * offset of the subnet's bitmap, inside the subnet, and sets exactly that
   * flag; every other subnet's bitmap is untouched.
   */
  lemma AllocFirstFit(env: Env, w: World, path: Path, table: Table, a: Addr, p: Prefix)
    requires SizedFor(Loaded(LoadTable(env, w, path)), CidrString(NetworkOf(a, p), p), p)
    ensures var net := NetworkOf(a, p);
      var key := CidrString(net, p);
      var t := Prepared(Loaded(LoadTable(env, w, path)), key, p);
      var out := AllocSpec(env, w, path, table, V4Net(a, p));
      out.result.Ok? ==>
        var ip := out.result.value;
        var i := OffsetOf(net, ip);
        && NetworkOf(ip, p) == net
        && ToNat(ip) == ToNat(net) + i
        && Usable(t[key], i) && !t[key][i]
        && (forall j :: 1 <= j < i ==> t[key][j])
        && out.table == t[key := t[key][i := true]]
  {
    var net := NetworkOf(a, p);
    var key := CidrString(net, p);
    var t := Prepared(Loaded(LoadTable(env, w, path)), key, p);
    var out := AllocSpec(env, w, path, table, V4Net(a, p));
    if out.result.Ok? {
      var i := FirstFree(t[key]).value;
      assert out.result.value == AddrAt(net, i);
      Pow2Mono(32 - p, 32);
      Pow2Facts();
      OffsetAddrAt(net, i);
      NetworkOfIsNetwork(a, p);
      AddrAtInSubnet(net, p, i);
    }
  }

  /**
   * `Alloc` reports exhaustion exactly when every usable flag of the subnet
   * is set, and then writes nothing and keeps the bitmap as it was.
   */
  lemma AllocExhausted(env: Env, w: World, path: Path, table: Table, a: Addr, p: Prefix)
    ensures var key := CidrString(NetworkOf(a, p), p);
      var t := Prepared(Loaded(LoadTable(env, w, path)), key, p);
      var out := AllocSpec(env, w, path, table, V4Net(a, p));
      && (out.result == Err(NoFreeAddress) <==> forall j :: Usable(t[key], j) ==> t[key][j])
      && (out.result == Err(NoFreeAddress) ==> out.table == t && out.world == w)
  {
    var key := CidrString(NetworkOf(a, p), p);
    var t := Prepared(Loaded(LoadTable(env, w, path)), key, p);
    match FirstFree(t[key])
    case Some(i) =>
      assert Usable(t[key], i) && !t[key][i];
    case None =>
  }

  /** A /31 or /32 subnet has no host address to hand out. */
  lemma SmallSubnetsExhausted(env: Env, w: World, path: Path, table: Table, a: Addr, p: Prefix)
    requires p >= 31
    requires SizedFor(Loaded(LoadTable(env, w, path)), CidrString(NetworkOf(a, p), p), p)
    ensures AllocSpec(env, w, path, table, V4Net(a, p)).result == Err(NoFreeAddress)
  {
    Pow2Facts();
    assert SubnetSize(p) <= 2;
    AllocExhausted(env, w, path, table, a, p);
  }

  /**
   * The first allocation in a subnet the table does not know yet returns the
   * address right after the network address, unless the dump fails.
   */
  lemma FreshSubnetFirstAddress(env: Env, w: World, path: Path, table: Table, a: Addr, p: Prefix)
    requires p <= 30
    requires CidrString(NetworkOf(a, p), p) !in Loaded(LoadTable(env, w, path))
    ensures var net := NetworkOf(a, p);
      var out := AllocSpec(env, w, path, table, V4Net(a, p));
      && (out.result.Ok? || out.result.error.DumpError?)
      && (out.result.Ok? ==> out.result.value == AddrAt(net, 1) && ToNat(out.result.value) == ToNat(net) + 1)
  {
    var net := NetworkOf(a, p);
    var key := CidrString(net, p);
    var t := Prepared(Loaded(LoadTable(env, w, path)), key, p);
    Pow2Facts();
    Pow2Mono(2, 32 - p);
    FirstFreeUnique(t[key], 1);
    AllocFirstFit(env, w, path, table, a, p);
  }

  /**
   * In an environment where nothing fails, with the table's path free to be
   * written, `Alloc` on an IPv4 subnet either succeeds or reports exhaustion.
   */
  lemma ReliableAllocSucceeds(env: Env, w: World, path: Path, table: Table, a: Addr, p: Prefix)
    requires Reliable(env) && path !in w.dirs && !UnderFile(w, path)
    requires |path| > 0 && path[|path| - 1] != '/'
    ensures var out := AllocSpec(env, w, path, table, V4Net(a, p));
      out.result.Ok? || out.result == Err(NoFreeAddress)
  {
    var net := NetworkOf(a, p);
    var key := CidrString(net, p);
    var t := Prepared(Loaded(LoadTable(env, w, path)), key, p);
    if FirstFree(t[key]).Some? {
      var i := FirstFree(t[key]).value;
      DumpSucceeds(env, w, path, SubnetTable(t[key := t[key][i := true]]));
    }
  }

  /**
   * With no table on disk yet, the first address handed out in
   * 192.168.1.0/24 is 192.168.1.1.
   */
  lemma FirstAllocExample(env: Env, w: World, path: Path, a: Addr)
    requires a == [192, 168, 1, 0]
    requires Reliable(env) && !Exists(w, path) && !UnderFile(w, path)
    requires |path| > 0 && path[|path| - 1] != '/'
    ensures AllocSpec(env, w, path, map[], V4Net(a, 24)).result == Ok([192, 168, 1, 1])
  {
    var out := AllocSpec(env, w, path, map[], V4Net(a, 24));
    LoadMissing(env, w, path);
    ReliableAllocSucceeds(env, w, path, map[], a, 24);
    FreshSubnetFirstAddress(env, w, path, map[], a, 24);
    assert out.result.Ok?;
    assert out.result.value == AddrAt(NetworkOf(a, 24), 1);
    ExampleNetwork();
    assert NetworkOf(a, 24) == a;
    ExampleFirstHost();
  }

  /** A path that is absent and can be examined holds no table. */
  lemma LoadMissing(env: Env, w: World, path: Path)
    requires path !in env.statFaults && !UnderFile(w, path) && !Exists(w, path)
    ensures LoadTable(env, w, path) == Err(StoreMissing)
  {
  }

  /**
   * With a loaded bitmap sized for the subnet, `Release` refuses exactly the
   * network address, the broadcast address and the addresses outside the
   * subnet; a refusal writes nothing.
   */
  lemma ReleaseAcceptsExactlyHosts(env: Env, w: World, path: Path, table: Table, a: Addr, p: Prefix, x: Addr)
    requires LoadTable(env, w, path).Ok?
    requires var key := CidrString(NetworkOf(a, p), p);
      key in LoadTable(env, w, path).value && SizedFor(LoadTable(env, w, path).value, key, p)
    ensures var net := NetworkOf(a, p);
      var out := ReleaseSpec(env, w, path, table, V4Net(a, p), V4Ip(x));
      && (out.result == Some(InvalidReleaseAddress) <==> NetworkOf(x, p) != net || x == net || x == Broadcast(net, p))
      && (out.result == Some(InvalidReleaseAddress) ==> out.world == w && out.table == LoadTable(env, w, path).value)
  {
    var net := NetworkOf(a, p);
    var t := LoadTable(env, w, path).value;
    var key := CidrString(net, p);
    var out := ReleaseSpec(env, w, path, table, V4Net(a, p), V4Ip(x));
    assert FlagCount(t, key) == SubnetSize(p);
    var idx := OffsetOf(net, x);
    assert out.result == Some(InvalidReleaseAddress) <==> idx == 0 || idx >= SubnetSize(p) - 1;
    NetworkOfIsNetwork(a, p);
    NonHostOffsets(net, p, x);
  }

  /** An address of a subnet the table does not know is never released. */
  lemma ReleaseUnknownSubnet(env: Env, w: World, path: Path, table: Table, a: Addr, p: Prefix, x: Addr)
    requires LoadTable(env, w, path).Ok?
    requires CidrString(NetworkOf(a, p), p) !in LoadTable(env, w, path).value
    ensures ReleaseSpec(env, w, path, table, V4Net(a, p), V4Ip(x)).result == Some(InvalidReleaseAddress)
  {
  }

  /** Without a persisted table `Release` fails, leaving the world alone and the table empty. */
  lemma ReleaseWithoutStore(env: Env, w: World, path: Path, table: Table, a: Addr, p: Prefix, x: Addr)
    requires path !in env.statFaults && !UnderFile(w, path) && !Exists(w, path)
    ensures var out := ReleaseSpec(env, w, path, table, V4Net(a, p), V4Ip(x));
      out == ReleaseOutcome(Some(LoadError(StoreMissing)), map[], w)
  {
  }

  /** Releasing the same address twice leaves the table and the files as the first release did. */
  lemma ReleaseIdempotent(env: Env, w: World, path: Path, table: Table, subnet: CidrInput, ip: IpInput)
    requires path !in env.statFaults && path !in env.readFaults
    requires ReleaseSpec(env, w, path, table, subnet, ip).result.None?
    ensures var o1 := ReleaseSpec(env, w, path, table, subnet, ip);
      var o2 := ReleaseSpec(env, o1.world, path, o1.table, subnet, ip);
      o2.result.None? && o2.table == o1.table && o2.world.files == o1.world.files
  {
    var o1 := ReleaseSpec(env, w, path, table, subnet, ip);
    assert subnet.V4Net? && ip.V4Ip?;
    assert LoadTable(env, w, path).Ok?;
    var t := LoadTable(env, w, path).value;
    var net := NetworkOf(subnet.addr, subnet.prefix);
    var key := CidrString(net, subnet.prefix);
    var idx := OffsetOf(net, ip.ip);
    assert o1.table == t[key := t[key][idx := false]];
    LoadAfterDump(env, w, path, o1.table);
    DumpLeavesFile(env, w, path, SubnetTable(o1.table));
    DumpAgain(env, w, path, SubnetTable(o1.table), SubnetTable(o1.table));
    var bits := o1.table[key];
    assert 0 <= idx < |bits| && !bits[idx];
    assert bits[idx := false] == bits;
    assert o1.table[key := bits] == o1.table;
  }

  /**
   * Releasing the address `Alloc` just returned restores the bitmap `Alloc`
   * started from, in memory and on disk.
   */
  lemma AllocReleaseRoundTrip(env: Env, w: World, path: Path, table: Table, a: Addr, p: Prefix)
    requires Reliable(env)
    requires SizedFor(Loaded(LoadTable(env, w, path)), CidrString(NetworkOf(a, p), p), p)
    requires AllocSpec(env, w, path, table, V4Net(a, p)).result.Ok?
    ensures var t := Prepared(Loaded(LoadTable(env, w, path)), CidrString(NetworkOf(a, p), p), p);
      var o1 := AllocSpec(env, w, path, table, V4Net(a, p));
      var o2 := ReleaseSpec(env, o1.world, path, o1.table, V4Net(a, p), V4Ip(o1.result.value));
      o2.result.None? && o2.table == t && o2.world.files == w.files[path := SubnetTable(t)]
  {
    var net := NetworkOf(a, p);
    var key := CidrString(net, p);
    var t := Prepared(Loaded(LoadTable(env, w, path)), key, p);
    var o1 := AllocSpec(env, w, path, table, V4Net(a, p));
    AllocFirstFit(env, w, path, table, a, p);
    var i := OffsetOf(net, o1.result.value);
    assert o1.table == t[key := t[key][i := true]];
    AllocDumped(env, w, path, table, a, p);
    LoadAfterDump(env, w, path, o1.table);
    SetThenClear(t, key, i);
    ReleaseLoaded(env, o1.world, path, o1.table, a, p, o1.result.value);
    DumpAgain(env, w, path, SubnetTable(o1.table), SubnetTable(t));
  }

  /** Setting a clear flag and clearing it again gives back the table. */
  lemma SetThenClear(t: Table, key: string, i: nat)
    requires key in t && i < |t[key]| && !t[key][i]
    ensures var t1 := t[key := t[key][i := true]];
      t1[key := t1[key][i := false]] == t
  {
    assert t[key][i := true][i := false] == t[key];
  }

  /** A successful allocation ends with a successful dump of its table from the world it started in. */
  lemma AllocDumped(env: Env, w: World, path: Path, table: Table, a: Addr, p: Prefix)
    requires AllocSpec(env, w, path, table, V4Net(a, p)).result.Ok?
    ensures var o1 := AllocSpec(env, w, path, table, V4Net(a, p));
      DumpSpec(env, w, path, SubnetTable(o1.table)) == (None, o1.world)
  {
  }

  /** With the table loaded and an offset strictly inside its bitmap, release clears that flag and dumps. */
  lemma ReleaseLoaded(env: Env, w: World, path: Path, table: Table, a: Addr, p: Prefix, x: Addr)
    requires LoadTable(env, w, path).Ok?
    requires var t := LoadTable(env, w, path).value;
      var key := CidrString(NetworkOf(a, p), p);
      key in t && 0 < OffsetOf(NetworkOf(a, p), x) < |t[key]| - 1
    ensures var t := LoadTable(env, w, path).value;
      var key := CidrString(NetworkOf(a, p), p);
      var t' := t[key := t[key][OffsetOf(NetworkOf(a, p), x) := false]];
      var (err, w') := DumpSpec(env, w, path, SubnetTable(t'));
      ReleaseSpec(env, w, path, table, V4Net(a, p), V4Ip(x))
        == ReleaseOutcome(if err.Some? then Some(DumpError(err.value)) else None, t', w')
  {
  }

  /** Two allocations in a row in the same subnet never return the same address. */
  lemma NoDoubleAllocation(env: Env, w: World, path: Path, table: Table, a: Addr, p: Prefix)
    requires path !in env.statFaults && path !in env.readFaults
    requires SizedFor(Loaded(LoadTable(env, w, path)), CidrString(NetworkOf(a, p), p), p)
    requires AllocSpec(env, w, path, table, V4Net(a, p)).result.Ok?
    ensures var o1 := AllocSpec(env, w, path, table, V4Net(a, p));
      var o2 := AllocSpec(env, o1.world, path, o1.table, V4Net(a, p));
      o2.result.Ok? ==> o2.result.value != o1.result.value
  {
    var net := NetworkOf(a, p);
    var key := CidrString(net, p);
    var o1 := AllocSpec(env, w, path, table, V4Net(a, p));
    AllocFirstFit(env, w, path, table, a, p);
    assert o1.world.files == w.files[path := SubnetTable(o1.table)];
    LoadAfterDump(env, w, path, o1.table);
    AllocFirstFit(env, o1.world, path, o1.table, a, p);
  }

  // ---------------------------------------------------------------------
  // A table too large for a single 2048-byte read

  /**
   * Starting from an empty table in a reliable environment, the first host
   * of any subnet with at least two hosts is handed out and recorded.
   */
  lemma EmptyTableFirstAddress(env: Env, w: World, path: Path, a: Addr, p: Prefix)
    requires p <= 30
    requires Reliable(env) && path !in w.dirs && !UnderFile(w, path)
    requires |path| > 0 && path[|path| - 1] != '/'
    ensures var net := NetworkOf(a, p);
      var out := AllocAfterLoad(env, w, path, net, p, map[]);
      && out.result == Ok(AddrAt(net, 1))
      && out.table == map[CidrString(net, p) := Zeros(SubnetSize(p))[1 := true]]
      && out.world.files == w.files[path := SubnetTable(out.table)]
  {
    var net := NetworkOf(a, p);
    var key := CidrString(net, p);
    var t := Prepared(map[], key, p);
    Pow2Facts();
    Pow2Mono(2, 32 - p);
    FirstFreeUnique(t[key], 1);
    DumpSucceeds(env, w, path, SubnetTable(t[key := t[key][1 := true]]));
  }

  /**
   * As written, `load` gives up on a table whose JSON text exceeds 2048
   * bytes. Once the first allocation in a subnet of 512 or more addresses
   * (a /23 or shorter prefix) has been written, the next `Alloc` starts from
   * an empty table again and hands out the same first host a second time.
   */
  lemma AsWrittenAllocatesTwice(env: Env, w: World, path: Path, a: Addr, p: Prefix)
    requires p <= 23
    requires Reliable(env) && !Exists(w, path) && !UnderFile(w, path)
    requires |path| > 0 && path[|path| - 1] != '/'
    ensures var o1 := AllocSpecAsWritten(env, w, path, map[], V4Net(a, p));
      var o2 := AllocSpecAsWritten(env, o1.world, path, o1.table, V4Net(a, p));
      o1.result == Ok(AddrAt(NetworkOf(a, p), 1)) && o2.result == o1.result
  {
    var o1 := AllocSpecAsWritten(env, w, path, map[], V4Net(a, p));
    FirstAllocTooLarge(env, w, path, a, p);
    EmptyTableFirstAddress(env, o1.world, path, a, p);
    assert AllocSpecAsWritten(env, o1.world, path, o1.table, V4Net(a, p))
      == AllocAfterLoad(env, o1.world, path, NetworkOf(a, p), p, map[]);
  }

  /**
   * As written, `Release` of the address the first allocation in a /23 or
   * larger subnet handed out fails with the load error and writes nothing,
   * where the whole-file load releases it (`AllocReleaseRoundTrip`).
   */
  lemma AsWrittenReleaseFails(env: Env, w: World, path: Path, a: Addr, p: Prefix)
    requires p <= 23
    requires Reliable(env) && !Exists(w, path) && !UnderFile(w, path)
    requires |path| > 0 && path[|path| - 1] != '/'
    ensures var o1 := AllocSpecAsWritten(env, w, path, map[], V4Net(a, p));
      var o2 := ReleaseSpecAsWritten(env, o1.world, path, o1.table, V4Net(a, p), V4Ip(AddrAt(NetworkOf(a, p), 1)));
      && o1.result == Ok(AddrAt(NetworkOf(a, p), 1))
      && o2.result == Some(LoadError(StoreMalformed)) && o2.world == o1.world
  {
    FirstAllocTooLarge(env, w, path, a, p);
  }

  /**
   * Whatever the address, the as-written `Release` refuses with the load
   * error once the stored table holds a subnet of 512 or more addresses,
   * while the whole-file load never reports a load error for that table.
   */
  lemma AsWrittenReleaseRefusesLargeTable(env: Env, w: World, path: Path, table: Table, a: Addr, p: Prefix, x: Addr, t: Table, key: string)
    requires LoadTable(env, w, path) == Ok(t) && key in t && |t[key]| >= 512
    ensures ReleaseSpecAsWritten(env, w, path, table, V4Net(a, p), V4Ip(x))
      == ReleaseOutcome(Some(LoadError(StoreMalformed)), map[], w)
    ensures var r := ReleaseSpec(env, w, path, table, V4Net(a, p), V4Ip(x)).result;
      r.None? || !r.value.LoadError?
  {
    JsonSizeLower(t, key);
    assert LoadTableAsWritten(env, w, path) == Err(StoreMalformed);
    ReleaseLoadedNoLoadError(env, w, path, table, a, p, x);
  }

  /** Once the table loads, `Release` can refuse the address or fail to dump, but never reports a load error. */
  lemma ReleaseLoadedNoLoadError(env: Env, w: World, path: Path, table: Table, a: Addr, p: Prefix, x: Addr)
    requires LoadTable(env, w, path).Ok?
    ensures var r := ReleaseSpec(env, w, path, table, V4Net(a, p), V4Ip(x)).result;
      r.None? || !r.value.LoadError?
  {
    var t := LoadTable(env, w, path).value;
    var net := NetworkOf(a, p);
    var key := CidrString(net, p);
    var idx := OffsetOf(net, x);
    if idx != 0 && idx < FlagCount(t, key) - 1 {
      var t' := t[key := t[key][idx := false]];
      var (err, w') := DumpSpec(env, w, path, SubnetTable(t'));
      assert ReleaseSpec(env, w, path, table, V4Net(a, p), V4Ip(x)).result
        == if err.Some? then Some(DumpError(err.value)) else None;
    }
  }

  /** The first as-written allocation in a /23 or larger subnet stores a table the 2048-byte read cannot take back. */
  lemma FirstAllocTooLarge(env: Env, w: World, path: Path, a: Addr, p: Prefix)
    requires p <= 23
    requires Reliable(env) && !Exists(w, path) && !UnderFile(w, path)
    requires |path| > 0 && path[|path| - 1] != '/'
    ensures var o1 := AllocSpecAsWritten(env, w, path, map[], V4Net(a, p));
      && o1.result == Ok(AddrAt(NetworkOf(a, p), 1))
      && LoadTableAsWritten(env, o1.world, path) == Err(StoreMalformed)
      && path !in o1.world.dirs && !UnderFile(o1.world, path)
  {
    var net := NetworkOf(a, p);
    var key := CidrString(net, p);
    LoadMissing(env, w, path);
    var o1 := AllocSpecAsWritten(env, w, path, map[], V4Net(a, p));
    EmptyTableFirstAddress(env, w, path, a, p);
    assert o1 == AllocAfterLoad(env, w, path, net, p, map[]);
    var t1 := o1.table;
    assert DumpSpec(env, w, path, SubnetTable(t1)).0.None?;
    LoadAfterDump(env, w, path, t1);
    DumpLeavesFile(env, w, path, SubnetTable(t1));
    Pow2Facts();
    Pow2Mono(9, 32 - p);
    assert Pow2(9) == 512;
    JsonSizeLower(t1, key);
  }

  /**
   * With the whole file read, the second allocation in a subnet sees the
   * first one and hands out the next host.
   */
  lemma CorrectedAllocatesNext(env: Env, w: World, path: Path, a: Addr, p: Prefix)
    requires p <= 30
    requires Reliable(env) && !Exists(w, path) && !UnderFile(w, path)
    requires |path| > 0 && path[|path| - 1] != '/'
    ensures var o1 := AllocSpec(env, w, path, map[], V4Net(a, p));
      var o2 := AllocSpec(env, o1.world, path, o1.table, V4Net(a, p));
      o1.result == Ok(AddrAt(NetworkOf(a, p), 1)) && o2.result == Ok(AddrAt(NetworkOf(a, p), 2))
  {
    var net := NetworkOf(a, p);
    var key := CidrString(net, p);
    LoadMissing(env, w, path);
    var o1 := AllocSpec(env, w, path, map[], V4Net(a, p));
    EmptyTableFirstAddress(env, w, path, a, p);
    assert o1 == AllocAfterLoad(env, w, path, net, p, map[]);
    var t1 := o1.table;
    assert DumpSpec(env, w, path, SubnetTable(t1)).0.None?;
    LoadAfterDump(env, w, path, t1);
    DumpLeavesFile(env, w, path, SubnetTable(t1));
    var bits := t1[key];
    Pow2Facts();
    Pow2Mono(2, 32 - p);
    assert bits[1] && !bits[2] && |bits| >= 4;
    FirstFreeUnique(bits, 2);
    DumpSucceeds(env, o1.world, path, SubnetTable(t1[key := bits[2 := true]]));
  }
}
