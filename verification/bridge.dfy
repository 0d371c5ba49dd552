/**
 * The bridge network driver, over the kernel's table of network links. A
 * network is a Linux bridge named after it, holding the gateway address,
 * brought up, with a masquerading NAT rule for traffic that leaves the
 * subnet by another interface. A container joins it through a veth pair
 * whose host end is enslaved to the bridge.
 */
module Bridge {
  import opened Wrappers
  import opened Strings
  import opened Decimal
  import opened IPv4
  import opened Documents
  import opened Ipam

  const BridgeName: string := "bridge"

  // ---------------------------------------------------------------------
  // The kernel

  datatype LinkKind = BridgeLink | VethLink(peer: string) | VethPeer(of: string)

  /** A network link: its index, kind, master's index, whether it is up, and its addresses. */
  datatype Link = Link(index: nat, kind: LinkKind, master: Option<nat>, up: bool, addrs: seq<(Addr, Prefix)>)

  /** The kernel calls that change something, as the driver makes them. */
  datatype KernelCall =
    | AddBridge(name: string)
    | AddAddr(name: string, ip: Addr, prefix: Prefix)
    | SetUp(name: string)
    | AddVeth(name: string, peer: string, master: nat)
    | DelLink(name: string)
    | Iptables(argv: seq<string>)

  /**
   * The links, the next free link index, how many link lookups have been
   * made, the NAT rules installed, and every changing call attempted.
   */
  datatype KernelState = KernelState(
    links: map<string, Link>,
    nextIndex: nat,
    lookups: nat,
    natRules: seq<seq<string>>,
    calls: seq<KernelCall>)

  /**
   * What fails for reasons outside the model: calls, the lookups with the
   * given sequence numbers (`LinkByName` can fail transiently), and the
   * interface queries for the given names.
   */
  datatype KernelEnv = KernelEnv(faults: set<KernelCall>, lookupFaults: set<nat>, queryFaults: set<string>)

  predicate ReliableKernel(ke: KernelEnv)
  {
    ke.faults == {} && ke.lookupFaults == {} && ke.queryFaults == {}
  }

  datatype BridgeError =
    | BadSubnet
    | InterfaceExists(name: string)
    | QueryFailed(name: string)
    | InterfaceNotFound(name: string)
    | CallFailed(call: KernelCall)

  /** Whether the kernel carries out `c`. */
  predicate CallSucceeds(ke: KernelEnv, s: KernelState, c: KernelCall)
  {
    c !in ke.faults &&
    match c
      case AddBridge(n) => n !in s.links
      case AddVeth(n, peer, _) => n !in s.links && peer !in s.links && n != peer
      case AddAddr(n, _, _) => n in s.links
      case SetUp(n) => n in s.links
      case DelLink(n) => n in s.links
      case Iptables(_) => true
  }

  /** What a successful call does (the call record aside). */
  function ApplyCall(s: KernelState, c: KernelCall): KernelState
    requires CallSucceeds(KernelEnv({}, {}, {}), s, c)
  {
    match c
      case AddBridge(n) =>
        s.(links := s.links[n := Link(s.nextIndex, BridgeLink, None, false, [])], nextIndex := s.nextIndex + 1)
      case AddVeth(n, peer, m) =>
        s.(links := s.links[n := Link(s.nextIndex, VethLink(peer), Some(m), false, [])]
                            [peer := Link(s.nextIndex + 1, VethPeer(n), None, false, [])],
           nextIndex := s.nextIndex + 2)
      case AddAddr(n, ip, p) => s.(links := s.links[n := s.links[n].(addrs := s.links[n].addrs + [(ip, p)])])
      case SetUp(n) => s.(links := s.links[n := s.links[n].(up := true)])
      case DelLink(n) => s.(links := s.links - {n})
      case Iptables(argv) => s.(natRules := s.natRules + [argv])
  }

  /** Attempting `c`: it is recorded, and takes effect when it succeeds. */
  function CallSpec(ke: KernelEnv, s: KernelState, c: KernelCall): (r: (Option<BridgeError>, KernelState))
    ensures r.1.calls == s.calls + [c]
    ensures r.0.None? <==> CallSucceeds(ke, s, c)
    ensures r.0.Some? ==> r == (Some(CallFailed(c)), s.(calls := s.calls + [c]))
  {
    if CallSucceeds(ke, s, c) then (None, ApplyCall(s, c).(calls := s.calls + [c]))
    else (Some(CallFailed(c)), s.(calls := s.calls + [c]))
  }

  /** Whether the lookup with sequence number `n` finds `name`. */
  predicate LookupOk(ke: KernelEnv, s: KernelState, name: string, n: nat)
  {
    name in s.links && n !in ke.lookupFaults
  }

  /** `netlink.LinkByName`: counted, and failing for a missing name or a transient fault. */
  function LookupSpec(ke: KernelEnv, s: KernelState, name: string): (r: (Option<Link>, KernelState))
  {
    var s' := s.(lookups := s.lookups + 1);
    if LookupOk(ke, s, name, s.lookups) then (Some(s.links[name]), s') else (None, s')
  }

  /** `findInterface`: up to two lookups, the first success wins. */
  function FindSpec(ke: KernelEnv, s: KernelState, name: string): (r: (Result<Link, BridgeError>, KernelState))
  {
    var (l1, s1) := LookupSpec(ke, s, name);
    if l1.Some? then (Ok(l1.value), s1)
    else
      var (l2, s2) := LookupSpec(ke, s1, name);
      if l2.Some? then (Ok(l2.value), s2) else (Err(InterfaceNotFound(name)), s2)
  }

  /**
   * `findInterface` makes one lookup when it succeeds and two otherwise,
   * changes nothing else, finds the link exactly when one of the two
   * lookups succeeds, and fails only after both failed.
   */
  lemma FindInterfaceRetries(ke: KernelEnv, s: KernelState, name: string)
    ensures var (r, s') := FindSpec(ke, s, name);
      && s' == s.(lookups := s'.lookups)
      && s'.lookups == (if LookupOk(ke, s, name, s.lookups) then s.lookups + 1 else s.lookups + 2)
      && (r.Ok? <==> LookupOk(ke, s, name, s.lookups) || LookupOk(ke, s, name, s.lookups + 1))
      && (r.Ok? ==> r.value == s.links[name])
      && (r.Err? ==> r.error == InterfaceNotFound(name))
  {
  }

  // ---------------------------------------------------------------------
  // The driver's steps

  /** `createBridgeInterface`: refuse an existing name or a failed query, then add the bridge. */
  function CreateBridgeSpec(ke: KernelEnv, s: KernelState, name: string): (r: (Option<BridgeError>, KernelState))
    ensures name in s.links ==> r == (Some(InterfaceExists(name)), s)
    ensures r.0.None? ==> name !in s.links && r.1.links == s.links[name := Link(s.nextIndex, BridgeLink, None, false, [])]
    ensures r.1.links.Keys <= s.links.Keys + {name}
  {
    if name in s.links then (Some(InterfaceExists(name)), s)
    else if name in ke.queryFaults then (Some(QueryFailed(name)), s)
    else CallSpec(ke, s, AddBridge(name))
  }

  /** `setInterfaceIp`: the address (with its prefix length) added to the link found by name. */
  function SetInterfaceIpSpec(ke: KernelEnv, s: KernelState, name: string, ip: Addr, p: Prefix): (r: (Option<BridgeError>, KernelState))
  {
    var (l, s1) := FindSpec(ke, s, name);
    if l.Err? then (Some(l.error), s1) else CallSpec(ke, s1, AddAddr(name, ip, p))
  }

  /** `setUpInterface`. */
  function SetUpInterfaceSpec(ke: KernelEnv, s: KernelState, name: string): (r: (Option<BridgeError>, KernelState))
  {
    var (l, s1) := FindSpec(ke, s, name);
    if l.Err? then (Some(l.error), s1) else CallSpec(ke, s1, SetUp(name))
  }

  /** The iptables command line of `setUpIpTables`. */
  function NatRule(subnet: string, name: string): seq<string>
  {
    ["iptables", "-t", "nat", "-A", "POSTROUTING", "-s", subnet, "!", "-o", name, "-j", "MASQUERADE"]
  }

  /**
   * The rule appends to the nat table's POSTROUTING chain a MASQUERADE
   * target for source `-s` the subnet's text and output interface anything
   * but the bridge (`! -o`); that source text splits at '/' into the
   * network address's dotted quad and the prefix length. Which subnet this
   * is, relative to the gateway, is `BridgeFacts.NatRuleCoversGateway`.
   */
  lemma NatRuleMatches(net: Addr, p: Prefix, name: string)
    ensures var argv := NatRule(CidrString(net, p), name);
      && NatRuleShape(argv, CidrString(net, p), name)
      && Split(argv[6], '/') == [DottedQuad(net), NatToString(p)]
  {
    NatRuleHasShape(CidrString(net, p), name);
    CidrStringParts(net, p);
  }

  /** The words of a masquerading rule for `subnet` leaving by any interface other than `name`. */
  predicate NatRuleShape(argv: seq<string>, subnet: string, name: string)
  {
    && |argv| == 12 && argv[0] == "iptables"
    && argv[1] == "-t" && argv[2] == "nat" && argv[3] == "-A" && argv[4] == "POSTROUTING"
    && argv[5] == "-s" && argv[6] == subnet
    && argv[7] == "!" && argv[8] == "-o" && argv[9] == name && argv[10] == "-j" && argv[11] == "MASQUERADE"
  }

  lemma NatRuleHasShape(subnet: string, name: string)
    ensures NatRuleShape(NatRule(subnet, name), subnet, name)
  {
  }

  function SetUpIpTablesSpec(ke: KernelEnv, s: KernelState, name: string, subnet: string): (r: (Option<BridgeError>, KernelState))
  {
    CallSpec(ke, s, Iptables(NatRule(subnet, name)))
  }

  /** The calls a network's creation makes, in order. */
  function CreatePlan(name: string, gateway: Addr, p: Prefix, subnet: string): seq<KernelCall>
  {
    [AddBridge(name), AddAddr(name, gateway, p), SetUp(name), Iptables(NatRule(subnet, name))]
  }

  /**
   * `CreateNetwork`: bridge, address (the gateway with the subnet's mask),
   * up, NAT rule; the first failure ends it and nothing done is undone.
   */
  function CreateNetworkSpec(ke: KernelEnv, s: KernelState, name: string, subnet: CidrInput, gateway: Addr)
    : (r: (Result<NetworkRecord, BridgeError>, KernelState))
    ensures r.0.Ok? ==> (subnet.V4Net? &&
      r.0.value == NetworkRecord(name, CidrString(NetworkOf(subnet.addr, subnet.prefix), subnet.prefix), Some(gateway), BridgeName))
  {
    match subnet
      case Unparsable => (Err(BadSubnet), s)
      case NonIPv4Net => (Err(BadSubnet), s)
      case V4Net(a, p) => BuildSpec(ke, s, name, gateway, p, CidrString(NetworkOf(a, p), p))
  }

  /** The four kernel steps of `CreateNetwork`, for the subnet written as `text`. */
  function BuildSpec(ke: KernelEnv, s: KernelState, name: string, gateway: Addr, p: Prefix, text: string)
    : (r: (Result<NetworkRecord, BridgeError>, KernelState))
    ensures r.0.Ok? ==> r.0.value == NetworkRecord(name, text, Some(gateway), BridgeName)
  {
    var (e1, s1) := CreateBridgeSpec(ke, s, name);
    if e1.Some? then (Err(e1.value), s1)
    else
      var (e2, s2) := SetInterfaceIpSpec(ke, s1, name, gateway, p);
      if e2.Some? then (Err(e2.value), s2)
      else
        var (e3, s3) := SetUpInterfaceSpec(ke, s2, name);
        if e3.Some? then (Err(e3.value), s3)
        else
          var (e4, s4) := SetUpIpTablesSpec(ke, s3, name, text);
          if e4.Some? then (Err(e4.value), s4)
          else (Ok(NetworkRecord(name, text, Some(gateway), BridgeName)), s4)
  }

  /**
   * The calls `CreateNetwork` makes are a prefix of the plan, all of it on
   * success; no link disappears, so a failure leaves what was done in place.
   */
  lemma CreateNetworkCalls(ke: KernelEnv, s: KernelState, name: string, gateway: Addr, p: Prefix, text: string)
    ensures var (r, s') := BuildSpec(ke, s, name, gateway, p, text);
      var plan := CreatePlan(name, gateway, p, text);
      && (exists k :: 0 <= k <= 4 && s'.calls == s.calls + plan[..k] && (r.Ok? ==> k == 4))
      && s.links.Keys <= s'.links.Keys
  {
    var plan := CreatePlan(name, gateway, p, text);
    var (e1, s1) := CreateBridgeSpec(ke, s, name);
    if e1.Some? {
      assert s1.calls == s.calls + plan[..0] || s1.calls == s.calls + plan[..1];
      return;
    }
    assert s1.calls == s.calls + plan[..1];
    FindInterfaceRetries(ke, s1, name);
    var (e2, s2) := SetInterfaceIpSpec(ke, s1, name, gateway, p);
    if e2.Some? {
      assert s2.calls == s.calls + plan[..1] || s2.calls == s.calls + plan[..2];
      return;
    }
    assert s2.calls == s.calls + plan[..2];
    FindInterfaceRetries(ke, s2, name);
    var (e3, s3) := SetUpInterfaceSpec(ke, s2, name);
    if e3.Some? {
      assert s3.calls == s.calls + plan[..2] || s3.calls == s.calls + plan[..3];
      return;
    }
    assert s3.calls == s.calls + plan[..3];
    var (e4, s4) := SetUpIpTablesSpec(ke, s3, name, text);
    assert s4.calls == s.calls + plan[..4];
  }

  /**
   * With nothing failing, a new name becomes an up bridge holding the
   * gateway address with the subnet's prefix, and the NAT rule for the
   * subnet is installed.
   */
  lemma ReliableCreateNetwork(ke: KernelEnv, s: KernelState, name: string, a: Addr, p: Prefix, gateway: Addr)
    requires ReliableKernel(ke) && name !in s.links
    ensures var (r, s') := CreateNetworkSpec(ke, s, name, V4Net(a, p), gateway);
      var text := CidrString(NetworkOf(a, p), p);
      && r == Ok(NetworkRecord(name, text, Some(gateway), BridgeName))
      && s'.links == s.links[name := Link(s.nextIndex, BridgeLink, None, true, [(gateway, p)])]
      && s'.natRules == s.natRules + [NatRule(text, name)]
  {
    ReliableBuild(ke, s, name, gateway, p, CidrString(NetworkOf(a, p), p));
  }

  lemma ReliableBuild(ke: KernelEnv, s: KernelState, name: string, gateway: Addr, p: Prefix, text: string)
    requires ReliableKernel(ke) && name !in s.links
    ensures var (r, s') := BuildSpec(ke, s, name, gateway, p, text);
      && r == Ok(NetworkRecord(name, text, Some(gateway), BridgeName))
      && s'.links == s.links[name := Link(s.nextIndex, BridgeLink, None, true, [(gateway, p)])]
      && s'.natRules == s.natRules + [NatRule(text, name)]
  {
    var bridge := Link(s.nextIndex, BridgeLink, None, false, []);
    var (e1, s1) := CreateBridgeSpec(ke, s, name);
    assert e1.None? && s1.links == s.links[name := bridge] && s1.natRules == s.natRules;
    ReliableSetIp(ke, s1, name, gateway, p);
    var (e2, s2) := SetInterfaceIpSpec(ke, s1, name, gateway, p);
    assert s1.links[name] == bridge;
    assert bridge.addrs + [(gateway, p)] == [(gateway, p)];
    Overwrite(s.links, name, bridge, bridge.(addrs := [(gateway, p)]));
    assert s2.links == s.links[name := bridge.(addrs := [(gateway, p)])];
    assert s2.links[name] == bridge.(addrs := [(gateway, p)]);
    ReliableSetUp(ke, s2, name);
    var (e3, s3) := SetUpInterfaceSpec(ke, s2, name);
    Overwrite(s.links, name, bridge.(addrs := [(gateway, p)]), Link(s.nextIndex, BridgeLink, None, true, [(gateway, p)]));
    assert s3.links == s.links[name := Link(s.nextIndex, BridgeLink, None, true, [(gateway, p)])];
  }

  lemma Overwrite(m: map<string, Link>, k: string, a: Link, b: Link)
    ensures m[k := a][k := b] == m[k := b]
  {
  }

  lemma ReliableSetIp(ke: KernelEnv, s: KernelState, name: string, ip: Addr, p: Prefix)
    requires ReliableKernel(ke) && name in s.links
    ensures var (e, s') := SetInterfaceIpSpec(ke, s, name, ip, p);
      && e.None? && s'.natRules == s.natRules && s'.nextIndex == s.nextIndex
      && s'.links == s.links[name := s.links[name].(addrs := s.links[name].addrs + [(ip, p)])]
  {
    FindInterfaceRetries(ke, s, name);
  }

  lemma ReliableSetUp(ke: KernelEnv, s: KernelState, name: string)
    requires ReliableKernel(ke) && name in s.links
    ensures var (e, s') := SetUpInterfaceSpec(ke, s, name);
      && e.None? && s'.natRules == s.natRules && s'.nextIndex == s.nextIndex
      && s'.links == s.links[name := s.links[name].(up := true)]
  {
    FindInterfaceRetries(ke, s, name);
  }

  // ---------------------------------------------------------------------
  // Endpoints

  /** The host end of a container's veth pair, enslaved to the bridge with the given index. */
  datatype Veth = Veth(name: string, peerName: string, masterIndex: nat)

  /** The names of an endpoint's veth pair: the first eight characters of its id, with and without "cif-". */
  function VethOf(id: string, master: nat): Veth
    requires |id| >= 8
  {
    Veth(id[..8], "cif-" + id[..8], master)
  }

  /** Both names fit the kernel's 15-character limit and differ. */
  lemma VethNames(id: string, master: nat)
    requires |id| >= 8
    ensures var v := VethOf(id, master);
      |v.name| == 8 && |v.peerName| == 12 && v.peerName[4..] == v.name && v.name != v.peerName
  {
  }

  /**
   * `ConnectToNetwork`: find the bridge, name the pair after the endpoint's
   * id (whose slicing panics when it is shorter than eight characters),
   * record it as the endpoint's device, add it, bring its host end up.
   */
  function ConnectSpec(ke: KernelEnv, s: KernelState, network: string, id: string)
    : (r: Exit<(Option<BridgeError>, Option<Veth>, KernelState)>)
    ensures r.Panicked? ==> |id| < 8
    ensures r.Returned? && r.value.1.Some? ==> |id| >= 8 && r.value.1.value.name == id[..8]
  {
    var (l, s1) := FindSpec(ke, s, network);
    if l.Err? then Returned((Some(l.error), None, s1))
    else if |id| < 8 then Panicked("slice bounds out of range")
    else
      var v := VethOf(id, l.value.index);
      var (e1, s2) := CallSpec(ke, s1, AddVeth(v.name, v.peerName, v.masterIndex));
      if e1.Some? then Returned((e1, Some(v), s2))
      else
        var (e2, s3) := CallSpec(ke, s2, SetUp(v.name));
        Returned((e2, Some(v), s3))
  }

  /** A connected endpoint's host end is up and enslaved to the network's bridge, and its peer exists. */
  lemma ConnectAttaches(ke: KernelEnv, s: KernelState, network: string, id: string)
    requires var r := ConnectSpec(ke, s, network, id); r.Returned? && r.value.0.None?
    ensures var (_, dev, s') := ConnectSpec(ke, s, network, id).value;
      && network in s.links && dev.Some?
      && dev.value.name in s'.links && s'.links[dev.value.name].up
      && s'.links[dev.value.name].master == Some(s.links[network].index)
      && dev.value.peerName in s'.links
  {
    FindInterfaceRetries(ke, s, network);
  }

  /** `DeleteNetwork`: find the bridge and delete it. */
  function DeleteNetworkSpec(ke: KernelEnv, s: KernelState, network: NetworkRecord): (r: (Option<BridgeError>, KernelState))
    ensures r.0.None? ==> r.1.links == s.links - {network.name}
  {
    var (l, s1) := FindSpec(ke, s, network.name);
    if l.Err? then (Some(l.error), s1) else CallSpec(ke, s1, DelLink(network.name))
  }

  /** `DisconnectFromNetwork` is not implemented and always panics. */
  function DisconnectSpec(network: NetworkRecord, id: string): (r: Exit<Option<BridgeError>>)
    ensures r.Panicked?
  {
    Panicked(NotImplemented)
  }

  // ---------------------------------------------------------------------
  // The calls themselves

  /** The kernel's link table. */
  class Kernel {
    const env: KernelEnv
    var state: KernelState

    constructor (env: KernelEnv, state: KernelState)
      ensures this.env == env && this.state == state
    {
      this.env := env;
      this.state := state;
    }

    method Call(c: KernelCall) returns (err: Option<BridgeError>)
      modifies this
      ensures (err, state) == CallSpec(env, old(state), c)
    {
      err, state := CallSpec(env, state, c).0, CallSpec(env, state, c).1;
    }

    method LinkByName(name: string) returns (l: Option<Link>)
      modifies this
      ensures (l, state) == LookupSpec(env, old(state), name)
    {
      l := if LookupOk(env, state, name, state.lookups) then Some(state.links[name]) else None;
      state := state.(lookups := state.lookups + 1);
    }

    /** `findInterface`: at most two tries. */
    method FindInterface(name: string) returns (r: Result<Link, BridgeError>)
      modifies this
      ensures (r, state) == FindSpec(env, old(state), name)
    {
      var i := 0;
      while i < 2
        invariant 0 <= i <= 2
        invariant state == old(state).(lookups := old(state).lookups + i)
        invariant i >= 1 ==> !LookupOk(env, old(state), name, old(state).lookups)
        invariant i == 2 ==> !LookupOk(env, old(state), name, old(state).lookups + 1)
      {
        var l := LinkByName(name);
        if l.Some? {
          return Ok(l.value);
        }
        i := i + 1;
      }
      return Err(InterfaceNotFound(name));
    }
  }

  method CreateBridgeInterface(k: Kernel, name: string) returns (err: Option<BridgeError>)
    modifies k
    ensures (err, k.state) == CreateBridgeSpec(k.env, old(k.state), name)
  {
    if name in k.state.links {
      return Some(InterfaceExists(name));
    }
    if name in k.env.queryFaults {
      return Some(QueryFailed(name));
    }
    err := k.Call(AddBridge(name));
  }

  method SetInterfaceIp(k: Kernel, name: string, ip: Addr, p: Prefix) returns (err: Option<BridgeError>)
    modifies k
    ensures (err, k.state) == SetInterfaceIpSpec(k.env, old(k.state), name, ip, p)
  {
    var l := k.FindInterface(name);
    if l.Err? {
      return Some(l.error);
    }
    err := k.Call(AddAddr(name, ip, p));
  }

  method SetUpInterface(k: Kernel, name: string) returns (err: Option<BridgeError>)
    modifies k
    ensures (err, k.state) == SetUpInterfaceSpec(k.env, old(k.state), name)
  {
    var l := k.FindInterface(name);
    if l.Err? {
      return Some(l.error);
    }
    err := k.Call(SetUp(name));
  }

  method CreateNetwork(k: Kernel, name: string, subnet: CidrInput, gateway: Addr) returns (r: Result<NetworkRecord, BridgeError>)
    modifies k
    ensures (r, k.state) == CreateNetworkSpec(k.env, old(k.state), name, subnet, gateway)
  {
    if !subnet.V4Net? {
      return Err(BadSubnet);
    }
    var p := subnet.prefix;
    var text := CidrString(NetworkOf(subnet.addr, p), p);
    var err := CreateBridgeInterface(k, name);
    if err.Some? {
      return Err(err.value);
    }
    err := SetInterfaceIp(k, name, gateway, p);
    if err.Some? {
      return Err(err.value);
    }
    err := SetUpInterface(k, name);
    if err.Some? {
      return Err(err.value);
    }
    err := k.Call(Iptables(NatRule(text, name)));
    if err.Some? {
      return Err(err.value);
    }
    return Ok(NetworkRecord(name, text, Some(gateway), BridgeName));
  }

  /** A container's network endpoint; connecting it records its device. */
  class Endpoint {
    const id: string
    var device: Option<Veth>

    constructor (id: string)
      ensures this.id == id && device == None
    {
      this.id := id;
      device := None;
    }
  }

  method ConnectToNetwork(k: Kernel, network: NetworkRecord, endpoint: Endpoint) returns (r: Exit<Option<BridgeError>>)
    modifies k, endpoint
    ensures var spec := ConnectSpec(k.env, old(k.state), network.name, endpoint.id);
      && (r.Panicked? <==> spec.Panicked?)
      && (r.Returned? ==> (r.value == spec.value.0 && k.state == spec.value.2
            && endpoint.device == if spec.value.1.Some? then spec.value.1 else old(endpoint.device)))
  {
    var l := k.FindInterface(network.name);
    if l.Err? {
      return Returned(Some(l.error));
    }
    if |endpoint.id| < 8 {
      return Panicked("slice bounds out of range");
    }
    var v := VethOf(endpoint.id, l.value.index);
    endpoint.device := Some(v);
    var err := k.Call(AddVeth(v.name, v.peerName, v.masterIndex));
    if err.Some? {
      return Returned(err);
    }
    err := k.Call(SetUp(v.name));
    return Returned(err);
  }

  method DeleteNetwork(k: Kernel, network: NetworkRecord) returns (err: Option<BridgeError>)
    modifies k
    ensures (err, k.state) == DeleteNetworkSpec(k.env, old(k.state), network)
  {
    var l := k.FindInterface(network.name);
    if l.Err? {
      return Some(l.error);
    }
    err := k.Call(DelLink(network.name));
  }
}
