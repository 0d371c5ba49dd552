/**
 * How the bridge driver's NAT rule relates to the address manager: the
 * subnet the rule masquerades is the one that holds the allocated gateway.
 */
module BridgeFacts {
  import opened IPv4
  import opened Documents
  import opened HostOs
  import opened Ipam
  import opened IpamFacts
  import opened Bridge

  /**
   * The NAT rule a creation installs (`Bridge.ReliableCreateNetwork`) names
   * the subnet of the gateway `Alloc` handed out: the rule's `-s` text is
   * the gateway's own network and prefix, and it names an address's network
   * exactly when that address shares the gateway's network.
   */
  lemma NatRuleCoversGateway(env: Env, w: World, path: Path, table: Table, a: Addr, p: Prefix, name: string, x: Addr)
    requires SizedFor(Loaded(LoadTable(env, w, path)), CidrString(NetworkOf(a, p), p), p)
    requires AllocSpec(env, w, path, table, V4Net(a, p)).result.Ok?
    ensures var g := AllocSpec(env, w, path, table, V4Net(a, p)).result.value;
      var argv := NatRule(CidrString(NetworkOf(a, p), p), name);
      && argv[6] == CidrString(NetworkOf(g, p), p)
      && (CidrString(NetworkOf(x, p), p) == argv[6] <==> NetworkOf(x, p) == NetworkOf(g, p))
  {
    AllocFirstFit(env, w, path, table, a, p);
    NatRuleHasShape(CidrString(NetworkOf(a, p), p), name);
    if CidrString(NetworkOf(x, p), p) == CidrString(NetworkOf(a, p), p) {
      CidrStringInjective(NetworkOf(x, p), p, NetworkOf(a, p), p);
    }
  }
}
