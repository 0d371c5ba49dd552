/**
 * The host addresses of a subnet: everything between the network address
 * (offset 0) and the broadcast address (the last offset), and the worked
 * example of 192.168.1.0/24.
 */
module HostAddresses {
  import opened IPv4

  /** The last address of the subnet. */
  function Broadcast(net: Addr, p: Prefix): Addr
  {
    AddrAt(net, SubnetSize(p) - 1)
  }

  /** The first offset of a subnet is its network address. */
  lemma AddrAtZero(net: Addr)
    ensures AddrAt(net, 0) == net
  {
    var z := AddrAt(net, 0);
    assert z[0] == AddByte(net[0], Digit(0, 0)) == AddByte(net[0], 0) == net[0];
    assert z[1] == AddByte(net[1], Digit(0, 1)) == AddByte(net[1], 0) == net[1];
    assert z[2] == AddByte(net[2], Digit(0, 2)) == AddByte(net[2], 0) == net[2];
    assert z[3] == AddByte(net[3], Digit(0, 3)) == AddByte(net[3], 0) == net[3];
  }

  /**
   * Offsets 0 and beyond the last host are exactly the network address, the
   * broadcast address and the addresses outside the subnet.
   */
  lemma NonHostOffsets(net: Addr, p: Prefix, x: Addr)
    requires IsNetwork(net, p)
    ensures var idx := OffsetOf(net, x);
      (idx == 0 || idx >= SubnetSize(p) - 1) <==> (NetworkOf(x, p) != net || x == net || x == Broadcast(net, p))
  {
    var size := SubnetSize(p);
    var idx := OffsetOf(net, x);
    var last: nat := size - 1;
    LastOffsetFits(p);
    InSubnetIffOffset(net, p, x);
    AddrAtZero(net);
    OffsetIffAddrAt(net, 0, x);
    OffsetIffAddrAt(net, last, x);
    BroadcastIsLast(net, p);
    var inSubnet, isNetwork, isBroadcast := NetworkOf(x, p) == net, x == net, x == Broadcast(net, p);
    assert inSubnet <==> idx < size;
    assert isNetwork <==> idx == 0;
    assert isBroadcast <==> idx == size - 1;
  }

  lemma LastOffsetFits(p: Prefix)
    ensures SubnetSize(p) - 1 < Pow2(32)
  {
    Pow2Mono(32 - p, 32);
  }

  lemma BroadcastIsLast(net: Addr, p: Prefix)
    ensures Broadcast(net, p) == AddrAt(net, SubnetSize(p) - 1)
  {
  }

  /** `AddrAt` and `OffsetOf` are inverse: an address has offset `i` exactly when it is the address at `i`. */
  lemma OffsetIffAddrAt(net: Addr, i: nat, x: Addr)
    requires i < Pow2(32)
    ensures OffsetOf(net, x) == i <==> x == AddrAt(net, i)
  {
    AddrAtOffset(net, x);
    OffsetAddrAt(net, i);
  }

  /** 192.168.1.0 is the network address of its /24. */
  lemma ExampleNetwork()
    ensures NetworkOf([192, 168, 1, 0], 24) == [192, 168, 1, 0]
  {
    assert Pow2(0) == 1;
    assert HostBitsIn(24, 0) == 0 && HostBitsIn(24, 1) == 0 && HostBitsIn(24, 2) == 0 && HostBitsIn(24, 3) == 8;
    assert MaskByte(192, 0) == 192 && MaskByte(168, 0) == 168 && MaskByte(1, 0) == 1 && MaskByte(0, 8) == 0;
  }

  /** A small offset only moves the last byte, when that byte does not overflow. */
  lemma LowOffset(net: Addr, i: nat)
    requires i < 256 && net[3] + i < 256
    ensures AddrAt(net, i) == [net[0], net[1], net[2], net[3] + i]
  {
    assert Digit(i, 0) == 0 by { assert Weight(0) == 16777216; }
    assert Digit(i, 1) == 0 by { assert Weight(1) == 65536; }
    assert Digit(i, 2) == 0 by { assert Weight(2) == 256; }
    assert Digit(i, 3) == i by { assert Weight(3) == 1; }
    var z := AddrAt(net, i);
    assert z[0] == net[0] && z[1] == net[1] && z[2] == net[2] && z[3] == net[3] + i;
  }

  /** The first host of 192.168.1.0/24. */
  lemma ExampleFirstHost()
    ensures AddrAt([192, 168, 1, 0], 1) == [192, 168, 1, 1]
  {
    LowOffset([192, 168, 1, 0], 1);
  }

  /** 172.18.0.0 is the network address of its /16. */
  lemma Slash16Network()
    ensures NetworkOf([172, 18, 0, 0], 16) == [172, 18, 0, 0]
  {
    assert Pow2(0) == 1;
    assert HostBitsIn(16, 0) == 0 && HostBitsIn(16, 1) == 0 && HostBitsIn(16, 2) == 8 && HostBitsIn(16, 3) == 8;
    assert MaskByte(172, 0) == 172 && MaskByte(18, 0) == 18 && MaskByte(0, 8) == 0;
  }

  /** The first two hosts of 172.18.0.0/16. */
  lemma Slash16Hosts()
    ensures AddrAt([172, 18, 0, 0], 1) == [172, 18, 0, 1]
    ensures AddrAt([172, 18, 0, 0], 2) == [172, 18, 0, 2]
  {
    LowOffset([172, 18, 0, 0], 1);
    LowOffset([172, 18, 0, 0], 2);
  }
}
