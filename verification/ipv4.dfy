/**
 * IPv4 addresses as four bytes, the subnet arithmetic the address manager
 * performs on them, and the canonical `a.b.c.d/n` text of a subnet that
 * Go's `(*net.IPNet).String` produces and the manager uses as a table key.
 */
module IPv4 {
  import opened Strings
  import opened Decimal

  type byte = x: int | 0 <= x < 256

  /** A 4-byte address, as `net.IP.To4` returns it; byte 0 is the most significant. */
  type Addr = s: seq<byte> | |s| == 4 witness [0, 0, 0, 0]

  /** The number of leading one bits of an IPv4 mask. */
  type Prefix = p: nat | p <= 32

  function Pow2(n: nat): (r: nat)
    ensures r >= 1
  {
    if n == 0 then 1 else 2 * Pow2(n - 1)
  }

  /** The place value of byte `j`: `1 << ((3 - j) * 8)`. */
  function Weight(j: nat): (w: nat)
    requires j < 4
    ensures w == Pow2(8 * (3 - j))
  {
    Pow2Facts();
    if j == 0 then 16777216 else if j == 1 then 65536 else if j == 2 then 256 else 1
  }

  /** The address read as an unsigned 32-bit number. */
  function ToNat(a: Addr): (n: nat)
    ensures n < Pow2(32)
  {
    Pow2Facts();
    (a[0] as int) * 16777216 + (a[1] as int) * 65536 + (a[2] as int) * 256 + (a[3] as int)
  }

  /** How many of the host (non-prefix) bits fall into byte `j`. */
  function HostBitsIn(p: Prefix, j: nat): (hb: nat)
    requires j < 4
    ensures hb <= 8
  {
    if 8 * (j + 1) <= p then 0 else if p <= 8 * j then 8 else 8 * (j + 1) - p
  }

  /** A byte with its `hb` low bits cleared. */
  function MaskByte(b: byte, hb: nat): (r: byte)
    requires hb <= 8
    ensures r <= b && r % Pow2(hb) == 0
  {
    RoundDown(b, Pow2(hb));
    b - b % Pow2(hb)
  }

  /** Clearing the remainder leaves a multiple of the divisor. */
  lemma RoundDown(x: nat, m: nat)
    requires m > 0
    ensures 0 <= x - x % m <= x && (x - x % m) % m == 0
  {
    ModAtMost(x, m);
    var y := x - x % m;
    var d := x / m - y / m;
    assert y == m * (x / m);
    assert y == m * (y / m) + y % m;
    assert y % m == m * d;
  }

  /** The remainder of a natural number is at most the number itself. */
  lemma ModAtMost(x: nat, m: nat)
    requires m > 0
    ensures x % m <= x
  {
    if x >= m {
      assert x / m >= 1;
      assert m * (x / m) >= m;
    }
  }

  /** The network address of `a` under prefix `p` (what `net.ParseCIDR` returns as `IPNet.IP`). */
  function NetworkOf(a: Addr, p: Prefix): Addr
  {
    [MaskByte(a[0], HostBitsIn(p, 0)), MaskByte(a[1], HostBitsIn(p, 1)),
     MaskByte(a[2], HostBitsIn(p, 2)), MaskByte(a[3], HostBitsIn(p, 3))]
  }

  predicate IsNetwork(net: Addr, p: Prefix)
  {
    NetworkOf(net, p) == net
  }

  /** The number of addresses of a subnet, `1 << (32 - p)`. */
  function SubnetSize(p: Prefix): (n: nat)
    ensures n >= 1
  {
    Pow2(32 - p)
  }

  /** Byte `j` of offset `i`: `byte(i >> ((3 - j) * 8))`, truncated to its low 8 bits. */
  function Digit(i: nat, j: nat): (d: byte)
    requires j < 4
  {
    (i / Weight(j)) % 256
  }

  /** Add a byte with wrap-around, as `+=` on a Go `byte` does. */
  function AddByte(b: byte, d: byte): byte
  {
    (b + d) % 256
  }

  /** Subtract a byte with wrap-around, as `-` on Go `byte`s does. */
  function SubByte(b: byte, d: byte): byte
  {
    (b - d) % 256
  }

  /** The address at offset `i` of network `net`: every byte gets the matching byte of `i` added. */
  function AddrAt(net: Addr, i: nat): Addr
  {
    [AddByte(net[0], Digit(i, 0)), AddByte(net[1], Digit(i, 1)),
     AddByte(net[2], Digit(i, 2)), AddByte(net[3], Digit(i, 3))]
  }

  /** The offset of `ip` from `net`: the wrapped byte differences shifted into place and summed. */
  function OffsetOf(net: Addr, ip: Addr): (o: nat)
    ensures o < Pow2(32)
  {
    Pow2Facts();
    (SubByte(ip[0], net[0]) as int) * 16777216 + (SubByte(ip[1], net[1]) as int) * 65536
      + (SubByte(ip[2], net[2]) as int) * 256 + (SubByte(ip[3], net[3]) as int)
  }

  /** The dotted-quad text of an address. */
  function DottedQuad(a: Addr): string
  {
    Join([NatToString(a[0]), NatToString(a[1]), NatToString(a[2]), NatToString(a[3])], '.')
  }

  /** `(*net.IPNet).String()` of an IPv4 network with a canonical mask. */
  function CidrString(net: Addr, p: Prefix): string
  {
    Join([DottedQuad(net), NatToString(p)], '/')
  }

  // ---------------------------------------------------------------------
  // Arithmetic facts

  lemma Pow2Facts()
    ensures Pow2(0) == 1 && Pow2(1) == 2 && Pow2(2) == 4 && Pow2(3) == 8
    ensures Pow2(4) == 16 && Pow2(5) == 32 && Pow2(6) == 64 && Pow2(7) == 128 && Pow2(8) == 256
    ensures Pow2(16) == 65536 && Pow2(24) == 16777216 && Pow2(32) == 4294967296
  {
    assert Pow2(8) == 256;
    assert Pow2(16) == 65536 by { Pow2Add(8, 8); }
    assert Pow2(24) == 16777216 by { Pow2Add(16, 8); }
    assert Pow2(32) == 4294967296 by { Pow2Add(24, 8); }
  }

  lemma {:induction false} Pow2Add(a: nat, b: nat)
    ensures Pow2(a + b) == Pow2(a) * Pow2(b)
    decreases a
  {
    if a > 0 {
      Pow2Add(a - 1, b);
      assert Pow2(a + b) == 2 * Pow2(a - 1 + b);
    }
  }

  lemma {:induction false} Pow2Mono(a: nat, b: nat)
    requires a <= b
    ensures Pow2(a) <= Pow2(b)
    decreases b
  {
    if a < b {
      Pow2Mono(a, b - 1);
    }
  }

  lemma DivBound(i: nat, a: nat, b: nat)
    requires b > 0 && i < a * b
    ensures i / b < a
  {
    var q := i / b;
    assert q * b <= i;
    if q >= a {
      MulMono(a, q, b);
    }
  }

  lemma MulMono(a: nat, q: nat, b: nat)
    requires a <= q
    ensures a * b <= q * b
  {
  }

  /** An offset below 2^32 is the sum of its four bytes in place. */
  lemma Decompose(i: nat)
    requires i < 4294967296
    ensures i == Digit(i, 0) * 16777216 + Digit(i, 1) * 65536 + Digit(i, 2) * 256 + Digit(i, 3)
  {
    var a := i / 16777216;
    var r := i % 16777216;
    var b := r / 65536;
    var r2 := r % 65536;
    var c := r2 / 256;
    var d := r2 % 256;
    assert a < 256;
    assert i == a * 16777216 + b * 65536 + c * 256 + d;
    DigitsOfSum(a, b, c, d);
  }

  /** Four bytes in place can be read back one by one. */
  lemma DigitsOfSum(e0: byte, e1: byte, e2: byte, e3: byte)
    ensures var o := e0 * 16777216 + e1 * 65536 + e2 * 256 + e3;
      Digit(o, 0) == e0 && Digit(o, 1) == e1 && Digit(o, 2) == e2 && Digit(o, 3) == e3
  {
    var o := e0 * 16777216 + e1 * 65536 + e2 * 256 + e3;
    assert o / 16777216 == e0;
    assert o / 65536 == e0 * 256 + e1;
    assert o / 256 == e0 * 65536 + e1 * 256 + e2;
  }

  /** Masking is idempotent: `NetworkOf` yields a network address. */
  lemma NetworkOfIsNetwork(a: Addr, p: Prefix)
    ensures IsNetwork(NetworkOf(a, p), p)
  {
    var n := NetworkOf(a, p);
    var m := NetworkOf(n, p);
    assert m[0] == n[0] && m[1] == n[1] && m[2] == n[2] && m[3] == n[3];
  }

  /** Byte `j` of an offset below the subnet size fits into the host bits of byte `j`. */
  lemma HostDigitBound(i: nat, p: Prefix, j: nat)
    requires j < 4 && i < SubnetSize(p)
    ensures Digit(i, j) < Pow2(HostBitsIn(p, j))
  {
    var hb := HostBitsIn(p, j);
    if hb == 0 {
      Pow2Mono(32 - p, 8 * (3 - j));
      DigitBelowWeight(i, j);
    } else if hb < 8 {
      Pow2Add(hb, 8 * (3 - j));
      DivBound(i, Pow2(hb), Weight(j));
      Pow2Mono(hb, 8);
      DigitOfSmall(i, j, Pow2(hb));
    } else {
      assert Pow2(8) == 256 by { Pow2Facts(); }
    }
  }

  /** An offset below the place value of byte `j` has a zero byte `j`. */
  lemma DigitBelowWeight(i: nat, j: nat)
    requires j < 4 && i < Weight(j)
    ensures Digit(i, j) == 0
  {
  }

  /** When the shifted offset is below `m <= 256`, so is byte `j`. */
  lemma DigitOfSmall(i: nat, j: nat, m: nat)
    requires j < 4 && i / Weight(j) < m && m <= Pow2(8)
    ensures Digit(i, j) < m
  {
    Pow2Facts();
  }

  /** Adding a byte below `2^hb` to a byte whose low `hb` bits are clear neither carries nor touches the high bits. */
  lemma MaskAddNoCarry(b: byte, d: nat, hb: nat)
    requires hb <= 8 && MaskByte(b, hb) == b && d < Pow2(hb)
    ensures b + d < 256 && MaskByte((b + d) as byte, hb) == b
  {
    var m := Pow2(hb);
    Pow2Add(hb, 8 - hb);
    Pow2Facts();
    assert b % m == 0;
    NoCarry(b, d, m, Pow2(8 - hb));
    assert (b + d) % m == d;
  }

  /** `b` is a multiple of `m`, which divides 256 `t` times, and `d < m`. */
  lemma NoCarry(b: byte, d: nat, m: nat, t: nat)
    requires m > 0 && m * t == 256 && b % m == 0 && d < m
    ensures b + d < 256 && (b + d) % m == d
  {
    var k := b / m;
    assert b == m * k;
    if k >= t {
      MulMono(t, k, m);
    }
    assert k + 1 <= t;
    MulMono(k + 1, t, m);
    assert b + m <= 256;
    ModUnique(b + d, m, k, d);
  }

  lemma ModUnique(a: nat, m: nat, q: nat, r: nat)
    requires m > 0 && a == m * q + r && r < m
    ensures a % m == r
  {
    var q' := a / m;
    var r' := a % m;
    assert a == m * q' + r';
    if q' > q {
      MulMono(q + 1, q', m);
    } else if q' < q {
      MulMono(q' + 1, q, m);
    }
  }

  lemma SubAddByte(b: byte, d: byte)
    ensures SubByte(AddByte(b, d), b) == d
  {
  }

  lemma AddSubByte(b: byte, c: byte)
    ensures AddByte(b, SubByte(c, b)) == c
  {
  }

  /** `x` in place `w` followed by a remainder below `w` stays below `m` in place `w`. */
  lemma PlaceBound(x: nat, m: nat, w: nat, r: nat)
    requires x < m && r < w
    ensures x * w + r < m * w
  {
    MulMono(x + 1, m, w);
  }

  /** A byte whose masked value is the network byte differs from it by its host bits only. */
  lemma SubMasked(b: byte, nb: byte, hb: nat)
    requires hb <= 8 && MaskByte(b, hb) == nb
    ensures SubByte(b, nb) == b % Pow2(hb) < Pow2(hb)
  {
    var m := Pow2(hb);
    var r := b % m;
    assert m <= 256 by {
      Pow2Mono(hb, 8);
      Pow2Facts();
    }
    assert nb == b - r;
    assert 0 <= r < 256;
    assert SubByte(b, nb) == r % 256 == r;
  }

  // ---------------------------------------------------------------------
  // What the address manager relies on

  /** The byte-wise offset arithmetic inverts the byte-wise addition for every offset below 2^32. */
  lemma OffsetAddrAt(net: Addr, i: nat)
    requires i < Pow2(32)
    ensures OffsetOf(net, AddrAt(net, i)) == i
  {
    Pow2Facts();
    Decompose(i);
    var ip := AddrAt(net, i);
    SubAddByte(net[0], Digit(i, 0));
    SubAddByte(net[1], Digit(i, 1));
    SubAddByte(net[2], Digit(i, 2));
    SubAddByte(net[3], Digit(i, 3));
    assert SubByte(ip[0], net[0]) == Digit(i, 0) && SubByte(ip[1], net[1]) == Digit(i, 1);
    assert SubByte(ip[2], net[2]) == Digit(i, 2) && SubByte(ip[3], net[3]) == Digit(i, 3);
  }

  /** Every address is the one at its own offset: `AddrAt` and `OffsetOf` are mutually inverse. */
  lemma AddrAtOffset(net: Addr, ip: Addr)
    ensures AddrAt(net, OffsetOf(net, ip)) == ip
  {
    var o := OffsetOf(net, ip);
    DigitsOfSum(SubByte(ip[0], net[0]), SubByte(ip[1], net[1]), SubByte(ip[2], net[2]), SubByte(ip[3], net[3]));
    AddSubByte(net[0], ip[0]);
    AddSubByte(net[1], ip[1]);
    AddSubByte(net[2], ip[2]);
    AddSubByte(net[3], ip[3]);
    var r := AddrAt(net, o);
    assert r[0] == ip[0] && r[1] == ip[1] && r[2] == ip[2] && r[3] == ip[3];
  }

  lemma ByteInSubnet(net: Addr, p: Prefix, i: nat, j: nat)
    requires IsNetwork(net, p) && i < SubnetSize(p) && j < 4
    ensures net[j] + Digit(i, j) < 256
    ensures AddByte(net[j], Digit(i, j)) == net[j] + Digit(i, j)
    ensures MaskByte(AddByte(net[j], Digit(i, j)), HostBitsIn(p, j)) == net[j]
  {
    assert MaskByte(net[j], HostBitsIn(p, j)) == net[j] by {
      assert NetworkOf(net, p)[j] == MaskByte(net[j], HostBitsIn(p, j));
    }
    HostDigitBound(i, p, j);
    MaskAddNoCarry(net[j], Digit(i, j), HostBitsIn(p, j));
    AddByteExact(net[j], Digit(i, j));
  }

  /** A byte sum below 256 does not wrap. */
  lemma AddByteExact(b: byte, d: byte)
    requires b + d < 256
    ensures AddByte(b, d) == b + d
  {
  }

  /**
   * Inside a subnet the byte-wise addition is exact: the address at offset
   * `i` is the network address plus `i` as 32-bit numbers, and it lies in
   * the same subnet.
   */
  lemma AddrAtInSubnet(net: Addr, p: Prefix, i: nat)
    requires IsNetwork(net, p) && i < SubnetSize(p)
    ensures ToNat(AddrAt(net, i)) == ToNat(net) + i
    ensures NetworkOf(AddrAt(net, i), p) == net
  {
    Pow2Facts();
    Pow2Mono(32 - p, 32);
    ByteInSubnet(net, p, i, 0);
    ByteInSubnet(net, p, i, 1);
    ByteInSubnet(net, p, i, 2);
    ByteInSubnet(net, p, i, 3);
    Decompose(i);
    var a := AddrAt(net, i);
    assert a[0] == net[0] + Digit(i, 0) && a[1] == net[1] + Digit(i, 1);
    assert a[2] == net[2] + Digit(i, 2) && a[3] == net[3] + Digit(i, 3);
    var n := NetworkOf(a, p);
    assert n[0] == net[0] && n[1] == net[1] && n[2] == net[2] && n[3] == net[3];
  }

  /** The offset of an address of the subnet is below the subnet size. */
  lemma InSubnetOffsetBound(net: Addr, p: Prefix, ip: Addr)
    requires NetworkOf(ip, p) == net
    ensures OffsetOf(net, ip) < SubnetSize(p)
  {
    SubMasked(ip[0], net[0], HostBitsIn(p, 0));
    SubMasked(ip[1], net[1], HostBitsIn(p, 1));
    SubMasked(ip[2], net[2], HostBitsIn(p, 2));
    SubMasked(ip[3], net[3], HostBitsIn(p, 3));
    HostPartBound(SubByte(ip[0], net[0]), SubByte(ip[1], net[1]), SubByte(ip[2], net[2]), SubByte(ip[3], net[3]), p);
  }

  /** Four bytes, each within the host bits of its position, make an offset below the subnet size. */
  lemma HostPartBound(x0: byte, x1: byte, x2: byte, x3: byte, p: Prefix)
    requires x0 < Pow2(HostBitsIn(p, 0)) && x1 < Pow2(HostBitsIn(p, 1))
    requires x2 < Pow2(HostBitsIn(p, 2)) && x3 < Pow2(HostBitsIn(p, 3))
    ensures x0 * 16777216 + x1 * 65536 + x2 * 256 + x3 < SubnetSize(p)
  {
    assert Pow2(0) == 1;
    if p <= 8 {
      PartBound(x0, 8 - p, 24, 16777216, x1 * 65536 + x2 * 256 + x3, p);
    } else if p <= 16 {
      assert x0 == 0;
      PartBound(x1, 16 - p, 16, 65536, x2 * 256 + x3, p);
    } else if p <= 24 {
      assert x0 == 0 && x1 == 0;
      PartBound(x2, 24 - p, 8, 256, x3, p);
    } else {
      assert x0 == 0 && x1 == 0 && x2 == 0;
    }
  }

  /** The byte holding the prefix boundary, with the bytes below it, stays below the subnet size. */
  lemma PartBound(x: nat, h: nat, s: nat, w: nat, low: nat, p: Prefix)
    requires s == 8 || s == 16 || s == 24
    requires w == Weight(3 - s / 8) && x < Pow2(h) && low < w && h + s == 32 - p
    ensures x * w + low < Pow2(32 - p)
  {
    PlaceBoundAt(x, h, s, w, low);
  }

  /** A digit below `2^h` at place `2^s`, plus a lower part below `2^s`, is below `2^(h + s)`. */
  lemma PlaceBoundAt(x: nat, h: nat, s: nat, w: nat, rest: nat)
    requires w == Pow2(s) && x < Pow2(h) && rest < w
    ensures x * w + rest < Pow2(h + s)
  {
    PlaceBound(x, Pow2(h), w, rest);
    Pow2Add(h, s);
  }

  /**
   * An address lies in the subnet exactly when its offset from the network
   * address is below the subnet size.
   */
  lemma InSubnetIffOffset(net: Addr, p: Prefix, ip: Addr)
    requires IsNetwork(net, p)
    ensures NetworkOf(ip, p) == net <==> OffsetOf(net, ip) < SubnetSize(p)
  {
    var o := OffsetOf(net, ip);
    if o < SubnetSize(p) {
      AddrAtOffset(net, ip);
      AddrAtInSubnet(net, p, o);
    } else if NetworkOf(ip, p) == net {
      InSubnetOffsetBound(net, p, ip);
    }
  }

  // ---------------------------------------------------------------------
  // The canonical subnet text

  lemma NatToStringNoSep(n: nat, c: char)
    requires !IsDigit(c)
    ensures c !in NatToString(n)
  {
  }

  lemma DottedQuadParts(a: Addr)
    ensures Split(DottedQuad(a), '.') == [NatToString(a[0]), NatToString(a[1]), NatToString(a[2]), NatToString(a[3])]
    ensures '/' !in DottedQuad(a)
  {
    var parts := [NatToString(a[0]), NatToString(a[1]), NatToString(a[2]), NatToString(a[3])];
    forall i | 0 <= i < 4 ensures '.' !in parts[i] && '/' !in parts[i] {
      NatToStringNoSep(a[i], '.');
      NatToStringNoSep(a[i], '/');
    }
    SplitJoin(parts, '.');
    JoinAvoids(parts, '.', '/');
  }

  /** Distinct subnets have distinct keys: the canonical text determines address and prefix. */
  lemma CidrStringInjective(a: Addr, p: Prefix, b: Addr, q: Prefix)
    requires CidrString(a, p) == CidrString(b, q)
    ensures a == b && p == q
  {
    CidrStringParts(a, p);
    CidrStringParts(b, q);
    DigitsOfNat(p);
    DigitsOfNat(q);
    var pa := Split(DottedQuad(a), '.');
    DottedQuadParts(a);
    DottedQuadParts(b);
    assert pa[0] == NatToString(a[0]) == NatToString(b[0]);
    assert pa[1] == NatToString(a[1]) == NatToString(b[1]);
    assert pa[2] == NatToString(a[2]) == NatToString(b[2]);
    assert pa[3] == NatToString(a[3]) == NatToString(b[3]);
    DigitsOfNat(a[0]); DigitsOfNat(b[0]);
    DigitsOfNat(a[1]); DigitsOfNat(b[1]);
    DigitsOfNat(a[2]); DigitsOfNat(b[2]);
    DigitsOfNat(a[3]); DigitsOfNat(b[3]);
  }

  lemma CidrStringParts(a: Addr, p: Prefix)
    ensures Split(CidrString(a, p), '/') == [DottedQuad(a), NatToString(p)]
  {
    DottedQuadParts(a);
    NatToStringNoSep(p, '/');
    SplitJoin([DottedQuad(a), NatToString(p)], '/');
  }
}
