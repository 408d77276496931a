/** The subnet allocator of internal/netmgr/netmgr.go: a lowest-free-index
    search over the live indices, and the uint32 arithmetic that turns an
    index into the host and sandbox addresses of its /30. */
module Netmgr {

  const TWO30: int := 0x4000_0000
  const TWO32: int := 0x1_0000_0000

  type U8 = x: int | 0 <= x < 256
  type U32 = x: int | 0 <= x < 0x1_0000_0000

  /** An IPv4 address as its four bytes, the form `offset` works on. */
  datatype IPv4 = IPv4(a: U8, b: U8, c: U8, d: U8)

  /** Addresses are compared as the big-endian value of their bytes. */
  datatype Subnet = Subnet(index: nat, hostIP: U32, sandboxIP: U32)

  function ToU32(ip: IPv4): (u: U32) {
    0x100_0000 * ip.a + 0x1_0000 * ip.b + 0x100 * ip.c + ip.d
  }

  function FromU32(u: U32): (ip: IPv4)
    ensures ToU32(ip) == u
  {
    var h := u / 0x100;
    var hh := h / 0x100;
    IPv4(hh / 0x100, hh % 0x100, h % 0x100, u % 0x100)
  }

  /** The sum of `offset`, which wraps at 32 bits. */
  function Offset(base: U32, n: nat): U32 { (base + n) % TWO32 }

  /** `offset` as written, on bytes: unpack, add modulo 2^32, repack. */
  function OffsetBytes(base: IPv4, n: nat): (ip: IPv4)
    ensures ToU32(ip) == Offset(ToU32(base), n)
  {
    FromU32(Offset(ToU32(base), n))
  }

  /** Packing and unpacking lose nothing, so equal values have equal bytes. */
  lemma BytesRoundTrip(x: IPv4)
    ensures FromU32(ToU32(x)) == x
  {
    var y := FromU32(ToU32(x));
    TopDigit(x.a, 0x1_0000 * x.b + 0x100 * x.c + x.d, y.a, 0x1_0000 * y.b + 0x100 * y.c + y.d, 0x100_0000);
    TopDigit(x.b, 0x100 * x.c + x.d, y.b, 0x100 * y.c + y.d, 0x1_0000);
    TopDigit(x.c, x.d, y.c, y.d, 0x100);
  }

  lemma TopDigit(h: int, l: nat, h': int, l': nat, w: nat)
    requires l < w && l' < w && w * h + l == w * h' + l'
    ensures h == h' && l == l'
  {
    if h < h' {
      TopDigitLess(h, l, h', l', w);
    } else if h' < h {
      TopDigitLess(h', l', h, l, w);
    }
  }

  lemma TopDigitLess(h: int, l: nat, h': int, l': nat, w: nat)
    requires l < w && h < h'
    ensures w * h + l < w * h' + l'
  {
    assert w * (h + 1) <= w * h';
  }

  function HostIP(base: U32, k: nat): U32 { Offset(base, 4 * k + 1) }

  function SandboxIP(base: U32, k: nat): U32 { Offset(base, 4 * k + 2) }

  function SubnetAt(base: U32, k: nat): Subnet {
    Subnet(k, HostIP(base, k), SandboxIP(base, k))
  }

  /** The /30 network an address belongs to, under the mask CIDRMask(30, 32). */
  function Network30(ip: U32): int { ip / 4 }

  /** The /16 network an address belongs to. */
  function Network16(ip: U32): int { ip / 0x1_0000 }

  // ----- address arithmetic -----

  /** Reducing the index modulo 2^30 does not change the address. */
  lemma IndexWraps(base: U32, k: nat, o: nat)
    requires o < 4
    ensures Offset(base, 4 * k + o) == Offset(base, 4 * (k % TWO30) + o)
  {
    var q := k / TWO30;
    assert base + 4 * k + o == base + 4 * (k % TWO30) + o + TWO32 * q;
  }

  /** Two indices share a sandbox address exactly when they agree modulo 2^30. */
  lemma SandboxIPCollision(base: U32, i: nat, j: nat)
    ensures SandboxIP(base, i) == SandboxIP(base, j) <==> i % TWO30 == j % TWO30
  {
    IndexWraps(base, i, 2);
    IndexWraps(base, j, 2);
  }

  /** A host-side address is never a sandbox-side address, even when the sum wraps. */
  lemma HostIsNeverSandbox(base: U32, i: nat, j: nat)
    ensures HostIP(base, i) != SandboxIP(base, j)
  {
    IndexWraps(base, i, 1);
    IndexWraps(base, j, 2);
  }

  /** On a /16 base with zero host bits, the /30 of an index lies inside the
      base exactly when the index, reduced modulo 2^30, is below 16384. */
  lemma InsideBase(base: U32, k: nat)
    requires base % 0x1_0000 == 0
    ensures Network30(HostIP(base, k)) == Network30(SandboxIP(base, k))
    ensures Network16(SandboxIP(base, k)) == Network16(base) <==> k % TWO30 < 16384
    ensures Network16(HostIP(base, k)) == Network16(base) <==> k % TWO30 < 16384
  {
    var b, m := base / 0x1_0000, k % TWO30;
    IndexWraps(base, k, 1);
    IndexWraps(base, k, 2);
    InsideBaseAt(b, m, 1);
    InsideBaseAt(b, m, 2);
  }

  lemma InsideBaseAt(b: nat, m: nat, o: nat)
    requires b < 0x1_0000 && m < TWO30 && o < 4
    ensures Network16(Offset(0x1_0000 * b, 4 * m + o)) == b <==> m < 16384
    ensures Network30(Offset(0x1_0000 * b, 4 * m + o)) == (0x4000 * b + m) % TWO30
  {
    var t := 0x1_0000 * b + 4 * m + o;
    var q := if t < TWO32 then 0 else 1;
    assert t % TWO32 == t - TWO32 * q;
    assert t - TWO32 * q == 4 * (0x4000 * b + m - TWO30 * q) + o;
  }

  /** Reducing modulo 2^32 keeps the remainder by 4. */
  lemma WrapKeepsRemainder(x: nat)
    ensures x % TWO32 % 4 == x % 4
  {
    FoursDropOut(x % TWO32, TWO30 * (x / TWO32));
  }

  lemma FoursDropOut(r: nat, m: nat)
    ensures (4 * m + r) % 4 == r % 4
  {
    assert 4 * m + r == 4 * (m + r / 4) + r % 4;
  }

  lemma SameRemainderApart(x: nat, y: nat)
    requires x % 4 == y % 4 && x != y
    ensures x / 4 != y / 4
  {
    assert x == 4 * (x / 4) + x % 4 && y == 4 * (y / 4) + y % 4;
  }

  lemma SandboxRemainder(base: U32, k: nat)
    requires base % 4 == 0
    ensures SandboxIP(base, k) % 4 == 2
  {
    AddressRemainder(base, k, 2);
  }

  lemma DistinctAddresses(base: U32, i: nat, j: nat)
    requires i < TWO30 && j < TWO30 && i != j
    ensures SandboxIP(base, i) != SandboxIP(base, j)
  {
    SandboxIPCollision(base, i, j);
  }

  lemma HostRemainder(base: U32, k: nat)
    requires base % 4 == 0
    ensures HostIP(base, k) % 4 == 1
  {
    AddressRemainder(base, k, 1);
  }

  lemma AddressRemainder(base: U32, k: nat, o: nat)
    requires base % 4 == 0 && o < 4
    ensures Offset(base, 4 * k + o) % 4 == o
  {
    WrapKeepsRemainder(base + (4 * k + o));
    FoursDropOut(o, base / 4 + k);
    assert base + (4 * k + o) == 4 * (base / 4 + k) + o;
  }

  /** The two addresses of an index are the first and the second behind the network
      address of one /30, whose fourth is the broadcast address. */
  lemma AddressesInTheirNetwork(base: U32, k: nat)
    requires base % 4 == 0
    ensures HostIP(base, k) == 4 * Network30(HostIP(base, k)) + 1
    ensures SandboxIP(base, k) == 4 * Network30(HostIP(base, k)) + 2
  {
    HostRemainder(base, k);
    SandboxFollowsHost(base, k);
  }

  lemma SandboxFollowsHost(base: U32, k: nat)
    requires base % 4 == 0
    ensures SandboxIP(base, k) == HostIP(base, k) + 1
  {
    HostRemainder(base, k);
    var x := base + (4 * k + 1);
    assert x % TWO32 + 1 < TWO32;
    WrapStep(x);
  }

  lemma WrapStep(x: nat)
    requires x % TWO32 + 1 < TWO32
    ensures (x + 1) % TWO32 == x % TWO32 + 1
  {
  }

  /** Below the wrap they are the base plus four for each earlier index. */
  lemma AddressesInOrder(base: U32, k: nat)
    requires base + 4 * k + 2 < TWO32
    ensures HostIP(base, k) == base + 4 * k + 1 && SandboxIP(base, k) == base + 4 * k + 2
  {
  }

  /** Distinct live indices below 2^30 never share a /30. */
  lemma DisjointSubnets(base: U32, i: nat, j: nat)
    requires base % 4 == 0
    requires i < TWO30 && j < TWO30 && i != j
    ensures Network30(SandboxIP(base, i)) != Network30(SandboxIP(base, j))
  {
    DistinctAddresses(base, i, j);
    SandboxRemainder(base, i);
    SandboxRemainder(base, j);
    SameRemainderApart(SandboxIP(base, i), SandboxIP(base, j));
  }

  // ----- the search -----

  ghost predicate LeastFree(used: set<nat>, k: nat) {
    k !in used && forall j: nat :: j < k ==> j in used
  }

  /** Pigeonhole: an index below which everything is used is at most the number in use. */
  lemma {:induction false} InitialSegmentBound(used: set<nat>, k: nat)
    requires forall j: nat :: j < k ==> j in used
    ensures k <= |used|
  {
    if k > 0 {
      InitialSegmentBound(used - {k - 1}, k - 1);
    }
  }

  /** The /30 of an index, both addresses, lies in the /16 of the base. */
  predicate Inside(base: U32, k: nat) {
    Network16(SandboxIP(base, k)) == Network16(HostIP(base, k)) == Network16(base)
  }

  /** Two indices share neither a /30 nor an address across sides. */
  predicate Apart(base: U32, j: nat, k: nat) {
    && Network30(SandboxIP(base, j)) != Network30(SandboxIP(base, k))
    && HostIP(base, j) != SandboxIP(base, k) && HostIP(base, k) != SandboxIP(base, j)
  }

  lemma LowIndexInside(base: U32, k: nat)
    requires base % 0x1_0000 == 0 && k < 16384
    ensures Inside(base, k)
  {
    InsideBase(base, k);
  }

  lemma DistinctApart(base: U32, j: nat, k: nat)
    requires base % 4 == 0 && j < TWO30 && k < TWO30 && j != k
    ensures Apart(base, j, k)
  {
    DisjointSubnets(base, j, k);
    HostIsNeverSandbox(base, j, k);
    HostIsNeverSandbox(base, k, j);
  }

  /** The index handed out is at most the number of live subnets, so with fewer
      than 16384 live on a /16 base the new /30 is inside the base and apart from
      every live one. */
  lemma FreshSubnet(base: U32, used: set<nat>, k: nat)
    requires base % 0x1_0000 == 0
    requires |used| < 16384 && LeastFree(used, k)
    ensures k <= |used| && Inside(base, k)
    ensures forall j :: j in used && j < TWO30 ==> Apart(base, j, k)
  {
    InitialSegmentBound(used, k);
    LowIndexInside(base, k);
    SlashSixteen(base);
    forall j | j in used && j < TWO30 ensures Apart(base, j, k) {
      DistinctApart(base, j, k);
    }
  }

  lemma SlashSixteen(base: nat)
    requires base % 0x1_0000 == 0
    ensures base % 4 == 0
  {
    assert base == 4 * (0x4000 * (base / 0x1_0000));
  }

  class Allocator {
    const base: U32
    var used: set<nat>

    constructor (base: U32)
      ensures this.base == base && used == {}
    {
      this.base := base;
      used := {};
    }

    /** Terminates on every finite set of live indices. */
    method Allocate() returns (s: Subnet)
      modifies this
      ensures LeastFree(old(used), s.index) && s.index <= |old(used)|
      ensures used == old(used) + {s.index}
      ensures s == SubnetAt(base, s.index)
    {
      var k := 0;
      while k in used
        invariant used == old(used)
        invariant forall j: nat :: j < k ==> j in used
        decreases |used| - k
      {
        InitialSegmentBound(used, k + 1);
        k := k + 1;
      }
      InitialSegmentBound(used, k);
      used := used + {k};
      s := SubnetAt(base, k);
    }

    method Free(s: Subnet)
      modifies this
      ensures used == old(used) - {s.index}
    {
      used := used - {s.index};
    }
  }
}
