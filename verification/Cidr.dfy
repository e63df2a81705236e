/**
 IP addresses as rows of bits, CIDR blocks, and what it means for a block to
 contain an address (section 3.1 of RFC 4632).
 */
module Cidr {
  import opened Prelude

  datatype Address = V4(bits: seq<bool>) | V6(bits: seq<bool>)
  {
    function Width(): nat {
      if V4? then 32 else 128
    }

    predicate SameFamily(other: Address) {
      V4? <==> other.V4?
    }
  }

  type IpAddr = a: Address | |a.bits| == a.Width() witness V4(seq(32, _ => false))

  datatype Block = Block(address: IpAddr, prefixLen: nat)

  /** An address and a prefix length; the bits past the prefix may be anything, as in 192.0.2.7/24. */
  type IpNet = n: Block | n.prefixLen <= |n.address.bits| witness Block(V4(seq(32, _ => false)), 0)

  /** 0.0.0.0 */
  function Unspecified(): IpAddr {
    V4(Fill(32, false))
  }

  function Bit(b: bool): nat {
    if b then 1 else 0
  }

  /** The number an address is compared by, most significant bit first. */
  function Number(bits: seq<bool>): nat {
    if bits == [] then 0 else 2 * Number(bits[..|bits| - 1]) + Bit(bits[|bits| - 1])
  }

  function Fill(n: nat, b: bool): seq<bool> {
    seq(n, _ => b)
  }

  /** The address with every host bit replaced. */
  function WithHostBits(n: IpNet, b: bool): (bits: seq<bool>)
    ensures |bits| == |n.address.bits|
  {
    n.address.bits[..n.prefixLen] + Fill(|n.address.bits| - n.prefixLen, b)
  }

  /** At least the first address of the block and at most its last. */
  predicate Contains(n: IpNet, ip: IpAddr) {
    && n.address.SameFamily(ip)
    && Number(WithHostBits(n, false)) <= Number(ip.bits) <= Number(WithHostBits(n, true))
  }

  // ---- Numbers and bits -------------------------------------------------------

  lemma {:induction false} NumberOfConcat(a: seq<bool>, b: seq<bool>)
    ensures Number(a + b) == Number(a) * Pow2(|b|) + Number(b)
    decreases |b|
  {
    if b == [] {
      assert a + b == a;
    } else {
      var n := |b| - 1;
      assert (a + b)[..|a| + n] == a + b[..n];
      NumberOfConcat(a, b[..n]);
      assert Number(a + b) == 2 * (Number(a) * Pow2(n) + Number(b[..n])) + Bit(b[n]);
      assert 2 * (Number(a) * Pow2(n)) == Number(a) * Pow2(|b|);
    }
  }

  lemma {:induction false} NumberIsBounded(bits: seq<bool>)
    ensures Number(bits) < Pow2(|bits|)
    decreases |bits|
  {
    if bits != [] {
      NumberIsBounded(bits[..|bits| - 1]);
    }
  }

  lemma {:induction false} NumberOfFill(n: nat, b: bool)
    ensures Number(Fill(n, b)) == if b then Pow2(n) - 1 else 0
    decreases n
  {
    if n > 0 {
      assert Fill(n, b)[..n - 1] == Fill(n - 1, b);
      NumberOfFill(n - 1, b);
    }
  }

  lemma {:induction false} NumberIsInjective(a: seq<bool>, b: seq<bool>)
    requires |a| == |b| && Number(a) == Number(b)
    ensures a == b
    decreases |a|
  {
    if a != [] {
      var n := |a| - 1;
      NumberIsInjective(a[..n], b[..n]);
      assert a == a[..n] + [a[n]] && b == b[..n] + [b[n]];
    }
  }

  /** Numbers with equal low parts cut off compare as their high parts do. */
  lemma SameBlock(high: nat, other: nat, rest: nat, size: nat)
    requires rest < size
    ensures high * size <= other * size + rest <= high * size + size - 1 <==> high == other
  {
    if high < other {
      assert (high + 1) * size <= other * size;
    } else if other < high {
      assert (other + 1) * size <= high * size;
    }
  }

  // ---- What a block contains ----------------------------------------------------

  /** Filling the bits after a prefix with zeros and with ones encloses exactly what starts with it. */
  lemma FillsEnclose(prefix: seq<bool>, own: seq<bool>, rest: seq<bool>)
    requires |own| == |prefix|
    ensures Number(prefix + Fill(|rest|, false)) <= Number(own + rest) <= Number(prefix + Fill(|rest|, true))
            <==> own == prefix
  {
    assert Number(prefix + Fill(|rest|, false)) == Number(prefix) * Pow2(|rest|) by {
      NumberOfConcat(prefix, Fill(|rest|, false));
      NumberOfFill(|rest|, false);
    }
    assert Number(prefix + Fill(|rest|, true)) == Number(prefix) * Pow2(|rest|) + Pow2(|rest|) - 1 by {
      NumberOfConcat(prefix, Fill(|rest|, true));
      NumberOfFill(|rest|, true);
    }
    NumberOfConcat(own, rest);
    NumberIsBounded(rest);
    SameBlock(Number(prefix), Number(own), Number(rest), Pow2(|rest|));
    if Number(prefix) == Number(own) {
      NumberIsInjective(prefix, own);
    }
  }

  /** A block contains exactly the addresses of its family that share its prefix. */
  lemma ContainsIsSharedPrefix(n: IpNet, ip: IpAddr)
    ensures Contains(n, ip) <==>
            n.address.SameFamily(ip) && ip.bits[..n.prefixLen] == n.address.bits[..n.prefixLen]
  {
    if n.address.SameFamily(ip) {
      var p := n.prefixLen;
      assert ip.bits == ip.bits[..p] + ip.bits[p..];
      FillsEnclose(n.address.bits[..p], ip.bits[..p], ip.bits[p..]);
    }
  }

  /** Prefix length zero is the whole family; /32 is one host of version 4, and /128 one of version 6. */
  lemma WidestAndNarrowest(n: IpNet, ip: IpAddr)
    ensures n.prefixLen == 0 ==> (Contains(n, ip) <==> (n.address.V4? <==> ip.V4?))
    ensures n.address.V4? && n.prefixLen == 32 ==> (Contains(n, ip) <==> n.address == ip)
    ensures n.address.V6? && n.prefixLen == 128 ==> (Contains(n, ip) <==> n.address == ip)
    ensures n.prefixLen <= |n.address.bits| == if n.address.V4? then 32 else 128
  {
    ContainsIsSharedPrefix(n, ip);
    assert ip.bits[..|ip.bits|] == ip.bits && n.address.bits[..|n.address.bits|] == n.address.bits;
  }

  /** Two blocks are nested or disjoint: with one shared address the shorter prefix contains the longer. */
  lemma BlocksNest(outer: IpNet, inner: IpNet, shared: IpAddr, ip: IpAddr)
    requires outer.prefixLen <= inner.prefixLen
    requires Contains(outer, shared) && Contains(inner, shared)
    ensures Contains(inner, ip) ==> Contains(outer, ip)
  {
    ContainsIsSharedPrefix(outer, shared);
    ContainsIsSharedPrefix(inner, shared);
    ContainsIsSharedPrefix(inner, ip);
    ContainsIsSharedPrefix(outer, ip);
    if Contains(inner, ip) {
      var p, q := outer.prefixLen, inner.prefixLen;
      assert ip.bits[..p] == ip.bits[..q][..p];
      assert shared.bits[..p] == shared.bits[..q][..p];
    }
  }

  /** Bits past the prefix never matter: any member of a block names the same block. */
  lemma HostBitsDoNotMatter(n: IpNet, member: IpAddr, ip: IpAddr)
    requires Contains(n, member)
    ensures Contains(Block(member, n.prefixLen), ip) <==> Contains(n, ip)
  {
    ContainsIsSharedPrefix(n, member);
    ContainsIsSharedPrefix(n, ip);
    ContainsIsSharedPrefix(Block(member, n.prefixLen), ip);
  }
}
