/**
 CIDR blocks as Go's net package represents them after ParseCIDR: the masked network
 number together with the number of leading ones of the mask. Addresses are bit
 sequences, so a block is a prefix as in section 3.1 of RFC 4632.
 */
module Cidr {
  import opened Wrappers

  type Bits = seq<bool>

  datatype IPNet = IPNet(ip: Bits, ones: nat)

  /** What ParseCIDR returns: 32 or 128 bits, host part cleared. */
  ghost predicate Masked(n: IPNet) {
    && (|n.ip| == 32 || |n.ip| == 128)
    && n.ones <= |n.ip|
    && forall i :: n.ones <= i < |n.ip| ==> !n.ip[i]
  }

  /** The address set of a block: the addresses of its width that share its prefix. */
  ghost predicate Member(a: Bits, n: IPNet)
    requires n.ones <= |n.ip|
  {
    |a| == |n.ip| && a[..n.ones] == n.ip[..n.ones]
  }

  ghost predicate Subset(inner: IPNet, outer: IPNet)
    requires inner.ones <= |inner.ip| && outer.ones <= |outer.ip|
  {
    forall a: Bits :: Member(a, inner) ==> Member(a, outer)
  }

  /** Addresses of ::ffff:0:0/96: 80 zero bits followed by 16 one bits. */
  predicate Mapped(ip: Bits) {
    |ip| == 128 && forall i :: 0 <= i < 96 ==> (ip[i] <==> 80 <= i)
  }

  /** net.IP.To4 keeps four-byte addresses and shortens IPv4-mapped ones. */
  function To4(ip: Bits): Bits {
    if Mapped(ip) then ip[96..] else ip
  }

  /**
   net.IPNet.Contains: both sides go through To4 first, the mask loses its first
   twelve bytes along with the network number, and only then are bits compared.
   */
  predicate Contains(n: IPNet, ip: Bits) {
    var nn, x := To4(n.ip), To4(ip);
    var cut := |n.ip| - |nn|;
    |x| == |nn| && forall i :: 0 <= i < |nn| && cut + i < n.ones ==> nn[i] == x[i]
  }

  /** The acceptance test for an ipBlock.except entry. */
  predicate ExceptAccepted(parent: IPNet, except: IPNet) {
    |parent.ip| == |except.ip| && parent.ones <= except.ones && Contains(parent, except.ip)
  }

  lemma MappedNetworkIsLong(n: IPNet)
    requires Masked(n) && Mapped(n.ip)
    ensures n.ones >= 96
  {
    assert n.ip[95];
  }

  lemma ContainsExact(n: IPNet, ip: Bits)
    requires Masked(n) && |ip| == |n.ip|
    ensures Contains(n, ip) <==> Member(ip, n) && !(Mapped(ip) && !Mapped(n.ip))
  {
    if Mapped(n.ip) {
      MappedNetworkIsLong(n);
      if Mapped(ip) {
        if Contains(n, ip) {
          forall i | 0 <= i < n.ones ensures ip[i] == n.ip[i] {
            if 96 <= i {
              assert To4(n.ip)[i - 96] == To4(ip)[i - 96];
            }
          }
        } else if Member(ip, n) {
          forall i | 0 <= i < 32 && 96 + i < n.ones ensures To4(n.ip)[i] == To4(ip)[i] {
            assert n.ip[..n.ones][96 + i] == ip[..n.ones][96 + i];
          }
        }
      } else {
        var i :| 0 <= i < 96 && !(ip[i] <==> 80 <= i);
        assert ip[..n.ones][i] != n.ip[..n.ones][i];
      }
    } else if !Mapped(ip) {
      if Contains(n, ip) {
        assert ip[..n.ones] == n.ip[..n.ones];
      } else if Member(ip, n) {
        forall i | 0 <= i < n.ones ensures n.ip[i] == ip[i] {
          assert n.ip[..n.ones][i] == ip[..n.ones][i];
        }
      }
    }
  }

  /** Inclusion of address sets is exactly having the longer prefix extend the shorter one. */
  lemma SubsetIsPrefix(inner: IPNet, outer: IPNet)
    requires Masked(inner) && Masked(outer)
    ensures Subset(inner, outer) <==> outer.ones <= inner.ones && Member(inner.ip, outer)
  {
    assert Member(inner.ip, inner);
    if Member(inner.ip, outer) && inner.ones < outer.ones {
      var k := inner.ones;
      var flipped := inner.ip[k := !inner.ip[k]];
      assert flipped[..k] == inner.ip[..k];
      assert Member(flipped, inner);
      assert inner.ip[..outer.ones][k] == outer.ip[..outer.ones][k];
      assert flipped[..outer.ones][k] != outer.ip[..outer.ones][k];
      assert !Member(flipped, outer);
    } else if Member(inner.ip, outer) {
      forall a: Bits | Member(a, inner) ensures Member(a, outer) {
        assert a[..outer.ones] == a[..inner.ones][..outer.ones];
        assert inner.ip[..outer.ones] == inner.ip[..inner.ones][..outer.ones];
      }
    }
  }

  /**
   An except entry is accepted exactly when its addresses all lie in the parent block,
   apart from IPv4-mapped entries under an IPv6 parent that is not itself mapped: those
   are refused although they may lie within it.
   */
  lemma ExceptAcceptedExact(parent: IPNet, except: IPNet)
    requires Masked(parent) && Masked(except)
    ensures ExceptAccepted(parent, except)
      <==> Subset(except, parent) && !(Mapped(except.ip) && !Mapped(parent.ip))
  {
    SubsetIsPrefix(except, parent);
    if |parent.ip| == |except.ip| {
      ContainsExact(parent, except.ip);
    }
  }

  /** ::ffff:0:0/96 lies within ::/0 and is refused as an exception to it. */
  lemma MappedExceptRefused()
    ensures var all := IPNet(seq(128, i => false), 0);
      var mapped := IPNet(seq(128, i => 80 <= i < 96), 96);
      Masked(all) && Masked(mapped) && Subset(mapped, all) && !ExceptAccepted(all, mapped)
  {
    var all := IPNet(seq(128, i => false), 0);
    var mapped := IPNet(seq(128, i => 80 <= i < 96), 96);
    assert Mapped(mapped.ip);
    assert !all.ip[80];
    ExceptAcceptedExact(all, mapped);
    SubsetIsPrefix(mapped, all);
    assert mapped.ip[..0] == all.ip[..0];
  }
}
