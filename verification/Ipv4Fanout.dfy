/** Hosts, multicast and fan-out addresses of a virtual subnet. */
module Ipv4Fanout {
  import opened Bytes
  import opened Policy

  const EVERYONE: u32 := 0xffff_ffff

  predicate IsSubnet(subnet: u32, prefix: byte)
  {
    0 < prefix <= 30 && subnet % Block(prefix) == 0
  }

  predicate IsHost(a: u32, subnet: u32, prefix: byte)
  {
    && IsSubnet(subnet, prefix)
    && a != subnet && a != subnet + Block(prefix) - 1 && a < 0xe000_0000 && SubnetContains(subnet, prefix, a)
  }

  /** A host address lies strictly between the first and the last address of its subnet, below class D. */
  lemma HostIsInside(a: u32, subnet: u32, prefix: byte)
    requires IsSubnet(subnet, prefix)
    ensures IsHost(a, subnet, prefix) <==> subnet < a < subnet + Block(prefix) - 1 && a < 0xe000_0000
  {
    hide Block;
    RemainderOfMultiple(subnet, Block(prefix));
    ContainsIsRange(subnet, prefix, a);
  }

  lemma RemainderOfMultiple(x: nat, m: nat)
    requires m > 0 && x % m == 0
    ensures x - x % m == x
  {
  }

  predicate IsScopedMulticast(a: u32)
  {
    a / 0x100_0000 == 0xef || a == 0xe000_00fb || a == 0xe000_00fc
  }

  predicate IsFanout(a: u32, subnet: u32, prefix: byte)
  {
    IsSubnet(subnet, prefix) && (a == EVERYONE || IsScopedMulticast(a) || a == subnet + Block(prefix) - 1)
  }
}
