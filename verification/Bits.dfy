/** Addresses and subnets as 32-bit words: between network and broadcast lie exactly the addresses with proper host
    bits. */
module Bits {
  function NetOf(addr: bv32, mask: bv32): bv32 { addr & mask }

  function BcastOf(addr: bv32, mask: bv32): bv32 { NetOf(addr, mask) | !mask }

  predicate InSubnet(gw: bv32, mask: bv32, ip: bv32) {
    ip & mask == gw & mask
  }

  predicate Below(x: bv32, y: bv32) { x < y }

  predicate StrictlyBetween(gw: bv32, mask: bv32, ip: bv32) {
    Below(NetOf(gw, mask), ip) && Below(ip, BcastOf(gw, mask))
  }

  function HostBits(ip: bv32, mask: bv32): bv32 { ip & !mask }

  function Flip(x: bv32): bv32 { !x }

  /** An address of the subnet of `gw` whose host bits are neither all zero nor all one. */
  predicate HostOf(gw: bv32, mask: bv32, ip: bv32) {
    InSubnet(gw, mask, ip) && HostBits(ip, mask) != 0 && HostBits(ip, mask) != Flip(mask)
  }

  /** The host bits an address lacks, and the address with them. */
  function Missing(ip: bv32, mask: bv32): bv32 { !ip & !mask }

  function Filled(ip: bv32, mask: bv32): bv32 { ip | Missing(ip, mask) }

  // --- one word ------------------------------------------------------------

  lemma AboveNet(ip: bv32, mask: bv32)
    requires HostBits(ip, mask) != 0
    ensures Below(NetOf(ip, mask), ip)
  {
  }

  lemma NotNet(ip: bv32, mask: bv32)
    requires Below(NetOf(ip, mask), ip)
    ensures HostBits(ip, mask) != 0
  {
  }

  lemma BelowBcast(ip: bv32, mask: bv32)
    requires Below(ip, BcastOf(ip, mask))
    ensures HostBits(ip, mask) != Flip(mask)
  {
  }

  lemma NetIff(ip: bv32, mask: bv32)
    ensures HostBits(ip, mask) == 0 ==> ip == NetOf(ip, mask)
    ensures ip == NetOf(ip, mask) ==> HostBits(ip, mask) == 0
  {
  }

  lemma BcastIff(ip: bv32, mask: bv32)
    ensures HostBits(ip, mask) == Flip(mask) ==> ip == BcastOf(ip, mask)
    ensures ip == BcastOf(ip, mask) ==> HostBits(ip, mask) == Flip(mask)
  {
  }

  lemma BitsMissing(ip: bv32, mask: bv32)
    requires HostBits(ip, mask) != Flip(mask)
    ensures Missing(ip, mask) != 0
  {
  }

  lemma MissingAbove(ip: bv32, mask: bv32)
    requires Missing(ip, mask) != 0
    ensures Below(ip, Filled(ip, mask))
  {
  }

  lemma FilledIsBcast(ip: bv32, mask: bv32)
    ensures BcastOf(ip, mask) == Filled(ip, mask)
  {
  }

  lemma UnderBcast(ip: bv32, mask: bv32)
    requires HostBits(ip, mask) != Flip(mask)
    ensures Below(ip, BcastOf(ip, mask))
  {
    hide *;
    BitsMissing(ip, mask);
    MissingAbove(ip, mask);
    FilledIsBcast(ip, mask);
  }

  // --- a subnet ------------------------------------------------------------

  lemma SameSubnet(gw: bv32, mask: bv32, ip: bv32)
    requires InSubnet(gw, mask, ip)
    ensures NetOf(ip, mask) == NetOf(gw, mask) && BcastOf(ip, mask) == BcastOf(gw, mask)
  {
  }

  lemma BetweenIsHost(gw: bv32, mask: bv32, ip: bv32)
    requires InSubnet(gw, mask, ip)
    ensures StrictlyBetween(gw, mask, ip) <==> HostOf(gw, mask, ip)
  {
    hide NetOf, BcastOf, Below, HostBits, Flip, InSubnet;
    SameSubnet(gw, mask, ip);
    if StrictlyBetween(gw, mask, ip) {
      NotNet(ip, mask);
      BelowBcast(ip, mask);
    }
    if HostOf(gw, mask, ip) {
      AboveNet(ip, mask);
      UnderBcast(ip, mask);
    }
  }

  lemma SelfInside(gw: bv32, mask: bv32)
    ensures InSubnet(gw, mask, gw)
  {
  }

  /** The gateway is neither network nor broadcast address: it has proper host bits. */
  lemma GatewayIff(gw: bv32, mask: bv32)
    ensures gw != NetOf(gw, mask) && gw != BcastOf(gw, mask) <==> HostOf(gw, mask, gw)
  {
    hide NetOf, BcastOf, Below, HostBits, Flip, InSubnet;
    SelfInside(gw, mask);
    NetIff(gw, mask);
    BcastIff(gw, mask);
  }

  lemma BelowWeaker(x: bv32, y: bv32)
    requires Below(x, y)
    ensures x <= y
  {
  }
}
