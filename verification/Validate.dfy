/** Validation of a desired wireless state, and the subnet arithmetic behind it. */
module Validate {
  import opened Bits
  import opened Text
  import opened Wireless

  // --- subnet arithmetic on 32-bit words -----------------------------------

  const ONES: bv32 := 0xFFFF_FFFF
  const TOP: bv32 := 0x8000_0000

  predicate IsContiguousMask(mask: bv32) {
    mask != 0 && mask != ONES && (!mask) & (!mask + 1) == 0
  }

  /** `p` one bits at the top, for `p` in 1..=32. */
  function HighOnes(p: nat): bv32
    requires p >= 1
  {
    if p == 1 then TOP else (HighOnes(p - 1) >> 1) | TOP
  }

  lemma ShiftIn(mask: bv32)
    requires IsContiguousMask(mask) && (mask >> 1) | TOP != ONES
    ensures IsContiguousMask((mask >> 1) | TOP)
  {
  }

  lemma ShiftOut(mask: bv32)
    requires IsContiguousMask(mask) && mask != TOP
    ensures IsContiguousMask(mask << 1) && (mask << 1) < mask && mask == ((mask << 1) >> 1) | TOP
  {
  }

  /** The number of leading ones of a contiguous mask. */
  lemma {:induction false} OnesOf(mask: bv32) returns (p: nat)
    requires IsContiguousMask(mask)
    ensures 1 <= p && mask == HighOnes(p)
    decreases mask
  {
    if mask == TOP {
      p := 1;
    } else {
      ShiftOut(mask);
      var q := OnesOf(mask << 1);
      p := q + 1;
    }
  }

  lemma HighOnes31()
    ensures HighOnes(31) == ONES - 1
  {
    assert HighOnes(4) == 0xF000_0000;
    assert HighOnes(8) == 0xFF00_0000;
    assert HighOnes(12) == 0xFFF0_0000;
    assert HighOnes(16) == 0xFFFF_0000;
    assert HighOnes(20) == 0xFFFF_F000;
    assert HighOnes(24) == 0xFFFF_FF00;
    assert HighOnes(28) == 0xFFFF_FFF0;
  }

  lemma {:induction false} Saturates(k: nat, n: nat)
    requires 1 <= k <= n && HighOnes(k) == ONES
    ensures HighOnes(n) == ONES
  {
    if k < n {
      Saturates(k, n - 1);
    }
  }

  lemma {:induction false} HighOnesContiguous(p: nat)
    requires 1 <= p <= 31
    ensures IsContiguousMask(HighOnes(p))
  {
    if p > 1 {
      HighOnesContiguous(p - 1);
      if HighOnes(p) == ONES {
        Saturates(p, 31);
        HighOnes31();
      }
      ShiftIn(HighOnes(p - 1));
    }
  }

  /** The mask test accepts exactly the runs of 1 to 31 high ones. */
  lemma ContiguousIff(mask: bv32)
    ensures IsContiguousMask(mask) <==> exists p :: 1 <= p <= 31 && mask == HighOnes(p)
  {
    if IsContiguousMask(mask) {
      var p := OnesOf(mask);
      if p > 31 {
        HighOnes31();
        Saturates(32, p);
      }
    }
    forall p | 1 <= p <= 31 ensures IsContiguousMask(HighOnes(p)) {
      HighOnesContiguous(p);
    }
  }

  /** For an accepted mask, the interval from network to broadcast is the subnet of the gateway. */
  lemma SubnetInterval(gw: bv32, mask: bv32, a: bv32)
    requires IsContiguousMask(mask)
    ensures NetOf(gw, mask) <= a <= BcastOf(gw, mask) <==> a & mask == gw & mask
  {
    if a & mask == gw & mask {
      InInterval(gw, mask, a);
    } else if NetOf(gw, mask) <= a <= BcastOf(gw, mask) {
      FromInterval(gw, mask, a);
    }
  }

  lemma InInterval(gw: bv32, mask: bv32, a: bv32)
    requires a & mask == gw & mask
    ensures NetOf(gw, mask) <= a <= BcastOf(gw, mask)
  {
    MaskBounds(a, mask);
  }

  lemma Between(net: bv32, bcast: bv32, mask: bv32, a: bv32)
    requires IsContiguousMask(mask) && net <= a <= bcast && net & mask == net && bcast & mask == net
    ensures a & mask == net
  {
    MaskMonotone(net, a, mask);
    MaskMonotone(a, bcast, mask);
  }

  lemma FromInterval(gw: bv32, mask: bv32, a: bv32)
    requires IsContiguousMask(mask) && NetOf(gw, mask) <= a <= BcastOf(gw, mask)
    ensures a & mask == gw & mask
  {
    MaskEnds(gw, mask);
    Between(NetOf(gw, mask), BcastOf(gw, mask), mask, a);
  }

  lemma MaskBounds(a: bv32, mask: bv32)
    ensures a & mask <= a <= (a & mask) | !mask
  {
  }

  lemma MaskEnds(gw: bv32, mask: bv32)
    ensures NetOf(gw, mask) & mask == NetOf(gw, mask) && BcastOf(gw, mask) & mask == NetOf(gw, mask)
  {
  }

  lemma MaskMonotone(x: bv32, y: bv32, mask: bv32)
    requires IsContiguousMask(mask) && x <= y
    ensures x & mask <= y & mask
  {
  }

  ghost predicate Shared(gw1: bv32, mask1: bv32, gw2: bv32, mask2: bv32, a: bv32) {
    a & mask1 == gw1 & mask1 && a & mask2 == gw2 & mask2
  }

  predicate Overlap(gw1: bv32, mask1: bv32, gw2: bv32, mask2: bv32) {
    NetOf(gw1, mask1) <= BcastOf(gw2, mask2) && NetOf(gw2, mask2) <= BcastOf(gw1, mask1)
  }

  lemma Total(x: bv32, y: bv32)
    ensures x <= y || y <= x
  {
  }

  /** When the first subnet starts inside the interval of the second, its network address is shared. */
  lemma StartShared(gw1: bv32, mask1: bv32, gw2: bv32, mask2: bv32)
    requires IsContiguousMask(mask2)
    requires NetOf(gw2, mask2) <= NetOf(gw1, mask1) <= BcastOf(gw2, mask2)
    ensures Shared(gw1, mask1, gw2, mask2, NetOf(gw1, mask1))
  {
    MaskEnds(gw1, mask1);
    FromInterval(gw2, mask2, NetOf(gw1, mask1));
  }

  lemma MaskedBelow(a: bv32, mask1: bv32, mask2: bv32)
    ensures a & mask1 <= (a & mask2) | !mask2
  {
  }

  lemma SharesOverlap(gw1: bv32, mask1: bv32, gw2: bv32, mask2: bv32, a: bv32)
    requires Shared(gw1, mask1, gw2, mask2, a)
    ensures Overlap(gw1, mask1, gw2, mask2)
  {
    MaskedBelow(a, mask1, mask2);
    MaskedBelow(a, mask2, mask1);
  }

  /** The interval test detects every shared address, and only those. */
  lemma OverlapIff(gw1: bv32, mask1: bv32, gw2: bv32, mask2: bv32)
    requires IsContiguousMask(mask1) && IsContiguousMask(mask2)
    ensures Overlap(gw1, mask1, gw2, mask2) <==> exists a :: Shared(gw1, mask1, gw2, mask2, a)
  {
    if Overlap(gw1, mask1, gw2, mask2) {
      Total(NetOf(gw1, mask1), NetOf(gw2, mask2));
      if NetOf(gw1, mask1) <= NetOf(gw2, mask2) {
        StartShared(gw2, mask2, gw1, mask1);
        assert Shared(gw1, mask1, gw2, mask2, NetOf(gw2, mask2));
      } else {
        StartShared(gw1, mask1, gw2, mask2);
      }
    } else {
      forall a | Shared(gw1, mask1, gw2, mask2, a) ensures false {
        SharesOverlap(gw1, mask1, gw2, mask2, a);
      }
    }
  }

  // --- fields --------------------------------------------------------------

  const MAX_SSIDS_PER_RADIO := 4
  const MAX_RADIOS_PER_SSID := 4
  const RESERVED_SLUGS: set<string> := {"lan", "wan", "wan6", "admin", "loopback", "hotspot"}
  const RESERVED_BRIDGE := "br-lan"
  const RESERVED_EGRESS := "lan"

  predicate IsHex(c: char) {
    IsDigit(c) || 'a' <= c <= 'f' || 'A' <= c <= 'F'
  }

  predicate IsMac(s: string) {
    var parts := Split(s, ':');
    |parts| == 6 && forall p :: p in parts ==> |p| == 2 && forall c :: c in p ==> IsHex(c)
  }

  predicate IsSlug(s: string) {
    1 <= |s| <= 16 && forall c :: c in s ==> 'a' <= c <= 'z' || IsDigit(c) || c == '_'
  }

  predicate IsIdent(s: string) {
    s != "" && forall c :: c in s ==> IsAlphaNum(c) || c == '_' || c == '-'
  }

  predicate HasControl(s: string) {
    exists c :: c in s && IsControl(c)
  }

  predicate HasWhite(s: string) {
    exists c :: c in s && IsWhite(c)
  }

  function Octets(parts: seq<string>): (r: Option<nat>)
    ensures r.Some? ==> r.value < Pow256(|parts|)
  {
    if parts == [] then Some(0)
    else
      var p := parts[|parts| - 1];
      match Octets(parts[..|parts| - 1])
      case None => None
      case Some(hi) =>
        if p == "" || |p| > 3 || !AllDigits(p) || DigitsVal(p) > 255 then None
        else Some(hi * 256 + DigitsVal(p))
  }

  function Pow256(n: nat): nat { if n == 0 then 1 else 256 * Pow256(n - 1) }

  /** A strict dotted quad - after trimming, so surrounding white space is let through. */
  function ParseIpv4(s: string): Option<bv32> {
    var parts := Split(Trim(s), '.');
    if |parts| != 4 then None
    else
      match Octets(parts)
      case None => None
      case Some(n) =>
        assert Pow256(4) == 0x1_0000_0000;
        Some(n as bv32)
  }

  predicate IsIpv4OrCidr(s: string) {
    && s != "" && !HasWhite(s) && !HasControl(s)
    && match SplitOnce(s, '/')
       case None => ParseIpv4(s).Some?
       case Some((ip, prefix)) =>
         ParseIpv4(ip).Some? && prefix != "" && AllDigits(prefix) && DigitsVal(prefix) <= 32
  }

  predicate IsLeasetime(s: string) {
    var t := Trim(s);
    Lower(t) == "infinite" ||
    (t != "" &&
     var last := t[|t| - 1];
     var num := if last == 's' || last == 'm' || last == 'h' || last == 'd' then t[..|t| - 1] else t;
     num != "" && AllDigits(num) && DigitsVal(num) <= U64_MAX)
  }

  predicate InPortRange(s: string) {
    s != "" && AllDigits(s) && 1 <= DigitsVal(s) <= 65535
  }

  // --- one SSID ------------------------------------------------------------

  predicate SsidNameOk(s: Ssid) {
    Trim(s.ssid) != "" && |s.ssid| <= 32 && !HasControl(s.ssid)
  }

  predicate RadiosOk(s: Ssid) {
    |EffectiveRadios(s)| <= MAX_RADIOS_PER_SSID && forall r :: r in EffectiveRadios(s) ==> IsIdent(r)
  }

  predicate SecurityOk(s: Ssid) {
    && Encryption(s) in {"none", "psk2", "psk2+ccmp", "sae", "sae-mixed"}
    && (Encryption(s) != "none" ==> 8 <= |s.key| <= 63 && forall c :: c in s.key ==> ' ' <= c <= '~')
    && Mode(s) == "ap"
    && s.pmf in {"", "1", "2"}
  }

  predicate MacPolicyOk(s: Ssid) {
    || s.macPolicy in {"", "disable"}
    || (s.macPolicy in {"allow", "deny"} && s.macList != [] && forall m :: m in s.macList ==> IsMac(m))
  }

  predicate ZonesOk(s: Ssid) {
    && IsIdent(s.bridge) && s.bridge != RESERVED_BRIDGE
    && IsIdent(Egress(s)) && Egress(s) != RESERVED_EGRESS
  }

  predicate SubnetOk(s: Ssid) {
    && ParseIpv4(s.ipaddr).Some? && ParseIpv4(s.netmask).Some?
    && var (gw, mask) := (ParseIpv4(s.ipaddr).value, ParseIpv4(s.netmask).value);
       IsContiguousMask(mask) && gw != NetOf(gw, mask) && gw != BcastOf(gw, mask)
  }

  function Gateway(s: Ssid): bv32
    requires SubnetOk(s)
  {
    ParseIpv4(s.ipaddr).value
  }

  function MaskOf(s: Ssid): bv32
    requires SubnetOk(s)
  {
    ParseIpv4(s.netmask).value
  }

  /** A well-formed MAC and a host address of the subnet other than the gateway. */
  predicate ReservationOk(s: Ssid, r: Reservation)
    requires SubnetOk(s)
  {
    && IsMac(Lower(r.mac)) && ParseIpv4(r.ipaddr).Some?
    && var ip := ParseIpv4(r.ipaddr).value;
       StrictlyBetween(Gateway(s), MaskOf(s), ip) && ip != Gateway(s)
  }

  predicate ReservationsApart(a: Reservation, b: Reservation) {
    Lower(a.mac) != Lower(b.mac) && ParseIpv4(a.ipaddr) != ParseIpv4(b.ipaddr)
  }

  predicate ReservationsOk(s: Ssid)
    requires SubnetOk(s)
  {
    && (forall i :: 0 <= i < |s.reservations| ==> ReservationOk(s, s.reservations[i]))
    && forall i, j :: 0 <= i < j < |s.reservations| ==> ReservationsApart(s.reservations[i], s.reservations[j])
  }

  predicate PoolOk(s: Ssid) {
    && InPortRange(s.dhcpStart) && InPortRange(s.dhcpLimit)
    && !HasWhite(s.leasetime) && !HasControl(s.leasetime) && IsLeasetime(s.leasetime)
  }

  predicate TargetsOk(s: Ssid) {
    forall t :: t in s.targets ==> t.zone != "" && t.zone != s.slug && IsIpv4OrCidr(t.cidr)
  }

  predicate ShapeOk(s: Ssid) {
    && IsSlug(s.slug) && s.slug !in RESERVED_SLUGS
    && SsidNameOk(s) && RadiosOk(s) && SecurityOk(s) && MacPolicyOk(s) && ZonesOk(s) && SubnetOk(s) && TargetsOk(s)
    && (!s.dhcpDisabled ==> PoolOk(s))
  }

  predicate SsidOk(s: Ssid) {
    ShapeOk(s) && (!s.dhcpDisabled ==> ReservationsOk(s))
  }

  // --- across SSIDs --------------------------------------------------------

  ghost predicate ShareAddress(a: Ssid, b: Ssid) {
    && SubnetOk(a) && SubnetOk(b)
    && exists x :: Shared(Gateway(a), MaskOf(a), Gateway(b), MaskOf(b), x)
  }

  /** Different slugs, different bridges, and no address in both subnets. */
  ghost predicate Apart(a: Ssid, b: Ssid) {
    a.slug != b.slug && a.bridge != b.bridge && !ShareAddress(a, b)
  }

  function CountOf(rs: seq<string>, r: string): nat {
    if rs == [] then 0 else CountOf(rs[..|rs| - 1], r) + (if rs[|rs| - 1] == r then 1 else 0)
  }

  /** How many `wifi-iface` sections the SSIDs place on a radio. */
  function VifCount(ssids: seq<Ssid>, r: string): nat {
    if ssids == [] then 0
    else VifCount(ssids[..|ssids| - 1], r) + CountOf(EffectiveRadios(ssids[|ssids| - 1]), r)
  }

  predicate HasSlug(ssids: seq<Ssid>, slug: string) {
    exists i :: 0 <= i < |ssids| && ssids[i].slug == slug
  }

  predicate PeerOk(ssids: seq<Ssid>, p: PeerAllow) {
    && IsSlug(p.from) && IsSlug(p.to) && p.from != p.to
    && HasSlug(ssids, p.from) && HasSlug(ssids, p.to)
  }

  predicate PeersOk(st: State) {
    && (forall i :: 0 <= i < |st.peers| ==> PeerOk(st.ssids, st.peers[i]))
    && forall i, j :: 0 <= i < j < |st.peers| ==> st.peers[i] != st.peers[j]
  }

  ghost predicate AllApart(ssids: seq<Ssid>) {
    && (forall i :: 0 <= i < |ssids| ==> SsidOk(ssids[i]))
    && forall i, j :: 0 <= i < j < |ssids| ==> Apart(ssids[i], ssids[j])
  }

  predicate HeaderOk(st: State) {
    && (st.timeoutSecs == 0 || 15 <= st.timeoutSecs <= 600)
    && |st.version| <= 128 && !HasControl(st.version)
  }

  /** What a push must satisfy before anything is written. */
  ghost predicate Valid(st: State) {
    && HeaderOk(st)
    && (st.ssids != [] ==>
          && AllApart(st.ssids) && PeersOk(st)
          && forall r :: VifCount(st.ssids, r) <= MAX_SSIDS_PER_RADIO)
  }

  // --- the validator -------------------------------------------------------

  lemma ReservationParses(s: Ssid, r: Reservation)
    requires SubnetOk(s) && ReservationOk(s, r)
    ensures ParseIpv4(r.ipaddr).Some?
  {
  }

  lemma MaskContiguous(s: Ssid)
    requires SsidOk(s)
    ensures SubnetOk(s) && IsContiguousMask(MaskOf(s))
  {
  }

  lemma ShapeSubnet(s: Ssid)
    requires ShapeOk(s)
    ensures SubnetOk(s)
  {
  }

  method CheckReservations(s: Ssid) returns (ok: bool)
    requires SubnetOk(s)
    ensures ok <==> ReservationsOk(s)
  {
    hide SubnetOk, ReservationOk, Lower, ParseIpv4;
    var seenMacs, seenIps := [], [];
    for i := 0 to |s.reservations|
      invariant |seenMacs| == |seenIps| == i
      invariant forall j :: 0 <= j < i ==>
                  && ReservationOk(s, s.reservations[j])
                  && seenMacs[j] == Lower(s.reservations[j].mac)
                  && Some(seenIps[j]) == ParseIpv4(s.reservations[j].ipaddr)
      invariant forall j, k :: 0 <= j < k < i ==> ReservationsApart(s.reservations[j], s.reservations[k])
    {
      var r := s.reservations[i];
      if !ReservationOk(s, r) {
        return false;
      }
      ReservationParses(s, r);
      var mac, ip := Lower(r.mac), ParseIpv4(r.ipaddr).value;
      if mac in seenMacs || ip in seenIps {
        var j :| 0 <= j < i && (seenMacs[j] == mac || seenIps[j] == ip);
        assert !ReservationsApart(s.reservations[j], s.reservations[i]);
        return false;
      }
      seenMacs, seenIps := seenMacs + [mac], seenIps + [ip];
    }
    ok := true;
  }

  method SubnetsOverlap(a: Ssid, b: Ssid) returns (r: bool)
    requires SsidOk(a) && SsidOk(b)
    ensures r <==> ShareAddress(a, b)
  {
    hide SsidOk, SubnetOk, IsContiguousMask, Overlap, Shared;
    MaskContiguous(a);
    MaskContiguous(b);
    OverlapIff(Gateway(a), MaskOf(a), Gateway(b), MaskOf(b));
    r := Overlap(Gateway(a), MaskOf(a), Gateway(b), MaskOf(b));
  }

  /** The checks of one SSID against those accepted before it. */
  method CheckAgainst(seen: seq<Ssid>, s: Ssid) returns (ok: bool)
    requires SsidOk(s) && forall i :: 0 <= i < |seen| ==> SsidOk(seen[i])
    ensures ok <==> forall i :: 0 <= i < |seen| ==> Apart(seen[i], s)
  {
    hide SsidOk, ShareAddress;
    for i := 0 to |seen|
      invariant forall j :: 0 <= j < i ==> Apart(seen[j], s)
    {
      var meets := SubnetsOverlap(seen[i], s);
      if seen[i].slug == s.slug || seen[i].bridge == s.bridge || meets {
        assert !Apart(seen[i], s);
        return false;
      }
    }
    ok := true;
  }

  function At(m: map<string, nat>, r: string): nat {
    if r in m then m[r] else 0
  }

  method CountRadios(vifs0: map<string, nat>, rs: seq<string>) returns (vifs: map<string, nat>)
    ensures forall r :: At(vifs, r) == At(vifs0, r) + CountOf(rs, r)
  {
    vifs := vifs0;
    for i := 0 to |rs|
      invariant forall r :: At(vifs, r) == At(vifs0, r) + CountOf(rs[..i], r)
    {
      assert rs[..i + 1][..i] == rs[..i];
      vifs := vifs[rs[i] := At(vifs, rs[i]) + 1];
    }
    assert rs[..|rs|] == rs;
  }

  method CheckSsids(ssids: seq<Ssid>) returns (ok: bool, vifs: map<string, nat>)
    ensures ok <==> AllApart(ssids)
    ensures ok ==> forall r :: At(vifs, r) == VifCount(ssids, r)
  {
    hide ShapeOk, SubnetOk, Apart, ReservationsOk, EffectiveRadios;
    vifs := map[];
    for i := 0 to |ssids|
      invariant AllApart(ssids[..i])
      invariant forall r :: At(vifs, r) == VifCount(ssids[..i], r)
    {
      var s := ssids[i];
      assert ssids[..i + 1][..i] == ssids[..i];
      if !ShapeOk(s) {
        return false, vifs;
      }
      ShapeSubnet(s);
      if !s.dhcpDisabled {
        var fine := CheckReservations(s);
        if !fine {
          return false, vifs;
        }
      }
      var apart := CheckAgainst(ssids[..i], s);
      if !apart {
        ghost var j :| 0 <= j < i && !Apart(ssids[..i][j], s);
        assert !Apart(ssids[j], ssids[i]);
        return false, vifs;
      }
      vifs := CountRadios(vifs, EffectiveRadios(s));
    }
    assert ssids[..|ssids|] == ssids;
    ok := true;
  }

  method CheckPeers(st: State) returns (ok: bool)
    ensures ok <==> PeersOk(st)
  {
    for i := 0 to |st.peers|
      invariant forall j :: 0 <= j < i ==> PeerOk(st.ssids, st.peers[j])
      invariant forall j, k :: 0 <= j < k < i ==> st.peers[j] != st.peers[k]
    {
      if !PeerOk(st.ssids, st.peers[i]) || st.peers[i] in st.peers[..i] {
        return false;
      }
    }
    ok := true;
  }

  /** Nothing is applied unless this accepts; it accepts exactly the valid states. */
  method ValidateWireless(st: State) returns (ok: bool)
    ensures ok <==> Valid(st)
  {
    if !HeaderOk(st) {
      return false;
    }
    if st.ssids == [] {
      return true;
    }
    var fine, vifs := CheckSsids(st.ssids);
    if !fine {
      return false;
    }
    if r :| r in vifs && vifs[r] > MAX_SSIDS_PER_RADIO {
      assert VifCount(st.ssids, r) > MAX_SSIDS_PER_RADIO;
      return false;
    }
    ok := CheckPeers(st);
  }

  // --- what validity means for hosts ---------------------------------------

  /** An address the SSID hands out by name: its gateway, or a checked reservation. */
  predicate NamedHost(s: Ssid, ip: bv32) {
    && SubnetOk(s)
    && (ip == Gateway(s)
        || (!s.dhcpDisabled
            && exists i :: 0 <= i < |s.reservations| && ParseIpv4(s.reservations[i].ipaddr) == Some(ip)))
  }

  lemma HostInside(s: Ssid, ip: bv32)
    requires SsidOk(s) && NamedHost(s, ip)
    ensures SubnetOk(s) && InSubnet(Gateway(s), MaskOf(s), ip)
  {
    hide ParseIpv4, IsContiguousMask, ShapeOk, SubnetOk, ReservationOk, ReservationsApart, Gateway, MaskOf, InSubnet;
    MaskContiguous(s);
    if ip == Gateway(s) {
      SelfInside(Gateway(s), MaskOf(s));
    } else {
      var i :| 0 <= i < |s.reservations| && ParseIpv4(s.reservations[i].ipaddr) == Some(ip);
      assert ReservationOk(s, s.reservations[i]);
      ReservationBetween(s, s.reservations[i]);
      StrictlyInside(Gateway(s), MaskOf(s), ip);
    }
  }

  lemma ReservationBetween(s: Ssid, r: Reservation)
    requires SubnetOk(s) && ReservationOk(s, r)
    ensures ParseIpv4(r.ipaddr).Some? && StrictlyBetween(Gateway(s), MaskOf(s), ParseIpv4(r.ipaddr).value)
  {
    hide ParseIpv4, SubnetOk, StrictlyBetween, IsMac, Lower, Gateway, MaskOf;
  }

  lemma StrictlyInside(gw: bv32, mask: bv32, ip: bv32)
    requires IsContiguousMask(mask) && StrictlyBetween(gw, mask, ip)
    ensures InSubnet(gw, mask, ip)
  {
    hide IsContiguousMask, NetOf, BcastOf, Below;
    BelowWeaker(NetOf(gw, mask), ip);
    BelowWeaker(ip, BcastOf(gw, mask));
    SubnetInterval(gw, mask, ip);
  }

  /** Strictly between network and broadcast: exactly the hosts of the subnet. */
  lemma BetweenIff(gw: bv32, mask: bv32, ip: bv32)
    requires IsContiguousMask(mask)
    ensures StrictlyBetween(gw, mask, ip) <==> HostOf(gw, mask, ip)
  {
    hide IsContiguousMask, StrictlyBetween, InSubnet, HostBits, Flip;
    if StrictlyBetween(gw, mask, ip) {
      StrictlyInside(gw, mask, ip);
      BetweenIsHost(gw, mask, ip);
    } else if HostOf(gw, mask, ip) {
      BetweenIsHost(gw, mask, ip);
    }
  }

  lemma SharedIs(gw1: bv32, mask1: bv32, gw2: bv32, mask2: bv32, a: bv32)
    ensures Shared(gw1, mask1, gw2, mask2, a) <==> InSubnet(gw1, mask1, a) && InSubnet(gw2, mask2, a)
  {
  }

  lemma ApartHosts(a: Ssid, b: Ssid, x: bv32, y: bv32)
    requires SsidOk(a) && SsidOk(b) && Apart(a, b) && NamedHost(a, x) && NamedHost(b, y)
    ensures x != y
  {
    hide ParseIpv4, IsContiguousMask, ShapeOk, SubnetOk, NamedHost, ReservationsOk, InSubnet, Shared, Gateway, MaskOf;
    HostInside(a, x);
    HostInside(b, y);
    SharedIs(Gateway(a), MaskOf(a), Gateway(b), MaskOf(b), x);
    assert !Shared(Gateway(a), MaskOf(a), Gateway(b), MaskOf(b), x);
  }

  /** In a valid push no two SSIDs share a host: gateways and reservations lie in their own subnets, and no address of
      one SSID is an address of another. */
  lemma HostsDistinct(st: State, i: nat, j: nat, x: bv32, y: bv32)
    requires Valid(st) && i < |st.ssids| && j < |st.ssids| && i != j
    requires NamedHost(st.ssids[i], x) && NamedHost(st.ssids[j], y)
    ensures x != y
  {
    hide NamedHost, SsidOk, Apart, PeersOk, HeaderOk;
    if i < j {
      ApartHosts(st.ssids[i], st.ssids[j], x, y);
    } else {
      ApartHosts(st.ssids[j], st.ssids[i], y, x);
    }
  }
}
