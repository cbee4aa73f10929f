/** What validation accepts, told without the validator: characters, numbers and addresses. */
module Limits {
  import opened Bits
  import opened Text
  import opened Wireless
  import opened Validate
  import opened RenderSafe

  // --- texts ---------------------------------------------------------------

  /** Splitting at a character gives the one list of parts without it that joins to the text. */
  lemma {:induction false} SplitIff(s: string, c: char, parts: seq<string>)
    ensures Split(s, c) == parts <==> parts != [] && (forall p :: p in parts ==> c !in p) && Join(parts, c) == s
    decreases |s|
  {
    SplitJoins(s, c);
    if parts != [] && (forall p :: p in parts ==> c !in p) && Join(parts, c) == s {
      JoinSplits(parts, c);
    }
  }

  lemma {:induction false} SplitJoins(s: string, c: char)
    ensures (forall p :: p in Split(s, c) ==> c !in p) && Join(Split(s, c), c) == s
    decreases |s|
  {
    var i := Find(s, c);
    if i < |s| {
      SplitJoins(s[i + 1..], c);
      assert Split(s, c)[1..] == Split(s[i + 1..], c);
      assert s == s[..i] + [c] + s[i + 1..];
    } else {
      assert s[..i] == s;
    }
  }

  lemma {:induction false} JoinSplits(parts: seq<string>, c: char)
    requires parts != [] && forall p :: p in parts ==> c !in p
    ensures Split(Join(parts, c), c) == parts
    decreases parts
  {
    if |parts| == 1 {
      FindNone(parts[0], c);
      assert parts == [parts[0]];
    } else {
      SplitFirst(parts[0], c, Join(parts[1..], c));
      assert forall p :: p in parts[1..] ==> p in parts;
      JoinSplits(parts[1..], c);
      assert parts == [parts[0]] + parts[1..];
    }
  }

  /** Six pairs of hexadecimal digits, colons between them. */
  predicate MacText(s: string) {
    |s| == 17 && forall i :: 0 <= i < 17 ==> if i % 3 == 2 then s[i] == ':' else IsHex(s[i])
  }

  lemma JoinCons(a: string, rest: seq<string>, c: char)
    requires rest != []
    ensures Join([a] + rest, c) == a + [c] + Join(rest, c)
  {
    assert ([a] + rest)[1..] == rest;
  }

  /** The i-th pair of digits of a text of 17 characters. */
  function PairAt(s: string, i: nat): string
    requires |s| == 17 && i < 6
  {
    s[3 * i..3 * i + 2]
  }

  /** From the i-th pair on, joined by colons. */
  lemma {:induction false} JoinPairs(s: string, i: nat)
    requires |s| == 17 && i < 6 && s[2] == s[5] == s[8] == s[11] == s[14] == ':'
    ensures Join(seq(6 - i, k requires 0 <= k < 6 - i => PairAt(s, i + k)), ':') == s[3 * i..]
    decreases 6 - i
  {
    var ps := seq(6 - i, k requires 0 <= k < 6 - i => PairAt(s, i + k));
    if i < 5 {
      var rest := seq(5 - i, k requires 0 <= k < 5 - i => PairAt(s, i + 1 + k));
      assert ps == [PairAt(s, i)] + rest;
      JoinCons(PairAt(s, i), rest, ':');
      JoinPairs(s, i + 1);
      assert s[3 * i..] == PairAt(s, i) + ":" + s[3 * i + 3..];
    } else {
      assert ps == [PairAt(s, 5)] && s[15..] == PairAt(s, 5);
    }
  }

  lemma {:induction false} PairsLong(ps: seq<string>)
    requires ps != [] && forall p :: p in ps ==> |p| == 2
    ensures |Join(ps, ':')| == 3 * |ps| - 1
    ensures forall i, j :: 0 <= i < |ps| && 0 <= j < 2 ==> Join(ps, ':')[3 * i + j] == ps[i][j]
    ensures forall i :: 0 < i < |ps| ==> Join(ps, ':')[3 * i - 1] == ':'
    decreases ps
  {
    if |ps| > 1 {
      var rest := ps[1..];
      assert forall p :: p in rest ==> p in ps;
      PairsLong(rest);
      var s, t := Join(ps, ':'), Join(rest, ':');
      assert s == ps[0] + ":" + t && ps[0] in ps;
      forall i, j | 0 <= i < |ps| && 0 <= j < 2 ensures s[3 * i + j] == ps[i][j] {
        if i > 0 {
          assert s[3 * i + j] == t[3 * (i - 1) + j] && rest[i - 1] == ps[i];
        }
      }
      forall i | 0 < i < |ps| ensures s[3 * i - 1] == ':' {
        assert i > 1 ==> s[3 * i - 1] == t[3 * (i - 1) - 1];
      }
    } else {
      assert ps[0] in ps;
    }
  }

  lemma MacReads(s: string)
    requires IsMac(s)
    ensures MacText(s)
  {
    hide Split, Join, IsHex;
    var ps := Split(s, ':');
    SplitIff(s, ':', ps);
    PairsLong(ps);
    forall i | 0 <= i < 17 ensures if i % 3 == 2 then s[i] == ':' else IsHex(s[i]) {
      if i % 3 == 2 {
        assert s[3 * (i / 3 + 1) - 1] == ':';
      } else {
        assert s[3 * (i / 3) + i % 3] == ps[i / 3][i % 3] && ps[i / 3] in ps;
      }
    }
  }

  lemma PairHex(s: string, k: nat)
    requires MacText(s) && k < 6
    ensures |PairAt(s, k)| == 2 && (forall c :: c in PairAt(s, k) ==> IsHex(c) && c != ':')
    ensures s[2] == s[5] == s[8] == s[11] == s[14] == ':'
  {
    assert PairAt(s, k)[0] == s[3 * k] && PairAt(s, k)[1] == s[3 * k + 1];
    assert (3 * k) % 3 == 0 && (3 * k + 1) % 3 == 1;
  }

  lemma MacSplits(s: string)
    requires MacText(s)
    ensures IsMac(s)
  {
    hide Split, Join, IsHex, PairAt;
    var ps := seq(6, k requires 0 <= k < 6 => PairAt(s, 0 + k));
    PairHex(s, 0);
    JoinPairs(s, 0);
    assert s[3 * 0..] == s;
    forall p | p in ps ensures |p| == 2 && ':' !in p && forall c :: c in p ==> IsHex(c) {
      var k :| 0 <= k < 6 && ps[k] == p;
      PairHex(s, 0 + k);
    }
    SplitIff(s, ':', ps);
  }

  lemma MacIff(s: string)
    ensures IsMac(s) <==> MacText(s)
  {
    hide IsMac, MacText;
    if IsMac(s) {
      MacReads(s);
    }
    if MacText(s) {
      MacSplits(s);
    }
  }

  /** One to three digits for a number up to 255. */
  predicate OctetText(p: string) {
    1 <= |p| <= 3 && AllDigits(p) && DigitsVal(p) <= 255
  }

  /** The number a dotted quad spells. */
  function QuadVal(a: string, b: string, c: string, d: string): (n: nat)
    requires OctetText(a) && OctetText(b) && OctetText(c) && OctetText(d)
    ensures n < 0x1_0000_0000
  {
    ((DigitsVal(a) * 256 + DigitsVal(b)) * 256 + DigitsVal(c)) * 256 + DigitsVal(d)
  }

  /** The text is a dotted quad and `n` its word, the first octet highest. */
  ghost predicate Quad(s: string, n: bv32) {
    exists a, b, c, d ::
      && OctetText(a) && OctetText(b) && OctetText(c) && OctetText(d)
      && s == a + "." + (b + "." + (c + "." + d))
      && n == QuadVal(a, b, c, d) as bv32
  }

  lemma NoDot(p: string)
    requires OctetText(p)
    ensures '.' !in p
  {
    hide DigitsVal;
  }

  lemma FourOctets(a: string, b: string, c: string, d: string)
    requires OctetText(a) && OctetText(b) && OctetText(c) && OctetText(d)
    ensures Split(a + "." + (b + "." + (c + "." + d)), '.') == [a, b, c, d]
    ensures Octets([a, b, c, d]) == Some(QuadVal(a, b, c, d))
  {
    hide Split, Octets, DigitsVal;
    NoDot(a);
    NoDot(b);
    NoDot(c);
    NoDot(d);
    QuadParts(a, b, c, d);
    var n2 := DigitsVal(a) * 256 + DigitsVal(b);
    var n3 := n2 * 256 + DigitsVal(c);
    QuadOctets(a, b, c, d, n2, n3, n3 * 256 + DigitsVal(d));
  }

  lemma {:induction false} OctetsTexts(parts: seq<string>)
    requires Octets(parts).Some?
    ensures forall p :: p in parts ==> OctetText(p)
  {
    if parts != [] {
      var init, last := parts[..|parts| - 1], parts[|parts| - 1];
      OctetsTexts(init);
      assert parts == init + [last];
    }
  }

  lemma JoinFour(a: string, b: string, c: string, d: string)
    ensures Join([a, b, c, d], '.') == a + "." + (b + "." + (c + "." + d))
  {
    assert [a, b, c, d] == [a] + [b, c, d] && [b, c, d] == [b] + [c, d] && [c, d] == [c] + [d];
    JoinCons(a, [b, c, d], '.');
    JoinCons(b, [c, d], '.');
    JoinCons(c, [d], '.');
  }

  lemma QuadReads(s: string, n: bv32)
    requires ParseIpv4(s) == Some(n)
    ensures Quad(Trim(s), n)
  {
    hide Split, Octets, Trim, DigitsVal, Join;
    var parts := Split(Trim(s), '.');
    var a, b, c, d := parts[0], parts[1], parts[2], parts[3];
    assert parts == [a, b, c, d];
    OctetsTexts(parts);
    SplitIff(Trim(s), '.', parts);
    JoinFour(a, b, c, d);
    FourOctets(a, b, c, d);
  }

  /** What is read as an address: a dotted quad, with white space around it at most, and its word. */
  lemma Ipv4Iff(s: string, n: bv32)
    ensures ParseIpv4(s) == Some(n) <==> Quad(Trim(s), n)
  {
    hide Split, Octets, Trim, DigitsVal;
    if ParseIpv4(s) == Some(n) {
      QuadReads(s, n);
    }
    if Quad(Trim(s), n) {
      var a, b, c, d :| OctetText(a) && OctetText(b) && OctetText(c) && OctetText(d)
                        && Trim(s) == a + "." + (b + "." + (c + "." + d)) && n == QuadVal(a, b, c, d) as bv32;
      FourOctets(a, b, c, d);
    }
  }

  /** Lower case: character by character, the letters of ASCII. */
  lemma {:induction false} LowerIs(s: string)
    ensures |Lower(s)| == |s|
    ensures forall i :: 0 <= i < |s| ==>
              Lower(s)[i] == if 'A' <= s[i] <= 'Z' then (s[i] as int - 'A' as int + 'a' as int) as char else s[i]
    decreases s
  {
    if s != "" {
      LowerIs(s[1..]);
    }
  }

  // --- hosts ---------------------------------------------------------------

  // --- one SSID ------------------------------------------------------------

  predicate Ident(s: string) {
    s != "" && forall c :: c in s ==> 'a' <= c <= 'z' || 'A' <= c <= 'Z' || '0' <= c <= '9' || c == '_' || c == '-'
  }

  /** The text is an address and `n` its word; white space around it does not matter. */
  ghost predicate Address(s: string, n: bv32) {
    Quad(Trim(s), n)
  }

  /** The mask has 1 to 31 network bits. */
  ghost predicate Mask(mask: bv32) {
    exists p :: 1 <= p <= 31 && mask == HighOnes(p)
  }

  /** The gateway is a host of a subnet with 1 to 31 network bits. */
  ghost predicate Subnet(s: Ssid, gw: bv32, mask: bv32) {
    && Address(s.ipaddr, gw) && Address(s.netmask, mask)
    && Mask(mask) && HostOf(gw, mask, gw)
  }

  /** A MAC, and a host of the subnet that is not the gateway. */
  ghost predicate LeaseOk(r: Reservation, gw: bv32, mask: bv32) {
    MacText(Lower(r.mac)) && exists ip :: Address(r.ipaddr, ip) && HostOf(gw, mask, ip) && ip != gw
  }

  ghost predicate LeasesApart(a: Reservation, b: Reservation) {
    forall x, y :: Address(a.ipaddr, x) && Address(b.ipaddr, y) ==> x != y && Lower(a.mac) != Lower(b.mac)
  }

  ghost predicate Leases(s: Ssid, gw: bv32, mask: bv32) {
    && (forall i :: 0 <= i < |s.reservations| ==> LeaseOk(s.reservations[i], gw, mask))
    && forall i, j :: 0 <= i < j < |s.reservations| ==> LeasesApart(s.reservations[i], s.reservations[j])
  }

  lemma AddressIff(s: string)
    ensures ParseIpv4(s).Some? <==> exists n :: Address(s, n)
    ensures forall n :: Address(s, n) <==> ParseIpv4(s) == Some(n)
  {
    hide ParseIpv4, Quad;
    forall n ensures Address(s, n) <==> ParseIpv4(s) == Some(n) {
      Ipv4Iff(s, n);
    }
    if ParseIpv4(s).Some? {
      assert Address(s, ParseIpv4(s).value);
    }
  }

  lemma SubnetAt(s: Ssid, gw: bv32, mask: bv32)
    ensures Subnet(s, gw, mask) <==> SubnetOk(s) && gw == Gateway(s) && mask == MaskOf(s)
  {
    hide ParseIpv4, Address, HostOf, NetOf, BcastOf, IsContiguousMask, Mask;
    AddressIff(s.ipaddr);
    AddressIff(s.netmask);
    MaskIff(mask);
    GatewayIff(gw, mask);
    if Subnet(s, gw, mask) {
      assert ParseIpv4(s.ipaddr) == Some(gw) && ParseIpv4(s.netmask) == Some(mask);
    }
  }

  lemma MaskIff(mask: bv32)
    ensures Mask(mask) <==> IsContiguousMask(mask)
  {
    hide IsContiguousMask;
    ContiguousIff(mask);
    if IsContiguousMask(mask) {
      var p :| 1 <= p <= 31 && mask == HighOnes(p);
    }
    if Mask(mask) {
      var p :| 1 <= p <= 31 && mask == HighOnes(p);
      HighOnesContiguous(p);
    }
  }

  lemma SubnetIff(s: Ssid)
    ensures SubnetOk(s) <==> exists gw, mask :: Subnet(s, gw, mask)
    ensures SubnetOk(s) ==> Subnet(s, Gateway(s), MaskOf(s))
  {
    hide Subnet, SubnetOk, Gateway, MaskOf;
    forall gw, mask ensures Subnet(s, gw, mask) <==> SubnetOk(s) && gw == Gateway(s) && mask == MaskOf(s) {
      SubnetAt(s, gw, mask);
    }
    if SubnetOk(s) {
      assert Subnet(s, Gateway(s), MaskOf(s));
    }
  }

  lemma LeaseIff(s: Ssid, r: Reservation)
    requires SubnetOk(s)
    ensures ReservationOk(s, r)
       <==> LeaseOk(r, Gateway(s), MaskOf(s))
  {
    hide ParseIpv4, Address, HostOf, StrictlyBetween, IsContiguousMask, IsMac, MacText, Lower, NetOf, BcastOf;
    MacIff(Lower(r.mac));
    AddressIff(r.ipaddr);
    forall ip ensures StrictlyBetween(Gateway(s), MaskOf(s), ip) <==> HostOf(Gateway(s), MaskOf(s), ip) {
      BetweenIff(Gateway(s), MaskOf(s), ip);
    }
  }

  lemma ApartLeases(a: Reservation, b: Reservation)
    requires ParseIpv4(a.ipaddr).Some? && ParseIpv4(b.ipaddr).Some?
    ensures ReservationsApart(a, b)
       <==> LeasesApart(a, b)
  {
    hide ParseIpv4, Address, Lower;
    AddressIff(a.ipaddr);
    AddressIff(b.ipaddr);
    assert Address(a.ipaddr, ParseIpv4(a.ipaddr).value) && Address(b.ipaddr, ParseIpv4(b.ipaddr).value);
  }

  lemma LeasesIff(s: Ssid)
    requires SubnetOk(s)
    ensures ReservationsOk(s) <==> Leases(s, Gateway(s), MaskOf(s))
  {
    hide ReservationOk, ReservationsApart, Address, HostOf, SubnetOk, Gateway, MaskOf, MacText, Lower, ParseIpv4;
    forall i | 0 <= i < |s.reservations|
      ensures ReservationOk(s, s.reservations[i]) <==> LeaseOk(s.reservations[i], Gateway(s), MaskOf(s))
    {
      LeaseIff(s, s.reservations[i]);
    }
    if forall i :: 0 <= i < |s.reservations| ==> LeaseOk(s.reservations[i], Gateway(s), MaskOf(s)) {
      forall i, j | 0 <= i < j < |s.reservations|
        ensures ReservationsApart(s.reservations[i], s.reservations[j])
           <==> LeasesApart(s.reservations[i], s.reservations[j])
      {
        ReservationParses(s, s.reservations[i]);
        ReservationParses(s, s.reservations[j]);
        ApartLeases(s.reservations[i], s.reservations[j]);
      }
    }
  }

  /** In a valid push each SSID's gateway is a host of the SSID's subnet; and if the SSID has an address pool, its
      static leases have well-formed MACs, in lower case all different, and addresses that are hosts of that subnet,
      all different from each other and from the gateway. */
  lemma OwnHosts(st: State, s: Ssid) returns (gw: bv32, mask: bv32)
    requires Valid(st) && s in st.ssids
    ensures Subnet(s, gw, mask) && (!s.dhcpDisabled ==> Leases(s, gw, mask))
  {
    hide ShapeOk, ReservationsOk, SubnetOk, Gateway, MaskOf, Subnet, Apart, PeersOk, HeaderOk, Leases;
    assert SsidOk(s);
    ShapeSubnet(s);
    gw, mask := Gateway(s), MaskOf(s);
    SubnetIff(s);
    if !s.dhcpDisabled {
      LeasesIff(s);
    }
  }

  // --- the whole state -----------------------------------------------------

  predicate Slug(s: string) {
    1 <= |s| <= 16 && forall c :: c in s ==> 'a' <= c <= 'z' || '0' <= c <= '9' || c == '_'
  }

  /** A port number, in digits. */
  predicate PortText(s: string) {
    s != "" && AllDigits(s) && 1 <= DigitsVal(s) <= 65535
  }

  /** `infinite`, in any case, or a number of 64 bits, perhaps with a unit; nothing white and no control character. */
  ghost predicate LeaseTime(s: string) {
    && (forall c :: c in s ==> !IsWhite(c) && !IsControl(c))
    && (Lower(s) == "infinite"
        || exists n, u :: s == n + u && n != "" && AllDigits(n) && DigitsVal(n) <= 0xFFFF_FFFF_FFFF_FFFF
                          && u in {"", "s", "m", "h", "d"})
  }

  /** A dotted quad, perhaps with a prefix length; nothing white and no control character. */
  ghost predicate Cidr(s: string) {
    && (forall c :: c in s ==> !IsWhite(c) && !IsControl(c))
    && ((exists n :: Quad(s, n))
        || exists a, n, p :: s == a + "/" + p && Quad(a, n) && p != "" && AllDigits(p) && DigitsVal(p) <= 32)
  }

  predicate RadioLimits(s: Ssid) {
    && |s.ssid| <= 32 && (exists c :: c in s.ssid && !IsWhite(c)) && (forall c :: c in s.ssid ==> !IsControl(c))
    && |s.radios| <= 4 && (forall r :: r in s.radios ==> Ident(r))
    && s.encryption in {"", "none", "psk2", "psk2+ccmp", "sae", "sae-mixed"}
    && (s.encryption !in {"", "none"} ==> 8 <= |s.key| <= 63 && forall c :: c in s.key ==> ' ' <= c <= '~')
    && s.mode in {"", "ap"} && s.pmf in {"", "1", "2"}
    && (s.macPolicy in {"", "disable"}
        || (s.macPolicy in {"allow", "deny"} && s.macList != [] && forall m :: m in s.macList ==> MacText(m)))
  }

  /** What one accepted SSID looks like. */
  ghost predicate Within(s: Ssid) {
    && Slug(s.slug) && s.slug !in {"lan", "wan", "wan6", "admin", "loopback", "hotspot"} && RadioLimits(s)
    && Ident(s.bridge) && s.bridge != "br-lan" && (s.egressZone == "" || Ident(s.egressZone)) && s.egressZone != "lan"
    && (forall t :: t in s.targets ==> t.zone != "" && t.zone != s.slug && Cidr(t.cidr))
    && (exists gw, mask :: Subnet(s, gw, mask))
    && (!s.dhcpDisabled ==>
          && PortText(s.dhcpStart) && PortText(s.dhcpLimit) && LeaseTime(s.leasetime)
          && forall gw, mask :: Subnet(s, gw, mask) ==> Leases(s, gw, mask))
  }

  lemma TrimNothing(s: string)
    requires forall c :: c in s ==> !IsWhite(c)
    ensures Trim(s) == s
  {
    if s != "" {
      assert s[0] in s && s[|s| - 1] in s;
    }
  }

  lemma LeaseTimeIff(s: string)
    ensures !HasWhite(s) && !HasControl(s) && IsLeasetime(s) <==> LeaseTime(s)
  {
    hide Trim, Lower, DigitsVal;
    if forall c :: c in s ==> !IsWhite(c) {
      TrimNothing(s);
      if IsLeasetime(s) && Lower(s) != "infinite" {
        var last := s[|s| - 1];
        var unit := last == 's' || last == 'm' || last == 'h' || last == 'd';
        var n := if unit then s[..|s| - 1] else s;
        assert s == n + (if unit then [last] else "");
        assert (if unit then [last] else "") in {"", "s", "m", "h", "d"};
      }
      if n, u :| s == n + u && n != "" && AllDigits(n) && DigitsVal(n) <= 0xFFFF_FFFF_FFFF_FFFF
                 && u in {"", "s", "m", "h", "d"} {
        if u == "" {
          assert n == s && s[|s| - 1] in n;
        } else {
          assert s[|s| - 1] == u[0] && s[..|s| - 1] == n;
        }
      }
    }
  }

  lemma CidrIff(s: string)
    ensures IsIpv4OrCidr(s) <==> Cidr(s)
  {
    hide Trim, DigitsVal, ParseIpv4, Quad;
    if forall c :: c in s ==> !IsWhite(c) {
      TrimNothing(s);
      AddressIff(s);
      match SplitOnce(s, '/') {
        case None =>
          NoPrefix(s);
          if n :| Quad(s, n) {
            QuadPlain(s, n);
            assert Address(s, n);
          }
        case Some(parts) =>
          var a, p := parts.0, parts.1;
          TrimNothing(a);
          AddressIff(a);
          WithPrefix(s, a, p);
          assert s == a + "/" + p;
          if ParseIpv4(a).Some? {
            assert Address(a, ParseIpv4(a).value);
          }
          if b, n, q :| s == b + "/" + q && Quad(b, n) && q != "" && AllDigits(q) && DigitsVal(q) <= 32 {
            assert Address(a, n);
          }
      }
    }
  }

  lemma NoPrefix(s: string)
    requires '/' !in s
    ensures forall a, p :: s != a + "/" + p
  {
    forall a, p ensures s != a + "/" + p {
      assert (a + "/" + p)[|a|] == '/';
    }
  }

  lemma QuadPlain(s: string, n: bv32)
    requires Quad(s, n)
    ensures s != "" && '/' !in s
  {
    hide DigitsVal;
  }

  lemma WithPrefix(s: string, a: string, p: string)
    requires s == a + "/" + p && '/' !in a
    ensures forall n :: !Quad(s, n)
    ensures forall b, q, n :: s == b + "/" + q && Quad(b, n) ==> a == b && p == q
  {
    hide Quad;
    assert s[|a|] == '/';
    forall n ensures !Quad(s, n) {
      if Quad(s, n) {
        QuadPlain(s, n);
      }
    }
    forall b, q, n | s == b + "/" + q && Quad(b, n) ensures a == b && p == q {
      QuadPlain(b, n);
      SplitOnceAt(a, '/', p);
      SplitOnceAt(b, '/', q);
    }
  }

  lemma TargetsIff(s: Ssid)
    ensures TargetsOk(s) <==> forall t :: t in s.targets ==> t.zone != "" && t.zone != s.slug && Cidr(t.cidr)
  {
    hide IsIpv4OrCidr, Cidr;
    forall t | t in s.targets ensures IsIpv4OrCidr(t.cidr) <==> Cidr(t.cidr) {
      CidrIff(t.cidr);
    }
  }

  lemma RadiosIff(s: Ssid)
    ensures RadiosOk(s) <==> |s.radios| <= 4 && forall r :: r in s.radios ==> Ident(r)
  {
    assert IsIdent("radio0");
  }

  lemma MacPolicyIff(s: Ssid)
    ensures MacPolicyOk(s)
       <==> || s.macPolicy in {"", "disable"}
            || (s.macPolicy in {"allow", "deny"} && s.macList != [] && forall m :: m in s.macList ==> MacText(m))
  {
    hide IsMac, MacText;
    forall m | m in s.macList ensures IsMac(m) <==> MacText(m) {
      MacIff(m);
    }
  }

  lemma SecurityIff(s: Ssid)
    ensures SecurityOk(s)
       <==> && s.encryption in {"", "none", "psk2", "psk2+ccmp", "sae", "sae-mixed"}
            && (s.encryption !in {"", "none"} ==> 8 <= |s.key| <= 63 && forall c :: c in s.key ==> ' ' <= c <= '~')
            && s.mode in {"", "ap"} && s.pmf in {"", "1", "2"}
  {
  }

  lemma RadioLimitsIff(s: Ssid)
    ensures RadioLimits(s) <==> SsidNameOk(s) && RadiosOk(s) && SecurityOk(s) && MacPolicyOk(s)
  {
    hide Trim, RadiosOk, SecurityOk, MacPolicyOk, Ident, MacText;
    TrimBlank(s.ssid);
    RadiosIff(s);
    SecurityIff(s);
    MacPolicyIff(s);
  }

  lemma ZonesIff(s: Ssid)
    ensures ZonesOk(s)
       <==> && Ident(s.bridge) && s.bridge != "br-lan"
            && (s.egressZone == "" || Ident(s.egressZone)) && s.egressZone != "lan"
  {
    assert IsIdent("wan") && "wan"[0] != "lan"[0];
  }

  lemma PoolIff(s: Ssid)
    ensures PoolOk(s) <==> PortText(s.dhcpStart) && PortText(s.dhcpLimit) && LeaseTime(s.leasetime)
  {
    hide DigitsVal, LeaseTime, IsLeasetime, HasWhite, HasControl;
    LeaseTimeIff(s.leasetime);
  }

  /** The checks of one SSID accept exactly the SSIDs within the limits. */
  lemma SsidIff(s: Ssid)
    ensures SsidOk(s) <==> Within(s)
  {
    hide SubnetOk, Subnet, Leases, ReservationsOk, PoolOk, TargetsOk, ZonesOk, RadioLimits, SsidNameOk, RadiosOk,
         SecurityOk, MacPolicyOk, PortText, LeaseTime, Ident, Cidr, Gateway, MaskOf;
    RadioLimitsIff(s);
    ZonesIff(s);
    TargetsIff(s);
    PoolIff(s);
    SubnetIff(s);
    forall gw, mask ensures Subnet(s, gw, mask) <==> SubnetOk(s) && gw == Gateway(s) && mask == MaskOf(s) {
      SubnetAt(s, gw, mask);
    }
    if SubnetOk(s) {
      LeasesIff(s);
    }
  }

  /** Two SSIDs with an address in both subnets. */
  ghost predicate Meet(s: Ssid, t: Ssid) {
    exists g, m, h, n, x :: Subnet(s, g, m) && Subnet(t, h, n) && InSubnet(g, m, x) && InSubnet(h, n, x)
  }

  predicate Names(ssids: seq<Ssid>, slug: string) {
    exists s :: s in ssids && s.slug == slug
  }

  /** What an accepted state looks like. A state without SSIDs has only its header looked at. */
  ghost predicate Acceptable(st: State) {
    && (st.timeoutSecs == 0 || 15 <= st.timeoutSecs <= 600)
    && |st.version| <= 128 && (forall c :: c in st.version ==> !IsControl(c))
    && (st.ssids != [] ==>
          && (forall s :: s in st.ssids ==> Within(s))
          && (forall i, j :: 0 <= i < j < |st.ssids| ==>
                && st.ssids[i].slug != st.ssids[j].slug && st.ssids[i].bridge != st.ssids[j].bridge
                && !Meet(st.ssids[i], st.ssids[j]))
          && (forall r :: VifCount(st.ssids, r) <= 4)
          && (forall q :: q in st.peers ==> q.from != q.to && Names(st.ssids, q.from) && Names(st.ssids, q.to))
          && forall i, j :: 0 <= i < j < |st.peers| ==> st.peers[i] != st.peers[j])
  }

  lemma MeetIff(s: Ssid, t: Ssid)
    ensures Meet(s, t) <==> ShareAddress(s, t)
  {
    hide Subnet, SubnetOk, Gateway, MaskOf, InSubnet, Shared;
    forall gw, mask ensures Subnet(s, gw, mask) <==> SubnetOk(s) && gw == Gateway(s) && mask == MaskOf(s) {
      SubnetAt(s, gw, mask);
    }
    forall gw, mask ensures Subnet(t, gw, mask) <==> SubnetOk(t) && gw == Gateway(t) && mask == MaskOf(t) {
      SubnetAt(t, gw, mask);
    }
    if ShareAddress(s, t) {
      var x :| Shared(Gateway(s), MaskOf(s), Gateway(t), MaskOf(t), x);
      SharedIs(Gateway(s), MaskOf(s), Gateway(t), MaskOf(t), x);
      assert Subnet(s, Gateway(s), MaskOf(s)) && Subnet(t, Gateway(t), MaskOf(t));
    }
    if g, m, h, n, x :| Subnet(s, g, m) && Subnet(t, h, n) && InSubnet(g, m, x) && InSubnet(h, n, x) {
      SharedIs(g, m, h, n, x);
    }
  }

  lemma PeersIff(st: State)
    requires forall s :: s in st.ssids ==> IsSlug(s.slug)
    ensures PeersOk(st)
       <==> && (forall q :: q in st.peers ==> q.from != q.to && Names(st.ssids, q.from) && Names(st.ssids, q.to))
            && forall i, j :: 0 <= i < j < |st.peers| ==> st.peers[i] != st.peers[j]
  {
    hide IsSlug;
    forall slug ensures HasSlug(st.ssids, slug) <==> Names(st.ssids, slug) {
      if s :| s in st.ssids && s.slug == slug {
        var i :| 0 <= i < |st.ssids| && st.ssids[i] == s;
      }
    }
  }

  /** The validator accepts exactly the acceptable states: every check is needed, and none is missing. */
  lemma ValidIff(st: State)
    ensures Valid(st) <==> Acceptable(st)
  {
    hide Within, ShareAddress, Meet, PeersOk, VifCount, SsidOk;
    forall s | s in st.ssids ensures SsidOk(s) <==> Within(s) {
      SsidIff(s);
    }
    forall s, t | s in st.ssids && t in st.ssids ensures Meet(s, t) <==> ShareAddress(s, t) {
      MeetIff(s, t);
    }
    if forall s :: s in st.ssids ==> SsidOk(s) {
      forall s | s in st.ssids ensures IsSlug(s.slug) {
        SsidSlug(s);
      }
      PeersIff(st);
    }
  }

  lemma SsidSlug(s: Ssid)
    requires SsidOk(s)
    ensures IsSlug(s.slug)
  {
  }
}
