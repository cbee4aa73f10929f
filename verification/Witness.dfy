/** Accepted pushes that show the exceptions: a lost pair, a taken portal rule, a change that is not undone. */
module Witness {
  import opened Bits
  import opened Text
  import opened Uci
  import opened Snapshot
  import opened Wireless
  import opened Validate
  import opened Converge
  import opened RenderSafe
  import opened Restore
  import opened Built
  import opened Heal
  import opened Parts
  import opened Served
  import opened Peering

  // --- up to four open SSIDs, on subnets apart -----------------------------

  const SUBNETS: seq<string> := ["0", "1", "2", "3"]

  function Address(i: nat): string
    requires i < 4
  {
    "10" + "." + ("0" + "." + (SUBNETS[i] + "." + "1"))
  }

  function AddressWord(i: nat): bv32
    requires i < 4
  {
    if i == 0 then 0x0A00_0001 else if i == 1 then 0x0A00_0101 else if i == 2 then 0x0A00_0201 else 0x0A00_0301
  }

  /** A gated SSID without a pool on the default radio. */
  function Sample(slug: string, i: nat, hidden: bool): Ssid
    requires i < 4
  {
    Ssid(slug, "Shop", [], "", "", hidden, true, true, "br-" + slug, Address(i), "255.255.255.0", "10", "50", "2h",
         true, [], "", [], 0, "", [], 0, 0, "", false, "")
  }

  function Samples(slugs: seq<string>, hidden: bool): seq<Ssid>
    requires |slugs| <= 4
  {
    seq(|slugs|, i requires 0 <= i < |slugs| => Sample(slugs[i], i, hidden))
  }

  lemma SubnetNumeral(i: nat)
    requires i < 4
    ensures AllDigits(SUBNETS[i]) && |SUBNETS[i]| == 1 && DigitsVal(SUBNETS[i]) == i && '.' !in SUBNETS[i]
  {
    assert "0"[..0] == "" && "1"[..0] == "" && "2"[..0] == "" && "3"[..0] == "";
  }

  lemma AddressIs(i: nat, d: string)
    requires i < 4 && d == SUBNETS[i]
    ensures Address(i) == "10" + "." + ("0" + "." + (d + "." + "1"))
  {
  }

  lemma AddressOctets(i: nat, d: string)
    requires i < 4 && d == SUBNETS[i]
    ensures Split("10" + "." + ("0" + "." + (d + "." + "1")), '.') == ["10", "0", d, "1"]
    ensures Octets(["10", "0", d, "1"]) == Some(0x0A00_0001 + 0x100 * i)
  {
    hide *;
    Numerals();
    NoDots();
    SubnetNumeral(i);
    QuadParts("10", "0", d, "1");
    QuadOctets("10", "0", d, "1", 0x0A00, 0x0A_0000 + i, 0x0A00_0001 + 0x100 * i);
  }

  lemma AddressTrim(i: nat)
    requires i < 4
    ensures Trim(Address(i)) == Address(i)
  {
    hide Trim;
    var s := Address(i);
    assert s[0] == '1' && s[|s| - 1] == '1';
    TrimEdges(s);
  }

  lemma Word0(n: nat)
    requires n == 0x0A00_0001
    ensures n as bv32 == 0x0A00_0001
  {
    hide *;
    assert n as bv32 == (0xA * 0x100_0000 + 1) as bv32;
  }

  lemma Word1(n: nat)
    requires n == 0x0A00_0101
    ensures n as bv32 == 0x0A00_0101
  {
    hide *;
    assert n as bv32 == (0xA * 0x100_0000 + 0x101) as bv32;
  }

  lemma Word2(n: nat)
    requires n == 0x0A00_0201
    ensures n as bv32 == 0x0A00_0201
  {
    hide *;
    assert n as bv32 == (0xA * 0x100_0000 + 0x201) as bv32;
  }

  lemma Word3(n: nat)
    requires n == 0x0A00_0301
    ensures n as bv32 == 0x0A00_0301
  {
    hide *;
    assert n as bv32 == (0xA * 0x100_0000 + 0x301) as bv32;
  }

  lemma AddressBits(i: nat, n: nat)
    requires i < 4 && n == 0x0A00_0001 + 0x100 * i
    ensures n as bv32 == AddressWord(i)
  {
    if i == 0 {
      Word0(n);
    } else if i == 1 {
      Word1(n);
    } else if i == 2 {
      Word2(n);
    } else {
      Word3(n);
    }
  }

  lemma AddressParses(i: nat, d: string, n: nat)
    requires i < 4 && d == SUBNETS[i] && n == 0x0A00_0001 + 0x100 * i
    ensures ParseIpv4(Address(i)) == Some(AddressWord(i))
  {
    hide *;
    AddressIs(i, d);
    AddressTrim(i);
    AddressOctets(i, d);
    AddressBits(i, n);
    ParseQuad(Address(i), ["10", "0", d, "1"], n, AddressWord(i));
  }

  const MASK: bv32 := 0xFFFF_FF00

  lemma WordsFit(i: nat)
    requires i < 4
    ensures IsContiguousMask(MASK) && AddressWord(i) != NetOf(AddressWord(i), MASK)
    ensures AddressWord(i) != BcastOf(AddressWord(i), MASK)
  {
  }

  lemma SampleSubnet(slug: string, i: nat, hidden: bool)
    requires i < 4
    ensures SubnetOk(Sample(slug, i, hidden)) && Gateway(Sample(slug, i, hidden)) == AddressWord(i)
    ensures MaskOf(Sample(slug, i, hidden)) == MASK
  {
    hide ParseIpv4, IsContiguousMask, NetOf, BcastOf, Address;
    AddressParses(i, SUBNETS[i], 0x0A00_0001 + 0x100 * i);
    MaskParses();
    WordsFit(i);
  }

  predicate GoodSlug(slug: string) {
    IsSlug(slug) && slug !in RESERVED_SLUGS
  }

  lemma BridgeOk(slug: string)
    requires GoodSlug(slug)
    ensures IsIdent("br-" + slug) && "br-" + slug != RESERVED_BRIDGE
  {
    assert ("br-" + slug)[3..] == slug && RESERVED_BRIDGE[3..] == "lan";
  }

  lemma SampleOk(slug: string, i: nat, hidden: bool)
    requires i < 4 && GoodSlug(slug)
    ensures SsidOk(Sample(slug, i, hidden))
  {
    hide SubnetOk, ParseIpv4, Address;
    SampleSubnet(slug, i, hidden);
    BridgeOk(slug);
    var s := Sample(slug, i, hidden);
    assert SsidNameOk(s) by { assert Trim("Shop") == "Shop"; }
    assert RadiosOk(s) && SecurityOk(s) && MacPolicyOk(s);
    assert ZonesOk(s) && TargetsOk(s);
  }

  lemma WordsApart(i: nat, j: nat, x: bv32)
    requires i < j < 4
    ensures !Shared(AddressWord(i), MASK, AddressWord(j), MASK, x)
  {
    NetsApart(i, j);
  }

  lemma NetsApart(i: nat, j: nat)
    requires i < j < 4
    ensures AddressWord(i) & MASK != AddressWord(j) & MASK
  {
  }

  lemma SamplesApart(a: string, i: nat, b: string, j: nat, hidden: bool)
    requires i < j < 4 && a != b
    ensures Apart(Sample(a, i, hidden), Sample(b, j, hidden))
  {
    hide SubnetOk, ParseIpv4, Address, Shared, Gateway, MaskOf;
    SampleSubnet(a, i, hidden);
    SampleSubnet(b, j, hidden);
    assert ("br-" + a)[3..] == a && ("br-" + b)[3..] == b;
    forall x ensures !Shared(AddressWord(i), MASK, AddressWord(j), MASK, x) {
      WordsApart(i, j, x);
    }
  }

  lemma {:induction false} RadioCount(ssids: seq<Ssid>, r: string)
    requires forall s :: s in ssids ==> s.radios == []
    ensures VifCount(ssids, r) <= |ssids|
  {
    if ssids != [] {
      RadioCount(ssids[..|ssids| - 1], r);
      OneRadio(ssids[|ssids| - 1], r);
    }
  }

  lemma OneRadio(s: Ssid, r: string)
    requires s.radios == []
    ensures CountOf(EffectiveRadios(s), r) <= 1
  {
    assert [DEFAULT_RADIO][..0] == [];
    assert CountOf([DEFAULT_RADIO], r) == CountOf([], r) + (if DEFAULT_RADIO == r then 1 else 0);
  }

  function Push(slugs: seq<string>, hidden: bool, peers: seq<PeerAllow>): State
    requires |slugs| <= 4
  {
    State("v1", Samples(slugs, hidden), 0, peers)
  }

  lemma SamplesAllApart(slugs: seq<string>, hidden: bool)
    requires |slugs| <= 4 && (forall s :: s in slugs ==> GoodSlug(s))
    requires forall i, j :: 0 <= i < j < |slugs| ==> slugs[i] != slugs[j]
    ensures AllApart(Samples(slugs, hidden))
  {
    hide SsidOk, Apart, Sample, GoodSlug;
    var ssids := Samples(slugs, hidden);
    forall i | 0 <= i < |ssids| ensures SsidOk(ssids[i]) {
      SampleOk(slugs[i], i, hidden);
    }
    forall i, j | 0 <= i < j < |ssids| ensures Apart(ssids[i], ssids[j]) {
      SamplesApart(slugs[i], i, slugs[j], j, hidden);
    }
  }

  /** Such SSIDs with distinct slugs are accepted, with any pairs among them. */
  lemma PushValid(slugs: seq<string>, hidden: bool, peers: seq<PeerAllow>)
    requires |slugs| <= 4 && (forall s :: s in slugs ==> GoodSlug(s))
    requires forall i, j :: 0 <= i < j < |slugs| ==> slugs[i] != slugs[j]
    requires forall q :: q in peers ==> q.from in slugs && q.to in slugs && q.from != q.to
    requires forall i, j :: 0 <= i < j < |peers| ==> peers[i] != peers[j]
    ensures Valid(Push(slugs, hidden, peers))
  {
    hide AllApart, VifCount, SsidOk, IsSlug;
    var st := Push(slugs, hidden, peers);
    SamplesAllApart(slugs, hidden);
    forall r ensures VifCount(st.ssids, r) <= MAX_SSIDS_PER_RADIO {
      RadioCount(st.ssids, r);
    }
    forall q | q in peers ensures PeerOk(st.ssids, q) {
      SlugHeld(slugs, hidden, q.from);
      SlugHeld(slugs, hidden, q.to);
      assert GoodSlug(q.from) && GoodSlug(q.to);
    }
    assert PeersOk(st);
  }

  lemma SlugHeld(slugs: seq<string>, hidden: bool, slug: string)
    requires |slugs| <= 4 && slug in slugs
    ensures HasSlug(Samples(slugs, hidden), slug)
  {
    var i :| 0 <= i < |slugs| && slugs[i] == slug;
    assert Samples(slugs, hidden)[i].slug == slug;
  }

  // --- the pushes ----------------------------------------------------------

  /** Four SSIDs and two pairs whose forwardings share a section name: accepted, and the first pair is not forwarded. */
  lemma PairLost(port: nat)
    ensures var st := Push(["a_b", "c", "a", "b_c"], false, [PeerAllow("a_b", "c"), PeerAllow("a", "b_c")]);
            && Valid(st) && Forwards(BuiltStore(st, port), "a", "b_c")
            && !Forwards(BuiltStore(st, port), "a_b", "c")
  {
    hide Valid, BuiltStore, Forwards, PeerPiece, Samples, WayKept;
    var slugs, p, q := ["a_b", "c", "a", "b_c"], PeerAllow("a_b", "c"), PeerAllow("a", "b_c");
    var st := Push(slugs, false, [p, q]);
    SlugsGood();
    PushValid(slugs, false, [p, q]);
    PairsClash();
    assert LastNamed(st, 1) && st.peers[1] == q;
    assert !Kept(st, p);
    EgressWan(slugs, "c");
    ForwardsExactly(st, port, "a", "b_c");
    ForwardsExactly(st, port, "a_b", "c");
  }

  lemma PairsClash()
    ensures PeerPiece(PeerAllow("a_b", "c")).sec == PeerPiece(PeerAllow("a", "b_c")).sec
  {
    assert PREFIX + "peer_" + "a_b" + "_" + "c" == PREFIX + "peer_" + "a" + "_" + "b_c";
  }

  lemma SlugsGood()
    ensures GoodSlug("a_b") && GoodSlug("c") && GoodSlug("a") && GoodSlug("b_c")
    ensures GoodSlug("peer_x") && GoodSlug("x") && GoodSlug("portal") && GoodSlug("shop")
  {
    assert "peer_x"[0] != "hotspot"[0] && "portal"[0] != "hotspot"[0] && "shop"[0] != "admin"[0];
  }

  lemma EgressWan(slugs: seq<string>, zone: string)
    requires |slugs| <= 4 && zone != WAN_ZONE
    ensures forall s :: s in Samples(slugs, false) ==> Egress(s) != zone
  {
  }

  /** Three SSIDs and one pair: accepted, and the pair takes the name of the portal rule of `peer_x`. */
  lemma PortalLost()
    ensures var st := Push(["peer_x", "x", "portal"], false, [PeerAllow("x", "portal")]);
            && Valid(st) && st.ssids[0].gated && PortalTaken(st, st.ssids[0])
  {
    hide Valid;
    var slugs, q := ["peer_x", "x", "portal"], PeerAllow("x", "portal");
    SlugsGood();
    assert |"peer_x"| != |"x"| && "peer_x"[1] != "portal"[1];
    PushValid(slugs, false, [q]);
    assert PREFIX + "peer_" + "x" + "_" + "portal" == PREFIX + "peer_x" + PORTAL;
    assert PeerPiece(q).sec == Fw("peer_x", PORTAL);
  }

  // --- a change that a rollback does not undo ------------------------------

  /** Over a router that holds a valid push, hiding an SSID that was visible sets an option that is new in a section
      that was there - so by `UndoneIff` no rollback undoes it. */
  lemma HidingIsNew(before: Store, a: State, b: State, port: nat, s: Ssid, t: Ssid)
    requires Valid(a) && Valid(b) && OwnedPart(before) == BuiltStore(a, port)
    requires s in a.ssids && t in b.ssids && s.slug == t.slug && !s.hidden && t.hidden
    ensures NewOption(before, StatePieces(b, port), Opt(ApSection(s.slug, 0), "hidden"))
  {
    hide Valid, StatePieces, RadiosOf, PrintNat, OwnedPart, Owned, ApOptions, Options;
    var k := Opt(ApSection(s.slug, 0), "hidden");
    ApPart(a, port, s, 0);
    ApPart(b, port, t, 0);
    SomeRadio(s);
    SomeRadio(t);
    assert ApSection(s.slug, 0) == Section("wireless", "pc_" + s.slug + "_ap" + PrintNat(0));
    HiddenOption(BuiltStore(a, port), k.sec, s, RadiosOf(s)[0]);
    HiddenOption(BuiltStore(b, port), k.sec, t, RadiosOf(t)[0]);
    ApOwned(s.slug, 0);
    PartKey(before, BuiltStore(a, port), k);
    PartKey(before, BuiltStore(a, port), Decl(k.sec));
  }

  lemma HiddenOption(d: Store, sec: Section, s: Ssid, radio: string)
    requires ApOptions(s, radio, Options(d, sec))
    ensures Opt(sec, "hidden") in d <==> s.hidden
  {
    assert "hidden" in Options(d, sec) <==> Opt(sec, "hidden") in d;
  }

  lemma ApOwned(slug: string, i: nat)
    ensures Owned(ApSection(slug, i))
  {
    hide PrintNat;
    OwnedConfigs();
    assert PREFIX + slug + "_ap" + PrintNat(i) == PREFIX + (slug + "_ap" + PrintNat(i));
    OwnedNamed("wireless", slug + "_ap" + PrintNat(i));
  }

  lemma PartKey(before: Store, d: Store, k: Key)
    requires OwnedPart(before) == d && Owned(k.sec)
    ensures k in before <==> k in d
  {
    assert k in OwnedPart(before) <==> k in before;
  }

  /** Two accepted pushes, the second hiding the SSID of the first. */
  lemma RollbackKeepsGained(port: nat)
    ensures var a, b := Push(["shop"], false, []), Push(["shop"], true, []);
            && Valid(a) && Valid(b)
            && NewOption(BuiltStore(a, port), StatePieces(b, port), Opt(ApSection("shop", 0), "hidden"))
  {
    hide Valid, StatePieces, BuiltStore, OwnedPart, NewOption, Address;
    var a, b := Push(["shop"], false, []), Push(["shop"], true, []);
    SlugsGood();
    PushValid(["shop"], false, []);
    PushValid(["shop"], true, []);
    BuiltOwned(a, port);
    assert a.ssids[0] in a.ssids && b.ssids[0] in b.ssids;
    HidingIsNew(BuiltStore(a, port), a, b, port, a.ssids[0], b.ssids[0]);
  }

  lemma BuiltOwned(st: State, port: nat)
    ensures OwnedPart(BuiltStore(st, port)) == BuiltStore(st, port)
  {
    hide StatePieces, Owned;
    RenderOwned(st, port);
    DesiredSections(StatePieces(st, port));
  }
}
