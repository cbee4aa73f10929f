/** Every section a push renders for an SSID, by what it is for; no two of them share a name but for a static lease
    named like an address pool. */
module Parts {
  import opened Text
  import opened Uci
  import opened Wireless
  import opened Validate
  import opened Converge
  import opened RenderSafe
  import opened Built
  import opened Heal

  datatype Part = Device | Interface | Ap(index: nat) | Pool | Host(index: nat) | Zone | Way | Dhcp | Dns | Portal
                | Allow(index: nat) | Queue

  /** The last word of a part's section name; an address pool and a shaper have none. */
  function Word(x: Part): string {
    match x
    case Device => "dev"
    case Interface => "if"
    case Ap(i) => "ap" + PrintNat(i)
    case Host(i) => "host" + PrintNat(i)
    case Zone => "zone"
    case Way => "fwd"
    case Dhcp => "dhcp"
    case Dns => "dns"
    case Portal => "portal"
    case Allow(i) => "allow" + PrintNat(i)
    case _ => ""
  }

  function ConfigOf(x: Part): string {
    match x
    case Device | Interface => "network"
    case Ap(_) => "wireless"
    case Pool | Host(_) => "dhcp"
    case Queue => "sqm"
    case _ => "firewall"
  }

  function NameOf(slug: string, x: Part): string {
    "pc_" + slug + (if x.Pool? || x.Queue? then "" else "_" + Word(x))
  }

  function SectionOf(slug: string, x: Part): Section {
    Section(ConfigOf(x), NameOf(slug, x))
  }

  function KindOf(x: Part): string {
    match x
    case Device => "device"
    case Interface => "interface"
    case Ap(_) => "wifi-iface"
    case Pool => "dhcp"
    case Host(_) => "host"
    case Zone => "zone"
    case Way => "forwarding"
    case Queue => "queue"
    case _ => "rule"
  }

  /** Which parts an SSID needs. */
  predicate Wanted(s: Ssid, x: Part) {
    match x
    case Ap(i) => i < |EffectiveRadios(s)|
    case Pool => !s.dhcpDisabled
    case Host(i) => !s.dhcpDisabled && i < |s.reservations|
    case Portal => s.gated
    case Allow(i) => i < |s.targets|
    case Queue => s.rateDown > 0 || s.rateUp > 0
    case _ => true
  }

  function PartPiece(s: Ssid, port: nat, x: Part): Piece
    requires Wanted(s, x)
  {
    match x
    case Device => DevPiece(s)
    case Interface => IfPiece(s)
    case Ap(i) => ApPiece(s, i)
    case Pool => DhcpPiece(s)
    case Host(i) => HostPiece(s, i)
    case Zone => ZonePiece(s)
    case Way => FwdPiece(s)
    case Dhcp => DhcpRule(s)
    case Dns => DnsRule(s)
    case Portal => PortalRule(s, port)
    case Allow(i) => AllowPiece(s, i)
    case Queue => SqmPieces(s)[0]
  }

  lemma PartSec(s: Ssid, port: nat, x: Part)
    requires Wanted(s, x)
    ensures PartPiece(s, port, x).sec == SectionOf(s.slug, x) && PartPiece(s, port, x).kind == KindOf(x)
  {
    hide PrintNat, ApFields, Lower, EffectiveRadios;
    var pre := "pc_" + s.slug;
    assert pre + "_dev" == pre + ("_" + "dev") && pre + "_if" == pre + ("_" + "if");
    assert pre + "_zone" == pre + ("_" + "zone") && pre + "_fwd" == pre + ("_" + "fwd");
    assert pre + "_dhcp" == pre + ("_" + "dhcp") && pre + "_dns" == pre + ("_" + "dns");
    assert pre + "_portal" == pre + ("_" + "portal") && pre + "" == pre;
    match x {
      case Ap(i) => assert pre + "_ap" + PrintNat(i) == pre + ("_" + ("ap" + PrintNat(i)));
      case Host(i) => assert pre + "_host" + PrintNat(i) == pre + ("_" + ("host" + PrintNat(i)));
      case Allow(i) => assert pre + ("_allow" + PrintNat(i)) == pre + ("_" + ("allow" + PrintNat(i)));
      case _ =>
    }
  }

  // --- names ---------------------------------------------------------------

  lemma UnderscoreNotAfter(s: string, a: string, x: string, b: string, y: string)
    requires '_' !in x && s == a + "_" + x && s == b + "_" + y
    ensures |b| <= |a|
  {
    assert s[|b|] == '_';
    assert forall i :: |a| < i < |s| ==> s[i] == x[i - |a| - 1] && x[i - |a| - 1] in x;
  }

  /** What follows the last underscore is unique. */
  lemma LastUnderscore(a: string, x: string, b: string, y: string)
    requires '_' !in x && '_' !in y && a + "_" + x == b + "_" + y
    ensures a == b && x == y
  {
    UnderscoreNotAfter(a + "_" + x, a, x, b, y);
    UnderscoreNotAfter(a + "_" + x, b, y, a, x);
    assert (a + "_" + x)[..|a|] == a && (b + "_" + y)[..|b|] == b;
    assert (a + "_" + x)[|a| + 1..] == x && (b + "_" + y)[|b| + 1..] == y;
  }

  lemma PrintNatInjective(i: nat, j: nat)
    requires PrintNat(i) == PrintNat(j)
    ensures i == j
  {
    PrintNatVal(i);
    PrintNatVal(j);
  }

  lemma WordPlain(x: Part)
    ensures '_' !in Word(x)
  {
    hide PrintNat;
  }

  lemma Numbered(pre: string, i: nat, j: nat)
    requires pre + PrintNat(i) == pre + PrintNat(j)
    ensures i == j
  {
    hide PrintNat;
    assert (pre + PrintNat(i))[|pre|..] == PrintNat(i) && (pre + PrintNat(j))[|pre|..] == PrintNat(j);
    PrintNatInjective(i, j);
  }

  lemma AllowApart(i: nat)
    ensures var w := "allow" + PrintNat(i);
            w != "zone" && w != "fwd" && w != "dhcp" && w != "dns" && w != "portal"
  {
    hide PrintNat;
    assert ("allow" + PrintNat(i))[0] == 'a';
  }

  lemma WordsApart(x: Part, y: Part)
    requires ConfigOf(x) == ConfigOf(y) && Word(x) == Word(y) && !x.Pool? && !y.Pool?
    ensures x == y
  {
    hide PrintNat;
    ConfigsApart();
    assert |"dev"| == 3 && |"if"| == 2 && |"zone"| == 4 && |"fwd"| == 3 && |"dhcp"| == 4 && |"dns"| == 3;
    assert |"portal"| == 6 && "zone"[0] != "dhcp"[0] && "fwd"[0] != "dns"[0];
    if x.Allow? {
      AllowApart(x.index);
    }
    if y.Allow? {
      AllowApart(y.index);
    }
    match (x, y) {
      case (Ap(i), Ap(j)) => Numbered("ap", i, j);
      case (Host(i), Host(j)) => Numbered("host", i, j);
      case (Allow(i), Allow(j)) => Numbered("allow", i, j);
      case _ =>
    }
  }

  lemma ConfigsApart()
    ensures var cs := ["network", "wireless", "dhcp", "firewall", "sqm"];
            forall i, j :: 0 <= i < j < 5 ==> cs[i] != cs[j]
  {
    assert "network"[0] == 'n' && "wireless"[0] == 'w' && "dhcp"[0] == 'd' && "firewall"[0] == 'f' && "sqm"[0] == 's';
  }

  lemma SlugAfter(a: string, b: string)
    requires "pc_" + a == "pc_" + b
    ensures a == b
  {
    assert ("pc_" + a)[3..] == a && ("pc_" + b)[3..] == b;
  }

  /** Section names tell SSIDs and parts apart, but for a static lease of one SSID and the address pool of another. */
  lemma SectionsApart(a: string, x: Part, b: string, y: Part)
    requires SectionOf(a, x) == SectionOf(b, y) && !(x.Host? && y.Pool?) && !(x.Pool? && y.Host?)
    ensures a == b && x == y
  {
    hide Word, PrintNat;
    ConfigsApart();
    if x.Pool? || x.Queue? {
      assert "pc_" + a + "" == "pc_" + a && "pc_" + b + "" == "pc_" + b;
      SlugAfter(a, b);
    } else {
      WordPlain(x);
      WordPlain(y);
      assert "pc_" + a + ("_" + Word(x)) == ("pc_" + a) + "_" + Word(x);
      assert "pc_" + b + ("_" + Word(y)) == ("pc_" + b) + "_" + Word(y);
      LastUnderscore("pc_" + a, Word(x), "pc_" + b, Word(y));
      SlugAfter(a, b);
      WordsApart(x, y);
    }
  }

  // --- where each part stands ----------------------------------------------

  lemma {:induction false} ApsAt(s: Ssid, n: nat)
    requires n <= |EffectiveRadios(s)|
    ensures |ApPieces(s, n)| == n && forall i: nat :: i < n ==> ApPieces(s, n)[i] == ApPiece(s, i)
  {
    hide ApPiece, EffectiveRadios;
    if n > 0 {
      ApsAt(s, n - 1);
    }
  }

  lemma {:induction false} HostsAt(s: Ssid, n: nat)
    requires n <= |s.reservations|
    ensures |HostPieces(s, n)| == n && forall i: nat :: i < n ==> HostPieces(s, n)[i] == HostPiece(s, i)
  {
    hide HostPiece;
    if n > 0 {
      HostsAt(s, n - 1);
    }
  }

  lemma {:induction false} AllowsAt(s: Ssid, n: nat)
    requires n <= |s.targets|
    ensures |AllowPieces(s, n)| == n && forall i: nat :: i < n ==> AllowPieces(s, n)[i] == AllowPiece(s, i)
  {
    hide AllowPiece;
    if n > 0 {
      AllowsAt(s, n - 1);
    }
  }

  function ApParts(n: nat): seq<Part> { seq(n, i requires 0 <= i => Ap(i)) }

  function HostParts(n: nat): seq<Part> { seq(n, i requires 0 <= i => Host(i)) }

  function AllowParts(n: nat): seq<Part> { seq(n, i requires 0 <= i => Allow(i)) }

  function PoolParts(s: Ssid): seq<Part> {
    if s.dhcpDisabled then [] else [Pool] + HostParts(|s.reservations|)
  }

  function PortalParts(s: Ssid): seq<Part> { if s.gated then [Portal] else [] }

  function WallParts(s: Ssid): seq<Part> {
    [Zone, Way, Dhcp, Dns] + PortalParts(s) + AllowParts(|s.targets|)
  }

  function QueueParts(s: Ssid): seq<Part> { if s.rateDown > 0 || s.rateUp > 0 then [Queue] else [] }

  /** The parts of an SSID in the order they are rendered. */
  function PartsOf(s: Ssid): seq<Part> {
    [Device, Interface] + ApParts(|EffectiveRadios(s)|) + PoolParts(s) + WallParts(s) + QueueParts(s)
  }

  /** The pieces are those of the parts. */
  predicate Renders(s: Ssid, port: nat, ps: seq<Piece>, xs: seq<Part>) {
    |ps| == |xs| && forall k :: 0 <= k < |xs| ==> Wanted(s, xs[k]) && ps[k] == PartPiece(s, port, xs[k])
  }

  lemma RendersJoin(s: Ssid, port: nat, ps: seq<Piece>, xs: seq<Part>, qs: seq<Piece>, ys: seq<Part>)
    requires Renders(s, port, ps, xs) && Renders(s, port, qs, ys)
    ensures Renders(s, port, ps + qs, xs + ys)
  {
    hide PartPiece, Wanted;
  }

  lemma NetsRender(s: Ssid, port: nat)
    ensures Renders(s, port, [DevPiece(s), IfPiece(s)], [Device, Interface])
  {
    hide DevPiece, IfPiece;
  }

  lemma ApsRender(s: Ssid, port: nat)
    ensures Renders(s, port, ApPieces(s, |EffectiveRadios(s)|), ApParts(|EffectiveRadios(s)|))
  {
    hide ApPiece, ApPieces, EffectiveRadios;
    ApsAt(s, |EffectiveRadios(s)|);
  }

  lemma HostsRender(s: Ssid, port: nat)
    requires !s.dhcpDisabled
    ensures Renders(s, port, HostPieces(s, |s.reservations|), HostParts(|s.reservations|))
  {
    hide HostPiece, HostPieces;
    HostsAt(s, |s.reservations|);
  }

  lemma PoolRenders(s: Ssid, port: nat)
    requires !s.dhcpDisabled
    ensures Renders(s, port, [DhcpPiece(s)], [Pool])
  {
    hide DhcpPiece;
  }

  lemma DhcpRenders(s: Ssid, port: nat)
    ensures Renders(s, port, DhcpPieces(s), PoolParts(s))
  {
    hide DhcpPiece, HostPieces, PartPiece, Wanted;
    if !s.dhcpDisabled {
      HostsRender(s, port);
      PoolRenders(s, port);
      RendersJoin(s, port, [DhcpPiece(s)], [Pool], HostPieces(s, |s.reservations|), HostParts(|s.reservations|));
    }
  }

  lemma ZonesRender(s: Ssid, port: nat)
    ensures Renders(s, port, ZonePieces(s), [Zone, Way, Dhcp, Dns])
  {
    hide ZonePiece, FwdPiece, DhcpRule, DnsRule;
  }

  lemma PortalRenders(s: Ssid, port: nat)
    ensures Renders(s, port, PortalPieces(s, port), PortalParts(s))
  {
    hide PortalRule;
  }

  lemma AllowsRender(s: Ssid, port: nat)
    ensures Renders(s, port, AllowPieces(s, |s.targets|), AllowParts(|s.targets|))
  {
    hide AllowPiece, AllowPieces;
    AllowsAt(s, |s.targets|);
  }

  lemma FirewallRenders(s: Ssid, port: nat)
    ensures Renders(s, port, FirewallPieces(s, port), WallParts(s))
  {
    hide AllowPieces, ZonePieces, PortalPieces, PartPiece, Wanted, PortalParts, AllowParts, Renders;
    var zones := [Zone, Way, Dhcp, Dns];
    ZonesRender(s, port);
    PortalRenders(s, port);
    AllowsRender(s, port);
    RendersJoin(s, port, ZonePieces(s), zones, PortalPieces(s, port), PortalParts(s));
    RendersJoin(s, port, ZonePieces(s) + PortalPieces(s, port), zones + PortalParts(s), AllowPieces(s, |s.targets|),
                AllowParts(|s.targets|));
  }

  lemma QueueRenders(s: Ssid, port: nat)
    ensures Renders(s, port, SqmPieces(s), QueueParts(s))
  {
  }

  lemma SsidRenders(s: Ssid, port: nat)
    ensures Renders(s, port, SsidPieces(s, port), PartsOf(s))
  {
    hide DevPiece, IfPiece, ApPieces, DhcpPieces, FirewallPieces, SqmPieces, EffectiveRadios, PartPiece, Wanted,
         ApParts, PoolParts, WallParts, QueueParts, Renders;
    var n := |EffectiveRadios(s)|;
    var nets, parts := [DevPiece(s), IfPiece(s)], [Device, Interface];
    NetsRender(s, port);
    ApsRender(s, port);
    DhcpRenders(s, port);
    FirewallRenders(s, port);
    QueueRenders(s, port);
    RendersJoin(s, port, nets, parts, ApPieces(s, n), ApParts(n));
    RendersJoin(s, port, nets + ApPieces(s, n), parts + ApParts(n), DhcpPieces(s), PoolParts(s));
    RendersJoin(s, port, nets + ApPieces(s, n) + DhcpPieces(s), parts + ApParts(n) + PoolParts(s),
                FirewallPieces(s, port), WallParts(s));
    RendersJoin(s, port, nets + ApPieces(s, n) + DhcpPieces(s) + FirewallPieces(s, port),
                parts + ApParts(n) + PoolParts(s) + WallParts(s), SqmPieces(s), QueueParts(s));
  }

  /** Where a part stands among the kinds of parts. */
  function Rank(x: Part): nat {
    match x
    case Device => 0
    case Interface => 1
    case Ap(_) => 2
    case Pool => 3
    case Host(_) => 4
    case Zone => 5
    case Way => 6
    case Dhcp => 7
    case Dns => 8
    case Portal => 9
    case Allow(_) => 10
    case Queue => 11
  }

  predicate Rising(xs: seq<Part>, lo: nat, hi: nat) {
    && (forall k :: 0 <= k < |xs| ==> lo <= Rank(xs[k]) < hi)
    && forall j, k :: 0 <= j < k < |xs| ==> xs[j] != xs[k]
  }

  lemma RisingJoin(xs: seq<Part>, lo: nat, mid: nat, ys: seq<Part>, hi: nat)
    requires Rising(xs, lo, mid) && Rising(ys, mid, hi) && lo <= mid <= hi
    ensures Rising(xs + ys, lo, hi)
  {
    hide Rank;
  }

  lemma FixedRise(s: Ssid)
    ensures Rising([Device, Interface], 0, 2) && Rising([Pool], 3, 4) && Rising([Zone, Way, Dhcp, Dns], 5, 9)
    ensures Rising([], 3, 5) && Rising(PortalParts(s), 9, 10) && Rising(QueueParts(s), 11, 12)
  {
  }

  lemma NumberedRise(n: nat)
    ensures Rising(ApParts(n), 2, 3) && Rising(HostParts(n), 4, 5) && Rising(AllowParts(n), 10, 11)
  {
  }

  lemma PoolRises(s: Ssid)
    ensures Rising(PoolParts(s), 3, 5)
  {
    hide Rising, HostParts;
    FixedRise(s);
    NumberedRise(|s.reservations|);
    if !s.dhcpDisabled {
      RisingJoin([Pool], 3, 4, HostParts(|s.reservations|), 5);
    }
  }

  lemma PartsRise(s: Ssid)
    ensures Rising(PartsOf(s), 0, 12)
  {
    hide Rising, EffectiveRadios, ApParts, AllowParts, PoolParts, PortalParts, QueueParts;
    var n, zones := |EffectiveRadios(s)|, [Zone, Way, Dhcp, Dns];
    FixedRise(s);
    NumberedRise(n);
    NumberedRise(|s.targets|);
    PoolRises(s);
    RisingJoin([Device, Interface], 0, 2, ApParts(n), 3);
    RisingJoin([Device, Interface] + ApParts(n), 0, 3, PoolParts(s), 5);
    RisingJoin(zones, 5, 9, PortalParts(s), 10);
    RisingJoin(zones + PortalParts(s), 5, 10, AllowParts(|s.targets|), 11);
    RisingJoin([Device, Interface] + ApParts(n) + PoolParts(s), 0, 5, WallParts(s), 11);
    RisingJoin([Device, Interface] + ApParts(n) + PoolParts(s) + WallParts(s), 0, 11, QueueParts(s), 12);
  }

  lemma NumberedMember(n: nat, x: Part)
    ensures x in ApParts(n) <==> x.Ap? && x.index < n
    ensures x in HostParts(n) <==> x.Host? && x.index < n
    ensures x in AllowParts(n) <==> x.Allow? && x.index < n
  {
    assert x.Ap? && x.index < n ==> ApParts(n)[x.index] == x;
    assert x.Host? && x.index < n ==> HostParts(n)[x.index] == x;
    assert x.Allow? && x.index < n ==> AllowParts(n)[x.index] == x;
  }

  lemma PartMember(s: Ssid, x: Part)
    ensures x in PartsOf(s) <==> Wanted(s, x)
  {
    hide EffectiveRadios, ApParts, HostParts, AllowParts;
    NumberedMember(|EffectiveRadios(s)|, x);
    NumberedMember(|s.reservations|, x);
    NumberedMember(|s.targets|, x);
    assert x in PartsOf(s) <==>
           || x in [Device, Interface] || x in ApParts(|EffectiveRadios(s)|) || x in PoolParts(s)
           || x in WallParts(s) || x in QueueParts(s);
  }

  /** The parts rendered are those wanted, each once. */
  lemma PartsOnce(s: Ssid)
    ensures forall x :: x in PartsOf(s) <==> Wanted(s, x)
    ensures forall j, k :: 0 <= j < k < |PartsOf(s)| ==> PartsOf(s)[j] != PartsOf(s)[k]
  {
    hide PartsOf, Wanted, Rank;
    PartsRise(s);
    forall x ensures x in PartsOf(s) <==> Wanted(s, x) {
      PartMember(s, x);
    }
  }

  // --- one section, one piece ----------------------------------------------

  lemma {:induction false} SsidsAppend(a: seq<Ssid>, b: seq<Ssid>, port: nat)
    ensures SsidsPieces(a + b, port) == SsidsPieces(a, port) + SsidsPieces(b, port)
    decreases b
  {
    hide SsidPieces;
    if b == [] {
      assert a + b == a;
    } else {
      var n := |b| - 1;
      assert (a + b)[..|a + b| - 1] == a + b[..n];
      SsidsAppend(a, b[..n], port);
    }
  }

  /** A piece of the SSIDs is a part of one of them. */
  lemma PartOrigin(ssids: seq<Ssid>, port: nat, p: Piece) returns (s: Ssid, x: Part)
    requires p in SsidsPieces(ssids, port)
    ensures s in ssids && Wanted(s, x) && p == PartPiece(s, port, x)
    ensures p.sec == SectionOf(s.slug, x) && p.kind == KindOf(x)
  {
    hide SsidsPieces, SsidPieces, FromSsid, PartsOf, Wanted, PartPiece, SectionOf, KindOf;
    s := SsidsOrigin(ssids, port, p);
    SsidRenders(s, port);
    var k :| 0 <= k < |SsidPieces(s, port)| && SsidPieces(s, port)[k] == p;
    x := PartsOf(s)[k];
    PartSec(s, port, x);
  }

  /** A static lease of one SSID and the address pool of another share a section. */
  predicate LeaseTakes(s: Ssid, i: nat, t: Ssid) {
    && Wanted(s, Host(i)) && Wanted(t, Pool) && s.slug + "_host" + PrintNat(i) == t.slug
  }

  /** No pair takes the name of the part's section; and if the part is a static lease it is not named like an address
      pool, if it is an address pool not like a static lease. */
  ghost predicate PartKept(st: State, s: Ssid, x: Part) {
    && (forall q :: q in st.peers ==> Section("firewall", "pc_peer_" + q.from + "_" + q.to) != SectionOf(s.slug, x))
    && (x.Host? ==> forall t :: t in st.ssids ==> !LeaseTakes(s, x.index, t))
    && (x.Pool? ==> forall t, i: nat :: t in st.ssids ==> !LeaseTakes(t, i, s))
  }

  ghost predicate NamesKept(st: State) {
    forall s, x :: s in st.ssids && Wanted(s, x) ==> PartKept(st, s, x)
  }

  lemma LeaseSection(s: Ssid, i: nat, t: Ssid)
    ensures SectionOf(s.slug, Host(i)) == SectionOf(t.slug, Pool) <==> s.slug + "_host" + PrintNat(i) == t.slug
  {
    hide PrintNat;
    var a := s.slug + "_host" + PrintNat(i);
    assert NameOf(s.slug, Host(i)) == "pc_" + a;
    assert NameOf(t.slug, Pool) == "pc_" + t.slug;
    assert ("pc_" + a)[3..] == a && ("pc_" + t.slug)[3..] == t.slug;
  }

  /** A part whose name is kept shares its section with no other part. */
  lemma KeptApart(st: State, s: Ssid, x: Part, t: Ssid, y: Part)
    requires Valid(st) && PartKept(st, s, x) && s in st.ssids && t in st.ssids && Wanted(s, x) && Wanted(t, y)
    requires SectionOf(s.slug, x) == SectionOf(t.slug, y)
    ensures s == t && x == y
  {
    hide Valid, Wanted, SectionOf, PrintNat;
    ApartSlugs(st);
    if x.Host? && y.Pool? {
      LeaseSection(s, x.index, t);
    } else if x.Pool? && y.Host? {
      assert !LeaseTakes(t, y.index, s);
      LeaseSection(t, y.index, s);
    } else {
      SectionsApart(s.slug, x, t.slug, y);
    }
  }

  /** Outside the firewall and DHCP no name can be taken. */
  lemma PlainKept(st: State, s: Ssid, x: Part)
    requires ConfigOf(x) != "firewall" && ConfigOf(x) != "dhcp"
    ensures PartKept(st, s, x)
  {
  }

  lemma PeerSec(q: PeerAllow)
    ensures PeerPiece(q).sec == Section("firewall", "pc_peer_" + q.from + "_" + q.to)
    ensures PeerPiece(q).kind == "forwarding"
  {
    assert PREFIX + "peer_" == "pc_peer_";
  }

  /** The place of a part in the whole batch: no other piece there has its section. */
  lemma PlaceOf(st: State, port: nat, s: Ssid, x: Part) returns (k: nat)
    requires Valid(st) && PartKept(st, s, x) && s in st.ssids && Wanted(s, x)
    ensures var ps := StatePieces(st, port);
            && k < |ps| && ps[k] == PartPiece(s, port, x)
            && forall j :: 0 <= j < |ps| && j != k ==> ps[j].sec != SectionOf(s.slug, x)
  {
    hide Valid, PartKept, Wanted, SectionOf, PartPiece, SsidPieces, SsidsPieces, PeersPieces, PartsOf;
    var n :| 0 <= n < |st.ssids| && st.ssids[n] == s;
    var before, own := SsidsPieces(st.ssids[..n], port), SsidPieces(s, port);
    var after := SsidsPieces(st.ssids[n + 1..], port);
    SsidsSplit(st.ssids, n, port);
    SsidRenders(s, port);
    PartsOnce(s);
    var i :| 0 <= i < |PartsOf(s)| && PartsOf(s)[i] == x;
    k := |before| + i;
    var ps := StatePieces(st, port);
    assert ps == before + own + (after + PeersPieces(st.peers));
    PartSec(s, port, x);
    forall j | 0 <= j < |ps| && j != k ensures ps[j].sec != SectionOf(s.slug, x) {
      if |before| <= j < |before| + |own| {
        OwnPartApart(st, port, s, x, j - |before|, i);
      } else {
        assert j < |before| ==> ps[j] == before[j];
        assert j >= |before| + |own| ==> ps[j] == (after + PeersPieces(st.peers))[j - |before| - |own|];
        ForeignApart(st, port, s, x, n, ps[j]);
      }
    }
  }

  lemma SsidsSplit(ssids: seq<Ssid>, n: nat, port: nat)
    requires n < |ssids|
    ensures SsidsPieces(ssids, port)
         == SsidsPieces(ssids[..n], port) + SsidPieces(ssids[n], port) + SsidsPieces(ssids[n + 1..], port)
  {
    hide SsidPieces, SsidsPieces;
    assert ssids == ssids[..n + 1] + ssids[n + 1..] && ssids[..n + 1] == ssids[..n] + [ssids[n]];
    SsidsAppend(ssids[..n + 1], ssids[n + 1..], port);
    SsidsAppend(ssids[..n], [ssids[n]], port);
    OneSsid(ssids[n], port);
  }

  lemma OneSsid(s: Ssid, port: nat)
    ensures SsidsPieces([s], port) == SsidPieces(s, port)
  {
    hide SsidPieces;
    assert [s][..0] == [];
    assert SsidsPieces([], port) == [];
  }

  lemma OwnPartApart(st: State, port: nat, s: Ssid, x: Part, j: nat, i: nat)
    requires Valid(st) && PartKept(st, s, x) && s in st.ssids
    requires Renders(s, port, SsidPieces(s, port), PartsOf(s)) && j < |PartsOf(s)| && i < |PartsOf(s)| && j != i
    requires PartsOf(s)[i] == x
    requires forall j, k :: 0 <= j < k < |PartsOf(s)| ==> PartsOf(s)[j] != PartsOf(s)[k]
    ensures SsidPieces(s, port)[j].sec != SectionOf(s.slug, x)
  {
    hide Valid, PartKept, Wanted, SectionOf, PartPiece, SsidPieces, PartsOf;
    var y := PartsOf(s)[j];
    PartSec(s, port, y);
    if SectionOf(s.slug, y) == SectionOf(s.slug, x) {
      KeptApart(st, s, x, s, y);
    }
  }

  lemma ForeignApart(st: State, port: nat, s: Ssid, x: Part, n: nat, p: Piece)
    requires Valid(st) && PartKept(st, s, x) && n < |st.ssids| && st.ssids[n] == s && Wanted(s, x)
    requires || p in SsidsPieces(st.ssids[..n], port) || p in SsidsPieces(st.ssids[n + 1..], port)
             || p in PeersPieces(st.peers)
    ensures p.sec != SectionOf(s.slug, x)
  {
    hide Valid, Wanted, SectionOf, PartPiece, SsidsPieces, PeersPieces, PeerPiece;
    if p in PeersPieces(st.peers) {
      var q := PeersOrigin(st.peers, p);
      PeerSec(q);
    } else {
      var others := if p in SsidsPieces(st.ssids[..n], port) then st.ssids[..n] else st.ssids[n + 1..];
      var t, y := PartOrigin(others, port, p);
      var m :| 0 <= m < |others| && others[m] == t;
      var i := if others == st.ssids[..n] then m else n + 1 + m;
      assert st.ssids[i] == t && i != n;
      ApartPair(st, i, n);
      if p.sec == SectionOf(s.slug, x) {
        KeptApart(st, s, x, t, y);
      }
    }
  }

  /** It is enough that no slug starts `peer_` and that none is another followed by `_host` and a number. */
  lemma PlainSlugsKept(st: State)
    requires forall s :: s in st.ssids ==> !("peer_" <= s.slug)
    requires forall s, t, i: nat :: s in st.ssids && t in st.ssids ==> s.slug + "_host" + PrintNat(i) != t.slug
    ensures NamesKept(st)
  {
    hide PrintNat, SectionOf, Wanted;
    forall s, x, q | s in st.ssids && Wanted(s, x) && q in st.peers
      ensures Section("firewall", "pc_peer_" + q.from + "_" + q.to) != SectionOf(s.slug, x)
    {
      PeerNamePlain(q, s.slug, x);
    }
  }

  lemma PeerNamePlain(q: PeerAllow, slug: string, x: Part)
    requires !("peer_" <= slug)
    ensures Section("firewall", "pc_peer_" + q.from + "_" + q.to) != SectionOf(slug, x)
  {
    hide Word;
    if ConfigOf(x) == "firewall" {
      ConfigsApart();
      WordPlain(x);
      PeerNameApart(q, slug, Word(x));
      assert PREFIX + "peer_" == "pc_peer_";
    }
  }
}
