/** The boot self-heal: the gate scope read back from the persistent configuration is the one the push committed. */
module Heal {
  import opened Text
  import opened Uci
  import opened Snapshot
  import opened Wireless
  import opened Validate
  import opened Converge
  import opened RenderSafe
  import opened Protocol
  import opened Built

  const PORTAL := "_portal"

  // --- the parser, line by line --------------------------------------------

  function Dots(s: string): nat {
    if s == "" then 0 else (if s[0] == '.' then 1 else 0) + Dots(s[1..])
  }

  /** The slug of an owned section name ending in `_portal`. */
  function SlugOf(name: string): Option<string> {
    if PREFIX <= name && EndsWith(name[|PREFIX|..], PORTAL) && |name| > |PREFIX| + |PORTAL| then
      Some(name[|PREFIX|..|name| - |PORTAL|])
    else None
  }

  /** The gated slug a line of `uci show firewall` declares. */
  function GatedSlug(raw: string): Option<string> {
    match SplitOnce(Trim(raw), '=')
    case None => None
    case Some((key, val)) =>
      if Dots(key) != 1 || !IsOwnedText(key) || Unquote(val) != "rule" then None
      else match SplitOnce(key, '.') case None => None case Some((_, name)) => SlugOf(name)
  }

  function DevSection(slug: string): Section { Net(slug, "_dev") }

  function DevName(slug: string): Key { Opt(DevSection(slug), "name") }

  /** The bridge a line of `uci show network` names at `want`. The LAN bridge is never gated. */
  function BridgeAt(raw: string, want: string): Option<string> {
    match SplitOnce(Trim(raw), '=')
    case None => None
    case Some((key, val)) =>
      if key != want || Unquote(val) == "" || Unquote(val) == RESERVED_BRIDGE then None else Some(Unquote(val))
  }

  ghost predicate Derives(fw: seq<string>, net: seq<string>, b: string) {
    exists i, j :: 0 <= i < |fw| && 0 <= j < |net| && LinesGive(fw[i], net[j], b)
  }

  predicate LinesGive(f: string, n: string, b: string) {
    GatedSlug(f).Some? && BridgeAt(n, KeyText(DevName(GatedSlug(f).value))) == Some(b)
  }

  /** The LAN bridge and the empty name are never derived, whatever the lines say. */
  lemma NeverLan(fw: seq<string>, net: seq<string>, b: string)
    requires Derives(fw, net, b)
    ensures b != "br-lan" && b != ""
  {
    hide GatedSlug;
  }

  predicate Distinct(xs: seq<string>) {
    forall i, j :: 0 <= i < j < |xs| ==> xs[i] != xs[j]
  }

  method Sort(xs: seq<string>) returns (r: seq<string>)
    requires Distinct(xs)
    ensures Ascending(r) && forall y :: y in r <==> y in xs
  {
    hide Ascending;
    r := [];
    assert Ascending([]) by { NothingAscending(); }
    for i := 0 to |xs|
      invariant Ascending(r) && forall y :: y in r <==> y in xs[..i]
    {
      assert xs[..i + 1] == xs[..i] + [xs[i]];
      r := InsertAscending(r, xs[i]);
    }
    assert xs[..|xs|] == xs;
  }

  lemma NothingAscending()
    ensures Ascending([])
  {
  }

  method GatedSlugs(fw: seq<string>) returns (slugs: seq<string>)
    ensures forall s :: s in slugs <==> exists i :: 0 <= i < |fw| && GatedSlug(fw[i]) == Some(s)
  {
    hide GatedSlug;
    slugs := [];
    for i := 0 to |fw|
      invariant forall s :: s in slugs <==> exists j :: 0 <= j < i && GatedSlug(fw[j]) == Some(s)
    {
      var slug := GatedSlug(fw[i]);
      if slug.Some? && slug.value !in slugs {
        slugs := slugs + [slug.value];
      }
    }
  }

  method BridgesOf(acc: seq<string>, net: seq<string>, want: string) returns (bridges: seq<string>)
    requires Distinct(acc)
    ensures Distinct(bridges)
    ensures forall b :: b in bridges <==> b in acc || exists j :: 0 <= j < |net| && BridgeAt(net[j], want) == Some(b)
  {
    hide BridgeAt;
    bridges := acc;
    for j := 0 to |net|
      invariant Distinct(bridges)
      invariant forall b :: b in bridges <==> b in acc || exists k :: 0 <= k < j && BridgeAt(net[k], want) == Some(b)
    {
      var br := BridgeAt(net[j], want);
      if br.Some? && br.value !in bridges {
        bridges := bridges + [br.value];
      }
    }
  }

  /** The parser: the bridges of the gated slugs, each once, in order. */
  method ParseGatedBridges(firewallShow: string, networkShow: string) returns (r: seq<string>)
    ensures Ascending(r)
    ensures forall b :: b in r <==> Derives(Lines(firewallShow), Lines(networkShow), b)
  {
    hide GatedSlug, BridgeAt, Lines, Ascending, KeyText, DevName, Distinct;
    var fw, net := Lines(firewallShow), Lines(networkShow);
    var slugs := GatedSlugs(fw);
    var bridges := [];
    assert Distinct([]) by { NothingDistinct(); }
    for i := 0 to |slugs|
      invariant Distinct(bridges)
      invariant forall b :: b in bridges <==> GivenBy(slugs[..i], net, b)
    {
      ghost var before := bridges;
      bridges := BridgesOf(bridges, net, KeyText(DevName(slugs[i])));
      assert slugs[..i + 1] == slugs[..i] + [slugs[i]];
      forall b ensures b in bridges <==> GivenBy(slugs[..i + 1], net, b) {
        GivenStep(slugs[..i], slugs[i], net, b);
      }
    }
    assert slugs[..|slugs|] == slugs;
    r := Sort(bridges);
    forall b ensures GivenBy(slugs, net, b) <==> Derives(fw, net, b) {
      GivenIsDerived(slugs, fw, net, b);
    }
  }

  ghost predicate GivenBy(slugs: seq<string>, net: seq<string>, b: string) {
    exists s, j :: s in slugs && 0 <= j < |net| && BridgeAt(net[j], KeyText(DevName(s))) == Some(b)
  }

  lemma NothingDistinct()
    ensures Distinct([])
  {
  }

  lemma GivenStep(slugs: seq<string>, s: string, net: seq<string>, b: string)
    ensures GivenBy(slugs + [s], net, b) <==>
            GivenBy(slugs, net, b) || exists j :: 0 <= j < |net| && BridgeAt(net[j], KeyText(DevName(s))) == Some(b)
  {
    hide BridgeAt, KeyText, DevName;
    assert forall t :: t in slugs + [s] <==> t in slugs || t == s;
  }

  lemma GivenIsDerived(slugs: seq<string>, fw: seq<string>, net: seq<string>, b: string)
    requires forall s :: s in slugs <==> exists i :: 0 <= i < |fw| && GatedSlug(fw[i]) == Some(s)
    ensures GivenBy(slugs, net, b) <==> Derives(fw, net, b)
  {
    hide BridgeAt, KeyText, DevName, GatedSlug;
    if GivenBy(slugs, net, b) {
      var s, j :| s in slugs && 0 <= j < |net| && BridgeAt(net[j], KeyText(DevName(s))) == Some(b);
      var i :| 0 <= i < |fw| && GatedSlug(fw[i]) == Some(s);
      assert LinesGive(fw[i], net[j], b);
    }
    if Derives(fw, net, b) {
      var i, j :| 0 <= i < |fw| && 0 <= j < |net| && LinesGive(fw[i], net[j], b);
      assert GatedSlug(fw[i]).value in slugs;
    }
  }

  // --- what the parser reads off a shown store -----------------------------

  /** The slug the store gates through section `sec`. */
  function PortalSlug(k: Key, v: Value): Option<string> {
    if k.Decl? && v == Scalar("rule") then SlugOf(k.sec.name) else None
  }

  /** The store gates bridge `b` under `slug`: a portal rule, and a bridge device named `b`. */
  predicate Gates(c: Store, slug: string, b: string) {
    && slug != "" && Decl(Fw(slug, PORTAL)) in c && c[Decl(Fw(slug, PORTAL))] == Scalar("rule")
    && DevName(slug) in c && c[DevName(slug)] == Scalar(b) && b != "" && b != RESERVED_BRIDGE
  }

  ghost predicate InScope(c: Store, b: string) {
    exists slug :: Gates(c, slug, b)
  }

  lemma {:induction false} DotsNone(s: string)
    requires '.' !in s
    ensures Dots(s) == 0
  {
    if s != "" {
      DotsNone(s[1..]);
    }
  }

  lemma {:induction false} DotsAppend(a: string, b: string)
    ensures Dots(a + b) == Dots(a) + Dots(b)
  {
    if a == "" {
      assert a + b == b;
    } else {
      assert (a + b)[1..] == a[1..] + b;
      DotsAppend(a[1..], b);
    }
  }

  lemma KeyDots(k: Key)
    requires KeyOk(k)
    ensures Dots(KeyText(k)) == if k.Decl? then 1 else 2
  {
    hide Dots, NameOk;
    NameSafe(k.sec.config);
    NameSafe(k.sec.name);
    DotsNone(k.sec.config);
    DotsNone(k.sec.name);
    assert Dots(".") == 1 by { OneDot(); }
    DotsAppend(k.sec.config, ".");
    DotsAppend(k.sec.config + ".", k.sec.name);
    if k.Opt? {
      NameSafe(k.option);
      DotsNone(k.option);
      DotsAppend(SectionText(k.sec), ".");
      DotsAppend(SectionText(k.sec) + ".", k.option);
    }
  }

  lemma OneDot()
    ensures Dots(".") == 1
  {
    assert "."[1..] == "";
  }

  lemma SectionName(k: Key)
    requires KeyOk(k) && k.Decl?
    ensures SplitOnce(KeyText(k), '.') == Some((k.sec.config, k.sec.name))
  {
    hide NameOk, SplitOnce;
    NameSafe(k.sec.config);
    SplitOnceAt(k.sec.config, '.', k.sec.name);
    assert KeyText(k) == k.sec.config + ['.'] + k.sec.name;
  }

  lemma ShownParts(k: Key, v: Value)
    requires EntryOk(k, v)
    ensures SplitOnce(Trim(ShowLine(k, v)), '=') == Some((KeyText(k), ShowValue(k, v)))
  {
    hide EntryOk, KeyText, ShowValue, Trim;
    ShowLineSafe(k, v);
    assert KeyOk(k) by { EntryKey(k, v); }
    KeyTextSafe(k);
    SplitOnceAt(KeyText(k), '=', ShowValue(k, v));
    assert ShowLine(k, v) == KeyText(k) + ['='] + ShowValue(k, v);
  }

  lemma EntryKey(k: Key, v: Value)
    requires EntryOk(k, v)
    ensures KeyOk(k)
  {
  }

  lemma OwnedScalar(k: Key, v: Value)
    requires EntryOk(k, v) && Owned(k.sec) && v.Scalar?
    ensures Unquote(ShowValue(k, v)) == v.text
  {
    hide Unquote, ParseUciList, EntryOk, ShowValue;
    ShowValueParsed(k, v);
  }

  lemma DeclIsScalar(k: Key, v: Value)
    requires EntryOk(k, v) && k.Decl?
    ensures v.Scalar?
  {
  }

  lemma GatedSlugShown(k: Key, v: Value)
    requires EntryOk(k, v) && IsOwnedConfig(k.sec.config)
    ensures GatedSlug(ShowLine(k, v)) == PortalSlug(k, v)
  {
    hide EntryOk, KeyText, ShowValue, Trim, SplitOnce, Dots, IsOwnedText, Unquote, SlugOf, ShowLine;
    ShownParts(k, v);
    assert KeyOk(k) by { EntryKey(k, v); }
    KeyDots(k);
    OwnedTextIff(k);
    if k.Decl? {
      DeclIsScalar(k, v);
      SectionName(k);
      if PREFIX <= k.sec.name {
        OwnedScalar(k, v);
      } else {
        NoSlug(k.sec.name);
      }
    }
  }

  lemma NoSlug(name: string)
    requires !(PREFIX <= name)
    ensures SlugOf(name) == None
  {
  }

  lemma SlugOfIs(name: string, slug: string)
    ensures SlugOf(name) == Some(slug) <==> slug != "" && name == PREFIX + slug + PORTAL
  {
    if SlugOf(name) == Some(slug) {
      assert name == PREFIX + name[|PREFIX|..];
      assert name[|PREFIX|..] == slug + PORTAL;
    }
    if slug != "" && name == PREFIX + slug + PORTAL {
      assert name[|PREFIX|..] == slug + PORTAL;
      assert PREFIX <= name;
    }
  }

  lemma SlugNamed(name: string, slug: string)
    requires NameOk(name) && SlugOf(name) == Some(slug)
    ensures KeyOk(DevName(slug)) && Owned(DevSection(slug))
  {
    hide SlugOf;
    SlugOfIs(name, slug);
    assert forall c :: c in slug ==> c in name;
    NamedParts(slug);
  }

  lemma NamedParts(slug: string)
    requires forall c :: c in slug ==> NameChar(c)
    ensures KeyOk(DevName(slug)) && Owned(DevSection(slug))
  {
    assert NameOk("network") && NameOk("name") by {
      PlainOk("network");
      PlainOk("name");
    }
    assert NameText(PREFIX) && NameText("_dev") by {
      PlainOk(PREFIX);
      PlainOk("_dev");
    }
    assert PREFIX <= PREFIX + slug + "_dev";
    OwnedConfigs();
  }

  lemma BridgeAtShown(k: Key, v: Value, slug: string)
    requires EntryOk(k, v) && KeyOk(DevName(slug)) && Owned(DevSection(slug))
    ensures forall b :: BridgeAt(ShowLine(k, v), KeyText(DevName(slug))) == Some(b)
                   <==> k == DevName(slug) && v == Scalar(b) && b != "" && b != RESERVED_BRIDGE
  {
    hide EntryOk, KeyText, ShowValue, Trim, SplitOnce, Unquote, ShowLine, Owned, KeyOk;
    ShownParts(k, v);
    assert KeyOk(k) by { EntryKey(k, v); }
    if KeyText(k) == KeyText(DevName(slug)) {
      KeyTextInjective(k, DevName(slug));
      DevIsScalar(slug, v);
      OwnedScalar(k, v);
    }
  }

  lemma DevIsScalar(slug: string, v: Value)
    requires EntryOk(DevName(slug), v) && Owned(DevSection(slug))
    ensures v.Scalar?
  {
    assert "name" != MACLIST;
  }

  /** The lines shown are those of the entries. */
  lemma {:induction false} ShowLinesMembers(st: Store, ks: seq<Key>)
    requires forall k :: k in ks ==> k in st
    ensures |ShowLines(st, ks)| == |ks|
    ensures forall i :: 0 <= i < |ks| ==> ShowLines(st, ks)[i] == ShowLine(ks[i], st[ks[i]])
  {
    hide ShowLine;
    if ks != [] {
      ShowLinesMembers(st, ks[1..]);
    }
  }

  lemma {:induction false} ShowLinesSafe(st: Store, ks: seq<Key>)
    requires Clean(st) && forall k :: k in ks ==> k in st
    ensures Lines(Unlines(ShowLines(st, ks))) == ShowLines(st, ks)
  {
    hide ShowLine, Lines, Unlines, EntryOk;
    ShowLinesMembers(st, ks);
    forall l | l in ShowLines(st, ks) ensures LineSafe(l) {
      var i :| 0 <= i < |ks| && ShowLines(st, ks)[i] == l;
      assert ks[i] in ks;
      ShowLineSafe(ks[i], st[ks[i]]);
    }
    LinesUnlines(ShowLines(st, ks));
  }

  /** Line `i` of what `uci show cfg` prints is entry `i` of the order it prints in. */
  lemma ShownLines(e: Env, c: Store, cfg: string)
    requires Clean(c) && ShowsAll(e)
    ensures var ks, ls := e.order(c, cfg), Lines(ShowText(e, c, cfg));
            && |ls| == |ks|
            && forall i :: 0 <= i < |ks| ==>
                 ks[i] in c && ks[i].sec.config == cfg && ls[i] == ShowLine(ks[i], c[ks[i]])
  {
    hide ShowLine, Lines, Unlines, EntryOk, ShowLines;
    var ks := e.order(c, cfg);
    ShownKeys(e, c, cfg);
    ShowLinesSafe(c, ks);
    ShowLinesMembers(c, ks);
    assert forall i :: 0 <= i < |ks| ==> ks[i] in ks;
  }

  lemma ShownGives(e: Env, c: Store, i: nat, j: nat, b: string) returns (slug: string)
    requires Clean(c) && ShowsAll(e)
    requires var fw, net := Lines(ShowText(e, c, "firewall")), Lines(ShowText(e, c, "network"));
             i < |fw| && j < |net| && LinesGive(fw[i], net[j], b)
    ensures Gates(c, slug, b)
  {
    hide Clean, ShowText, Lines, ShowLine, KeyText, BridgeAt, GatedSlug, EntryOk, Owned, KeyOk, SlugOf;
    OwnedConfigs();
    ShownLines(e, c, "firewall");
    ShownLines(e, c, "network");
    var f, n := e.order(c, "firewall")[i], e.order(c, "network")[j];
    CleanAt(c, f);
    CleanAt(c, n);
    GatedSlugShown(f, c[f]);
    slug := SlugOf(f.sec.name).value;
    SlugOfIs(f.sec.name, slug);
    SlugNamed(f.sec.name, slug);
    BridgeAtShown(n, c[n], slug);
    assert f == Decl(Fw(slug, PORTAL));
  }

  lemma CleanAt(c: Store, k: Key)
    requires Clean(c) && k in c
    ensures EntryOk(k, c[k]) && NameOk(k.sec.name)
  {
  }

  lemma GatesShown(e: Env, c: Store, slug: string, b: string)
    requires Clean(c) && ShowsAll(e) && Gates(c, slug, b)
    ensures Derives(Lines(ShowText(e, c, "firewall")), Lines(ShowText(e, c, "network")), b)
  {
    hide Clean, ShowText, Lines, ShowLine, KeyText, BridgeAt, GatedSlug, EntryOk, Owned, KeyOk, SlugOf;
    OwnedConfigs();
    ShownLines(e, c, "firewall");
    ShownLines(e, c, "network");
    var f, n := Decl(Fw(slug, PORTAL)), DevName(slug);
    assert f in e.order(c, "firewall") && n in e.order(c, "network");
    var i :| 0 <= i < |e.order(c, "firewall")| && e.order(c, "firewall")[i] == f;
    var j :| 0 <= j < |e.order(c, "network")| && e.order(c, "network")[j] == n;
    CleanAt(c, f);
    CleanAt(c, n);
    SlugOfIs(f.sec.name, slug);
    GatedSlugShown(f, c[f]);
    SlugNamed(f.sec.name, slug);
    BridgeAtShown(n, c[n], slug);
    assert LinesGive(Lines(ShowText(e, c, "firewall"))[i], Lines(ShowText(e, c, "network"))[j], b);
  }

  /** Over a well-shaped store the parser reads off exactly the bridges the store gates. */
  lemma ShownScope(e: Env, c: Store, b: string)
    requires Clean(c) && ShowsAll(e)
    ensures Derives(Lines(ShowText(e, c, "firewall")), Lines(ShowText(e, c, "network")), b) <==> InScope(c, b)
  {
    hide Clean, ShowText, Lines, LinesGive, Gates;
    var fw, net := Lines(ShowText(e, c, "firewall")), Lines(ShowText(e, c, "network"));
    if Derives(fw, net, b) {
      var i, j :| 0 <= i < |fw| && 0 <= j < |net| && LinesGive(fw[i], net[j], b);
      var slug := ShownGives(e, c, i, j, b);
    }
    if InScope(c, b) {
      var slug :| Gates(c, slug, b);
      GatesShown(e, c, slug, b);
    }
  }

  // --- what a push gates ---------------------------------------------------

  /** A peer pair whose forwarding carries the name of the SSID's portal rule: `pc_peer_<x>_portal`. */
  ghost predicate PortalTaken(st: State, s: Ssid) {
    exists q :: q in st.peers && PeerPiece(q).sec == Fw(s.slug, PORTAL)
  }

  lemma LastCharApart(a: string, x: string, b: string, y: string)
    requires x != "" && y != "" && x[|x| - 1] != y[|y| - 1]
    ensures a + x != b + y
  {
    assert (a + x)[|a + x| - 1] == x[|x| - 1] && (b + y)[|b + y| - 1] == y[|y| - 1];
  }

  /** A rule of an SSID that carries a portal rule's name is that SSID's portal rule. */
  lemma RuleIsPortal(s: Ssid, port: nat, p: Piece, slug: string)
    requires FromRule(s, port, p) && p.sec == Fw(slug, PORTAL)
    ensures s.slug == slug && s.gated && p == PortalRule(s, port)
  {
    hide PortalRule, AllowPiece;
    LastCharApart(PREFIX + s.slug, "_zone", PREFIX + slug, PORTAL);
    LastCharApart(PREFIX + s.slug, "_dhcp", PREFIX + slug, PORTAL);
    LastCharApart(PREFIX + s.slug, "_dns", PREFIX + slug, PORTAL);
    if i :| 0 <= i < |s.targets| && p == AllowPiece(s, i) {
      AllowNotPortal(s, i, slug);
    } else {
      PortalName(s, port);
      SameMiddle(s.slug, slug, PORTAL);
    }
  }

  lemma PortalName(s: Ssid, port: nat)
    ensures PortalRule(s, port).sec == Fw(s.slug, PORTAL) && PortalRule(s, port).kind == "rule"
  {
  }

  lemma AllowNotPortal(s: Ssid, i: nat, slug: string)
    requires i < |s.targets|
    ensures AllowPiece(s, i).sec != Fw(slug, PORTAL)
  {
    hide PrintNat;
    var x := "_allow" + PrintNat(i);
    assert x[|x| - 1] == PrintNat(i)[|PrintNat(i)| - 1] && x[|x| - 1] in PrintNat(i);
    LastCharApart(PREFIX + s.slug, x, PREFIX + slug, PORTAL);
  }

  lemma SameMiddle(a: string, b: string, suffix: string)
    ensures PREFIX + a + suffix == PREFIX + b + suffix <==> a == b
  {
    if PREFIX + a + suffix == PREFIX + b + suffix {
      assert (PREFIX + a + suffix)[3..3 + |a|] == a && (PREFIX + b + suffix)[3..3 + |b|] == b;
    }
  }

  lemma NetNotPortal(s: Ssid, p: Piece, slug: string)
    requires FromNet(s, p)
    ensures p.sec != Fw(slug, PORTAL)
  {
    assert "firewall"[0] != "network"[0] && "firewall"[0] != "dhcp"[0] && "firewall"[0] != "sqm"[0];
  }

  /** Of an SSID's pieces only its own portal rule carries the name. */
  lemma SsidPortal(s: Ssid, port: nat, p: Piece, slug: string)
    requires FromSsid(s, port, p) && p.sec == Fw(slug, PORTAL)
    ensures s.slug == slug && s.gated && p == PortalRule(s, port)
  {
    hide FromNet, FromRule, PortalRule, ApFields, EffectiveRadios;
    if FromNet(s, p) {
      NetNotPortal(s, p, slug);
    }
    assert "firewall"[0] != "wireless"[0];
    LastCharApart(PREFIX + s.slug, "_fwd", PREFIX + slug, PORTAL);
    assert FromRule(s, port, p);
    RuleIsPortal(s, port, p, slug);
  }

  ghost predicate GatedAs(st: State, slug: string) {
    exists s :: s in st.ssids && s.slug == slug && s.gated && !PortalTaken(st, s)
  }

  /** The portal rule of the built store: there exactly for gated SSIDs whose name no peer pair took. */
  lemma PortalBuilt(st: State, port: nat, slug: string)
    ensures var k := Decl(Fw(slug, PORTAL));
            (k in BuiltStore(st, port) && BuiltStore(st, port)[k] == Scalar("rule")) <==> GatedAs(st, slug)
  {
    hide StatePieces, Decided, SsidsPieces, PeersPieces, PeerPiece, LastNamed;
    var ps, sec := StatePieces(st, port), Fw(slug, PORTAL);
    LayAllSections(map[], ps);
    if sec in SectionsOf(ps) {
      var p := Decider(st, port, sec);
      DecidedKind(BuiltStore(st, port), p);
      if k :| 0 <= k < |st.peers| && p == PeerPiece(st.peers[k]) && LastNamed(st, k) {
        TakenKind(st, port, slug, p.kind, st.peers[k]);
      } else {
        UntakenKind(st, port, slug, p);
      }
    } else {
      NotGated(st, port, slug);
    }
  }

  lemma DecidedKind(d: Store, p: Piece)
    requires Decided(d, p)
    ensures Decl(p.sec) in d && d[Decl(p.sec)] == Scalar(p.kind)
  {
  }

  lemma TakenKind(st: State, port: nat, slug: string, kind: string, q: PeerAllow)
    requires q in st.peers && PeerPiece(q).sec == Fw(slug, PORTAL) && kind == PeerPiece(q).kind
    ensures kind != "rule" && !GatedAs(st, slug)
  {
    KindsApart();
  }

  lemma UntakenKind(st: State, port: nat, slug: string, p: Piece)
    requires p in SsidsPieces(st.ssids, port) && p.sec == Fw(slug, PORTAL)
    requires forall q :: q in st.peers ==> PeerPiece(q).sec != Fw(slug, PORTAL)
    ensures p.kind == "rule" && GatedAs(st, slug)
  {
    hide SsidsPieces, FromSsid, PeerPiece, SsidPieces, PortalRule;
    var s := SsidsOrigin(st.ssids, port, p);
    SsidPortal(s, port, p, slug);
    PortalName(s, port);
  }

  lemma NotGated(st: State, port: nat, slug: string)
    requires Fw(slug, PORTAL) !in SectionsOf(StatePieces(st, port))
    ensures !GatedAs(st, slug)
  {
    hide StatePieces, PortalRule, PortalTaken;
    SectionsOfAll(StatePieces(st, port));
    forall s | s in st.ssids && s.slug == slug && s.gated ensures false {
      PortalIn(st, port, s);
      PortalName(s, port);
    }
  }

  lemma PortalIn(st: State, port: nat, s: Ssid)
    requires s in st.ssids && s.gated
    ensures PortalRule(s, port) in StatePieces(st, port)
  {
    hide SsidsPieces, PeersPieces, PortalRule, ApPieces, DhcpPieces, SqmPieces, ZonePieces, AllowPieces;
    assert PortalRule(s, port) in PortalPieces(s, port);
    SsidMember(st.ssids, s, port, PortalRule(s, port));
  }

  // --- the bridge of a slug ------------------------------------------------

  lemma NetIsDev(s: Ssid, p: Piece, slug: string)
    requires FromNet(s, p) && p.sec == DevSection(slug)
    ensures s.slug == slug && p == DevPiece(s)
  {
    LastCharApart(PREFIX + s.slug, "_if", PREFIX + slug, "_dev");
    assert "network"[0] != "dhcp"[0] && "network"[0] != "sqm"[0];
    SameMiddle(s.slug, slug, "_dev");
  }

  lemma FirewallNotDev(s: Ssid, port: nat, p: Piece, slug: string)
    requires FromRule(s, port, p) || p == FwdPiece(s)
    ensures p.sec != DevSection(slug)
  {
    assert "network"[0] != "firewall"[0];
  }

  lemma DevOnly(st: State, port: nat, p: Piece, slug: string) returns (s: Ssid)
    requires p in StatePieces(st, port) && p.sec == DevSection(slug)
    ensures s in st.ssids && s.slug == slug && p == DevPiece(s)
  {
    hide SsidsPieces, PeersPieces, DevPiece, SsidPieces, FromNet, FromRule, FwdPiece, ApFields, EffectiveRadios;
    if p in SsidsPieces(st.ssids, port) {
      s := SsidsOrigin(st.ssids, port, p);
      assert "network"[0] != "wireless"[0];
      if !FromNet(s, p) && !FromAp(s, p) {
        FirewallNotDev(s, port, p, slug);
      }
      NetIsDev(s, p, slug);
    } else {
      var q := PeersOrigin(st.peers, p);
      PeerNotDev(q, slug);
      assert false;
    }
  }

  lemma PeerNotDev(q: PeerAllow, slug: string)
    ensures PeerPiece(q).sec != DevSection(slug)
  {
    assert "network"[0] != "firewall"[0];
  }

  lemma DevNameField(s: Ssid)
    ensures LastOne(DevPiece(s).fields, "name") == Some(s.bridge)
  {
    var fs := DevPiece(s).fields;
    assert "type"[0] != "name"[0] && "owner"[0] != "name"[0];
    assert fs[..2] == [One("name", s.bridge), One("type", "bridge")];
    assert fs[..2][..1] == [One("name", s.bridge)];
    assert LastOne(fs[..2][..1], "name") == Some(s.bridge);
    assert LastOne(fs[..2], "name") == Some(s.bridge);
  }

  lemma DevIn(st: State, port: nat, s: Ssid)
    requires s in st.ssids
    ensures DevPiece(s) in StatePieces(st, port)
  {
    hide SsidsPieces, PeersPieces, DevPiece, ApPieces, DhcpPieces, SqmPieces, FirewallPieces, EffectiveRadios;
    SsidMember(st.ssids, s, port, DevPiece(s));
  }

  lemma DevLast(st: State, port: nat, slug: string) returns (t: Ssid)
    requires DevSection(slug) in SectionsOf(StatePieces(st, port))
    ensures t in st.ssids && t.slug == slug && Decided(BuiltStore(st, port), DevPiece(t))
  {
    hide StatePieces, Decided, DevPiece;
    var i := LastWins(map[], StatePieces(st, port), DevSection(slug));
    assert StatePieces(st, port)[i] in StatePieces(st, port);
    t := DevOnly(st, port, StatePieces(st, port)[i], slug);
  }

  lemma DecidedName(d: Store, s: Ssid)
    requires Decided(d, DevPiece(s))
    ensures DevName(s.slug) in d && d[DevName(s.slug)] == Scalar(s.bridge)
  {
    hide LastOne;
    DevNameField(s);
    assert SetTo(d, DevPiece(s), "name");
  }

  /** The bridge device of the built store: named after the bridge of the SSID with the slug. */
  lemma DevBuilt(st: State, port: nat, s: Ssid)
    requires s in st.ssids && forall t :: t in st.ssids && t.slug == s.slug ==> t == s
    ensures DevName(s.slug) in BuiltStore(st, port) && BuiltStore(st, port)[DevName(s.slug)] == Scalar(s.bridge)
  {
    hide StatePieces, DevPiece, Decided;
    DevIn(st, port, s);
    SectionsOfAll(StatePieces(st, port));
    assert DevPiece(s).sec == DevSection(s.slug) by { DevSec(s); }
    var t := DevLast(st, port, s.slug);
    DecidedName(BuiltStore(st, port), t);
  }

  lemma DevSec(s: Ssid)
    ensures DevPiece(s).sec == DevSection(s.slug)
  {
  }

  // --- the theorem ---------------------------------------------------------

  lemma ApartSlugs(st: State)
    requires Valid(st)
    ensures forall s, t :: s in st.ssids && t in st.ssids && (s.slug == t.slug || s.bridge == t.bridge) ==> s == t
    ensures forall s :: s in st.ssids ==> s.bridge != "" && s.bridge != RESERVED_BRIDGE && s.slug != ""
  {
    hide ShareAddress, SubnetOk, SecurityOk, MacPolicyOk, TargetsOk, PoolOk, ReservationsOk, RadiosOk;
    ValidParts(st);
    forall s, t | s in st.ssids && t in st.ssids && (s.slug == t.slug || s.bridge == t.bridge) ensures s == t {
      var i :| 0 <= i < |st.ssids| && st.ssids[i] == s;
      var j :| 0 <= j < |st.ssids| && st.ssids[j] == t;
      ApartPair(st, i, j);
    }
  }

  lemma ApartPair(st: State, i: nat, j: nat)
    requires Valid(st) && i < |st.ssids| && j < |st.ssids|
    ensures st.ssids[i].slug == st.ssids[j].slug || st.ssids[i].bridge == st.ssids[j].bridge ==> i == j
  {
    hide SsidOk, ShareAddress, PeersOk, HeaderOk;
    assert i < j ==> Apart(st.ssids[i], st.ssids[j]);
    assert j < i ==> Apart(st.ssids[j], st.ssids[i]);
  }

  lemma {:induction false} GatedBridgesOf(ssids: seq<Ssid>, b: string)
    ensures b in GatedBridges(ssids) <==> exists s :: s in ssids && s.gated && s.bridge == b
  {
    if ssids != [] {
      var init, s := ssids[..|ssids| - 1], ssids[|ssids| - 1];
      assert ssids == init + [s];
      GatedBridgesOf(init, b);
    }
  }

  /** Outside `sqm`, the layer owns exactly what a push builds. */
  ghost predicate HoldsPush(c: Store, st: State, port: nat) {
    OwnedPart(NoSqm(c)) == NoSqm(BuiltStore(st, port))
  }

  lemma HeldAt(c: Store, st: State, port: nat, k: Key)
    requires HoldsPush(c, st, port) && Owned(k.sec) && k.sec.config != SQM
    ensures SameAt(c, BuiltStore(st, port), k)
  {
    hide BuiltStore, Owned;
    var a, b := OwnedPart(NoSqm(c)), NoSqm(BuiltStore(st, port));
    assert k in a <==> k in c;
    assert k in b <==> k in BuiltStore(st, port);
    assert k in c ==> a[k] == c[k];
  }

  lemma PortalOwned(slug: string)
    ensures Owned(Fw(slug, PORTAL)) && Owned(DevSection(slug))
    ensures Fw(slug, PORTAL).config != SQM && DevSection(slug).config != SQM
  {
    assert "firewall"[0] != SQM[0] && "network"[0] != SQM[0];
    OwnedConfigs();
    assert PREFIX <= PREFIX + slug + PORTAL && PREFIX <= PREFIX + slug + "_dev";
  }

  /** What a store holding exactly a push gates: the bridges of the gated SSIDs whose portal rule no peer pair
      took the name of. */
  lemma BuiltScope(c: Store, st: State, port: nat, b: string)
    requires Valid(st) && HoldsPush(c, st, port)
    ensures InScope(c, b) <==> exists s :: s in st.ssids && s.gated && s.bridge == b && !PortalTaken(st, s)
  {
    hide Valid, BuiltStore, Owned, HoldsPush, PortalTaken, DevName, Fw;
    ApartSlugs(st);
    if InScope(c, b) {
      var slug :| Gates(c, slug, b);
      var s := GatesSource(c, st, port, slug, b);
    }
    if s :| s in st.ssids && s.gated && s.bridge == b && !PortalTaken(st, s) {
      PortalBuilt(st, port, s.slug);
      DevBuilt(st, port, s);
      PortalOwned(s.slug);
      HeldAt(c, st, port, Decl(Fw(s.slug, PORTAL)));
      DevNameSec(s.slug);
      HeldAt(c, st, port, DevName(s.slug));
      assert Gates(c, s.slug, b);
    }
  }

  lemma DevNameSec(slug: string)
    ensures DevName(slug).sec == DevSection(slug)
  {
  }

  lemma GatesSource(c: Store, st: State, port: nat, slug: string, b: string) returns (s: Ssid)
    requires Valid(st) && HoldsPush(c, st, port) && Gates(c, slug, b)
    ensures s in st.ssids && s.gated && s.bridge == b && !PortalTaken(st, s)
  {
    hide Valid, BuiltStore, Owned, HoldsPush, PortalTaken, DevName, Fw;
    ApartSlugs(st);
    PortalOwned(slug);
    HeldAt(c, st, port, Decl(Fw(slug, PORTAL)));
    DevNameSec(slug);
    HeldAt(c, st, port, DevName(slug));
    PortalBuilt(st, port, slug);
    s :| s in st.ssids && s.slug == slug && s.gated && !PortalTaken(st, s);
    DevBuilt(st, port, s);
  }

  ghost predicate HealsTo(e: Env, c: Store, gated: seq<string>) {
    forall b :: Derives(Lines(ShowText(e, c, "firewall")), Lines(ShowText(e, c, "network")), b) <==> b in gated
  }

  /** The boot self-heal inverts the compiler: over a router holding exactly a valid push it derives exactly the
      bridges of the gated SSIDs - if and only if no peer pair takes the name of a gated SSID's portal rule. */
  lemma HealInverts(e: Env, c: Store, st: State, port: nat)
    requires Valid(st) && Clean(c) && ShowsAll(e) && HoldsPush(c, st, port)
    ensures HealsTo(e, c, GatedBridges(st.ssids)) <==> forall s :: s in st.ssids && s.gated ==> !PortalTaken(st, s)
  {
    hide Valid, Clean, ShowsAll, HoldsPush, BuiltStore, Derives, InScope, PortalTaken, Lines, ShowText, GatedBridges;
    forall b
      ensures Derives(Lines(ShowText(e, c, "firewall")), Lines(ShowText(e, c, "network")), b)
         <==> exists s :: s in st.ssids && s.gated && s.bridge == b && !PortalTaken(st, s)
      ensures b in GatedBridges(st.ssids) <==> exists s :: s in st.ssids && s.gated && s.bridge == b
    {
      ShownScope(e, c, b);
      BuiltScope(c, st, port, b);
      GatedBridgesOf(st.ssids, b);
    }
    if HealsTo(e, c, GatedBridges(st.ssids)) {
      ApartSlugs(st);
      forall s | s in st.ssids && s.gated ensures !PortalTaken(st, s) {
        assert s.bridge in GatedBridges(st.ssids);
        var t :| t in st.ssids && t.gated && t.bridge == s.bridge && !PortalTaken(st, t);
      }
    }
  }

  /** No slug that starts with `peer_` is enough. */
  lemma NoPeerSlug(st: State, s: Ssid)
    requires !("peer_" <= s.slug)
    ensures !PortalTaken(st, s)
  {
    forall q | q in st.peers ensures PeerPiece(q).sec != Fw(s.slug, PORTAL) {
      assert '_' !in "portal" && PORTAL == "_" + "portal";
      PeerNameApart(q, s.slug, "portal");
    }
  }

  lemma PeerNameApart(q: PeerAllow, slug: string, w: string)
    requires !("peer_" <= slug) && '_' !in w
    ensures PREFIX + "peer_" + q.from + "_" + q.to != PREFIX + slug + ("_" + w)
  {
    var tail := q.from + "_" + q.to;
    var a, b := "peer_" + tail, slug + ("_" + w);
    assert PREFIX + "peer_" + q.from + "_" + q.to == PREFIX + a && PREFIX + slug + ("_" + w) == PREFIX + b;
    assert (PREFIX + a)[3..] == a && (PREFIX + b)[3..] == b;
    assert '_' in tail by {
      assert tail[|q.from|] == '_';
    }
    PeerTail(slug, tail, w);
  }

  /** `peer_<tail>` is `<slug>_<w>` only for a slug that starts `peer_` or for a tail that is no pair. */
  lemma PeerTail(slug: string, tail: string, w: string)
    requires '_' !in w
    ensures "peer_" + tail == slug + ("_" + w) ==> "peer_" <= slug || '_' !in tail
  {
    if "peer_" + tail == slug + ("_" + w) {
      SplitPoint(slug, tail, w);
      if |slug| == 4 {
        assert ("peer_" + tail)[5..] == tail && (slug + ("_" + w))[5..] == w;
      }
    }
  }

  lemma SplitPoint(slug: string, tail: string, w: string)
    requires "peer_" + tail == slug + ("_" + w)
    ensures |slug| == 4 || "peer_" <= slug
  {
    if |slug| < 5 {
      assert ("peer_" + tail)[|slug|] == "peer_"[|slug|] && (slug + ("_" + w))[|slug|] == '_';
      assert forall i :: 0 <= i < 4 ==> "peer_"[i] != '_';
    } else {
      assert ("peer_" + tail)[..5] == "peer_" && (slug + ("_" + w))[..5] == slug[..5];
    }
  }
}
