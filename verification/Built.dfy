/** What a valid push builds: which section comes from where, how many access points a radio carries, and who may be
    forwarded to whom. */
module Built {
  import opened Text
  import opened Uci
  import opened Wireless
  import opened Validate
  import opened Converge
  import opened RenderSafe

  // --- the last piece of a section decides ---------------------------------

  /** The value the fields leave in option `n`, when it is a scalar. */
  function LastOne(fs: seq<Field>, n: string): Option<string> {
    if fs == [] then None
    else if fs[|fs| - 1].name == n then (match fs[|fs| - 1] case One(_, v) => Some(v) case Many(_, _) => None)
    else LastOne(fs[..|fs| - 1], n)
  }

  lemma {:induction false} LayFieldsAppend(st: Store, sec: Section, a: seq<Field>, b: seq<Field>)
    ensures LayFields(st, sec, a + b) == LayFields(LayFields(st, sec, a), sec, b)
    decreases a
  {
    hide LayField;
    if a == [] {
      assert a + b == b;
    } else {
      assert (a + b)[1..] == a[1..] + b;
      LayFieldsAppend(LayField(st, sec, a[0]), sec, a[1..], b);
    }
  }

  lemma {:induction false} LayFieldsLast(st: Store, sec: Section, fs: seq<Field>, n: string)
    requires LastOne(fs, n).Some?
    ensures Opt(sec, n) in LayFields(st, sec, fs)
    ensures LayFields(st, sec, fs)[Opt(sec, n)] == Scalar(LastOne(fs, n).value)
  {
    var init, f := fs[..|fs| - 1], fs[|fs| - 1];
    assert fs == init + [f];
    LayFieldsAppend(st, sec, init, [f]);
    assert LayFields(LayFields(st, sec, init), sec, [f]) == LayField(LayFields(st, sec, init), sec, f) by {
      assert [f][1..] == [];
    }
    if f.name != n {
      LayFieldsLast(st, sec, init, n);
    }
  }

  lemma {:induction false} LayAllKeeps(st: Store, ps: seq<Piece>, k: Key)
    requires k.sec !in SectionsOf(ps)
    ensures SameAt(LayAll(st, ps), st, k)
    decreases ps
  {
    if ps != [] {
      var p := ps[0];
      assert k.sec in SectionsOf(ps[1..]) ==> k.sec in SectionsOf(ps);
      LayFieldsKeys(st[Decl(p.sec) := Scalar(p.kind)], p.sec, p.fields);
      LayAllKeeps(LayPiece(st, p), ps[1..], k);
    }
  }

  lemma LayPieceAt(st: Store, p: Piece)
    ensures Decl(p.sec) in LayPiece(st, p) && LayPiece(st, p)[Decl(p.sec)] == Scalar(p.kind)
    ensures forall n :: LastOne(p.fields, n).Some? ==> SetTo(LayPiece(st, p), p, n)
  {
    LayFieldsKeys(st[Decl(p.sec) := Scalar(p.kind)], p.sec, p.fields);
    forall n | LastOne(p.fields, n).Some? ensures SetTo(LayPiece(st, p), p, n) {
      LayFieldsLast(st[Decl(p.sec) := Scalar(p.kind)], p.sec, p.fields, n);
    }
  }

  ghost predicate SetTo(st: Store, p: Piece, n: string)
    requires LastOne(p.fields, n).Some?
  {
    Opt(p.sec, n) in st && st[Opt(p.sec, n)] == Scalar(LastOne(p.fields, n).value)
  }

  /** A section holds what `p` says: its kind, and every option `p` sets to a scalar. */
  ghost predicate Decided(st: Store, p: Piece) {
    && Decl(p.sec) in st && st[Decl(p.sec)] == Scalar(p.kind)
    && forall n :: LastOne(p.fields, n).Some? ==> SetTo(st, p, n)
  }

  /** Of the pieces that share a section the last one decides. */
  lemma {:induction false} LastWins(st: Store, ps: seq<Piece>, sec: Section) returns (i: nat)
    requires sec in SectionsOf(ps)
    ensures i < |ps| && ps[i].sec == sec && Decided(LayAll(st, ps), ps[i])
    ensures forall j :: i < j < |ps| ==> ps[j].sec != sec
    decreases ps
  {
    hide LayPiece, Decided, SetTo;
    if sec in SectionsOf(ps[1..]) {
      var k := LastWins(LayPiece(st, ps[0]), ps[1..], sec);
      i := k + 1;
      assert ps[i] == ps[1..][k];
      assert forall j :: i < j < |ps| ==> ps[j] == ps[1..][j - 1];
    } else {
      i := 0;
      NotLater(ps, sec);
      LayPieceAt(st, ps[0]);
      StillDecided(LayPiece(st, ps[0]), ps[1..], ps[0]);
    }
  }

  lemma NotLater(ps: seq<Piece>, sec: Section)
    requires ps != [] && sec !in SectionsOf(ps[1..])
    ensures forall j :: 0 < j < |ps| ==> ps[j].sec != sec
  {
    SectionsOfAll(ps[1..]);
    forall j | 0 < j < |ps| ensures ps[j].sec != sec {
      assert ps[j] == ps[1..][j - 1] && ps[1..][j - 1] in ps[1..];
    }
  }

  lemma StillDecided(st: Store, ps: seq<Piece>, p: Piece)
    requires p.sec !in SectionsOf(ps) && Decl(p.sec) in st && st[Decl(p.sec)] == Scalar(p.kind)
    requires forall n :: LastOne(p.fields, n).Some? ==> SetTo(st, p, n)
    ensures Decided(LayAll(st, ps), p)
  {
    LayAllKeeps(st, ps, Decl(p.sec));
    forall n | LastOne(p.fields, n).Some? ensures SetTo(LayAll(st, ps), p, n) {
      assert SetTo(st, p, n);
      LayAllKeeps(st, ps, Opt(p.sec, n));
    }
  }

  // --- where a piece comes from --------------------------------------------

  ghost predicate FromNet(s: Ssid, p: Piece) {
    || p == DevPiece(s) || p == IfPiece(s) || p == DhcpPiece(s)
    || (exists i :: 0 <= i < |s.reservations| && p == HostPiece(s, i))
    || (p.kind == "queue" && p.sec.config == "sqm")
  }

  ghost predicate FromAp(s: Ssid, p: Piece) {
    exists i :: 0 <= i < |EffectiveRadios(s)| && p == ApPiece(s, i)
  }

  ghost predicate FromRule(s: Ssid, port: nat, p: Piece) {
    || p == ZonePiece(s) || p == DhcpRule(s) || p == DnsRule(s) || (s.gated && p == PortalRule(s, port))
    || (exists i :: 0 <= i < |s.targets| && p == AllowPiece(s, i))
  }

  ghost predicate FromSsid(s: Ssid, port: nat, p: Piece) {
    FromNet(s, p) || FromAp(s, p) || FromRule(s, port, p) || p == FwdPiece(s)
  }

  lemma {:induction false} ApOrigin(s: Ssid, n: nat, p: Piece)
    requires n <= |EffectiveRadios(s)| && p in ApPieces(s, n)
    ensures FromAp(s, p)
  {
    hide ApPiece, EffectiveRadios;
    if p != ApPiece(s, n - 1) {
      ApOrigin(s, n - 1, p);
    }
  }

  lemma {:induction false} HostOrigin(s: Ssid, n: nat, p: Piece)
    requires n <= |s.reservations| && p in HostPieces(s, n)
    ensures exists i :: 0 <= i < |s.reservations| && p == HostPiece(s, i)
  {
    hide HostPiece;
    if p != HostPiece(s, n - 1) {
      HostOrigin(s, n - 1, p);
    }
  }

  lemma {:induction false} AllowOrigin(s: Ssid, n: nat, p: Piece)
    requires n <= |s.targets| && p in AllowPieces(s, n)
    ensures exists i :: 0 <= i < |s.targets| && p == AllowPiece(s, i)
  {
    hide AllowPiece;
    if p != AllowPiece(s, n - 1) {
      AllowOrigin(s, n - 1, p);
    }
  }

  lemma FirewallOrigin(s: Ssid, port: nat, p: Piece)
    requires p in FirewallPieces(s, port)
    ensures FromRule(s, port, p) || p == FwdPiece(s)
  {
    hide ZonePiece, FwdPiece, DhcpRule, DnsRule, PortalRule, AllowPiece, AllowPieces;
    if p in AllowPieces(s, |s.targets|) {
      AllowOrigin(s, |s.targets|, p);
    }
  }

  lemma DhcpOrigin(s: Ssid, p: Piece)
    requires p in DhcpPieces(s)
    ensures FromNet(s, p)
  {
    hide DhcpPiece, HostPiece, HostPieces, DevPiece, IfPiece;
    if p != DhcpPiece(s) {
      HostOrigin(s, |s.reservations|, p);
    }
  }

  lemma SqmOrigin(s: Ssid, p: Piece)
    requires p in SqmPieces(s)
    ensures FromNet(s, p)
  {
  }

  lemma SsidOrigin(s: Ssid, port: nat, p: Piece)
    requires p in SsidPieces(s, port)
    ensures FromSsid(s, port, p)
  {
    hide DevPiece, IfPiece, ApPieces, DhcpPieces, FirewallPieces, SqmPieces, EffectiveRadios, FwdPiece, DhcpPiece,
         HostPiece, ZonePiece, DhcpRule, DnsRule, PortalRule, AllowPiece, ApPiece;
    if p in ApPieces(s, |EffectiveRadios(s)|) {
      ApOrigin(s, |EffectiveRadios(s)|, p);
    } else if p in DhcpPieces(s) {
      DhcpOrigin(s, p);
    } else if p in FirewallPieces(s, port) {
      FirewallOrigin(s, port, p);
    } else if p in SqmPieces(s) {
      SqmOrigin(s, p);
    }
  }

  lemma {:induction false} SsidsOrigin(ssids: seq<Ssid>, port: nat, p: Piece) returns (s: Ssid)
    requires p in SsidsPieces(ssids, port)
    ensures s in ssids && FromSsid(s, port, p) && p in SsidPieces(s, port)
  {
    hide FromSsid, SsidPieces;
    s := ssids[|ssids| - 1];
    if p in SsidPieces(s, port) {
      SsidOrigin(s, port, p);
    } else {
      s := SsidsOrigin(ssids[..|ssids| - 1], port, p);
    }
  }

  lemma {:induction false} PeersOrigin(peers: seq<PeerAllow>, p: Piece) returns (q: PeerAllow)
    requires p in PeersPieces(peers)
    ensures q in peers && p == PeerPiece(q)
  {
    hide PeerPiece;
    q := peers[|peers| - 1];
    if p != PeerPiece(q) {
      q := PeersOrigin(peers[..|peers| - 1], p);
    }
  }

  // --- who may be forwarded to whom ----------------------------------------

  /** Section `sec` of the store is a forwarding from zone `a` to zone `b`. */
  predicate Forwarding(d: Store, sec: Section, a: string, b: string) {
    && Decl(sec) in d && d[Decl(sec)] == Scalar("forwarding")
    && Opt(sec, "src") in d && d[Opt(sec, "src")] == Scalar(a)
    && Opt(sec, "dest") in d && d[Opt(sec, "dest")] == Scalar(b)
  }

  ghost predicate Forwards(d: Store, a: string, b: string) {
    exists sec :: Forwarding(d, sec, a, b)
  }

  function BuiltStore(st: State, port: nat): Store {
    Desired(StatePieces(st, port))
  }

  lemma RuleKinds(s: Ssid, port: nat, p: Piece)
    requires FromRule(s, port, p)
    ensures p.kind == "zone" || p.kind == "rule"
  {
  }

  lemma NetKinds(s: Ssid, p: Piece)
    requires FromNet(s, p)
    ensures p.kind == "device" || p.kind == "interface" || p.kind == "dhcp" || p.kind == "host" || p.kind == "queue"
  {
  }

  lemma KindsApart()
    ensures var ks := ["forwarding", "zone", "rule", "device", "interface", "dhcp", "host", "queue", "wifi-iface"];
            forall i, j :: 0 <= i < j < 9 ==> ks[i] != ks[j]
  {
    assert "zone"[0] != "rule"[0] && "zone"[0] != "dhcp"[0] && "zone"[0] != "host"[0];
    assert "rule"[0] != "dhcp"[0] && "rule"[0] != "host"[0] && "dhcp"[0] != "host"[0];
    assert "forwarding"[0] != "wifi-iface"[0];
    assert |"forwarding"| == 10 && |"device"| == 6 && |"interface"| == 9 && |"queue"| == 5;
  }

  lemma NotForwarding(s: Ssid, port: nat, p: Piece)
    requires p.kind == "forwarding"
    ensures !FromNet(s, p) && !FromRule(s, port, p) && !FromAp(s, p)
  {
    hide FromNet, FromRule, ApFields;
    KindsApart();
    if FromNet(s, p) {
      NetKinds(s, p);
    }
    if FromRule(s, port, p) {
      RuleKinds(s, port, p);
    }
  }

  lemma FwdEnds(s: Ssid)
    ensures FwdPiece(s).kind == "forwarding"
    ensures LastOne(FwdPiece(s).fields, "src") == Some(s.slug)
    ensures LastOne(FwdPiece(s).fields, "dest") == Some(Egress(s))
  {
    EndsOf(s.slug, Egress(s));
  }

  lemma PeerEnds(q: PeerAllow)
    ensures PeerPiece(q).kind == "forwarding"
    ensures LastOne(PeerPiece(q).fields, "src") == Some(q.from)
    ensures LastOne(PeerPiece(q).fields, "dest") == Some(q.to)
  {
    EndsOf(q.from, q.to);
  }

  lemma EndsOf(a: string, b: string)
    ensures LastOne([One("src", a), One("dest", b), OWNER_FIELD], "src") == Some(a)
    ensures LastOne([One("src", a), One("dest", b), OWNER_FIELD], "dest") == Some(b)
  {
    var fs := [One("src", a), One("dest", b), OWNER_FIELD];
    assert fs[..2] == [One("src", a), One("dest", b)];
    assert "owner"[0] != "src"[0] && "owner"[0] != "dest"[0] && "src"[0] != "dest"[0];
    assert fs[..2][..1] == [One("src", a)];
    assert LastOne([One("src", a)], "src") == Some(a);
    assert LastOne(fs[..2], "src") == Some(a) && LastOne(fs[..2], "dest") == Some(b);
  }

  lemma DecidedEnds(d: Store, p: Piece, a: string, b: string)
    requires Decided(d, p) && Forwarding(d, p.sec, a, b)
    requires LastOne(p.fields, "src").Some? && LastOne(p.fields, "dest").Some?
    ensures LastOne(p.fields, "src").value == a && LastOne(p.fields, "dest").value == b
  {
    hide LastOne;
    assert SetTo(d, p, "src") && SetTo(d, p, "dest");
  }

  /** The k-th pair is the last one listed under its section name. */
  ghost predicate LastNamed(st: State, k: nat)
    requires k < |st.peers|
  {
    forall j :: k < j < |st.peers| ==> PeerPiece(st.peers[j]).sec != PeerPiece(st.peers[k]).sec
  }

  lemma {:induction false} PeersAt(peers: seq<PeerAllow>, k: nat)
    requires k < |peers|
    ensures |PeersPieces(peers)| == |peers| && PeersPieces(peers)[k] == PeerPiece(peers[k])
  {
    hide PeerPiece;
    if k < |peers| - 1 {
      PeersAt(peers[..|peers| - 1], k);
    } else {
      PeersCount(peers[..|peers| - 1]);
    }
  }

  lemma {:induction false} PeersCount(peers: seq<PeerAllow>)
    ensures |PeersPieces(peers)| == |peers|
  {
    if peers != [] {
      PeersCount(peers[..|peers| - 1]);
    }
  }

  /** The pieces of a push: first those of the SSIDs, then one for each pair. */
  lemma StatePiecesAt(st: State, port: nat, i: nat)
    requires i < |StatePieces(st, port)|
    ensures var n := |SsidsPieces(st.ssids, port)|;
            && |StatePieces(st, port)| == n + |st.peers|
            && (i < n ==> StatePieces(st, port)[i] in SsidsPieces(st.ssids, port))
            && (i >= n ==> StatePieces(st, port)[i] == PeerPiece(st.peers[i - n]))
  {
    hide SsidsPieces, PeersPieces, PeerPiece;
    PeersCount(st.peers);
    if i >= |SsidsPieces(st.ssids, port)| {
      PeersAt(st.peers, i - |SsidsPieces(st.ssids, port)|);
    }
  }

  /** Which piece decides a section: the last pair named so, or a piece of an SSID when no pair is. */
  lemma Decider(st: State, port: nat, sec: Section) returns (p: Piece)
    requires sec in SectionsOf(StatePieces(st, port))
    ensures p.sec == sec && Decided(BuiltStore(st, port), p)
    ensures || (exists k :: 0 <= k < |st.peers| && p == PeerPiece(st.peers[k]) && LastNamed(st, k))
            || (p in SsidsPieces(st.ssids, port) && forall q :: q in st.peers ==> PeerPiece(q).sec != sec)
  {
    hide SsidsPieces, PeersPieces, PeerPiece, Decided, StatePieces;
    var ps, n := StatePieces(st, port), |SsidsPieces(st.ssids, port)|;
    var i := LastWins(map[], ps, sec);
    p := ps[i];
    StatePiecesAt(st, port, i);
    forall j | 0 <= j < |st.peers| && n + j > i ensures PeerPiece(st.peers[j]).sec != sec {
      StatePiecesAt(st, port, n + j);
    }
    if i >= n {
      assert LastNamed(st, i - n);
    }
  }

  lemma InStatePieces(st: State, port: nat, r: PeerAllow)
    requires r in st.peers
    ensures PeerPiece(r) in StatePieces(st, port)
  {
    hide PeerPiece, SsidsPieces, PeersPieces;
    PeerMember(st.peers, r);
  }

  // --- how many access points a radio carries ------------------------------

  /** The `wifi-iface` sections of the store that sit on radio `r`. */
  function Vifs(d: Store, r: string): set<Section> {
    set k | k in d && k.Decl? && d[k] == Scalar("wifi-iface")
            && Opt(k.sec, "device") in d && d[Opt(k.sec, "device")] == Scalar(r) :: k.sec
  }

  predicate IsAp(p: Piece, r: string) {
    p.kind == "wifi-iface" && LastOne(p.fields, "device") == Some(r)
  }

  function Aps(ps: seq<Piece>, r: string): nat {
    if ps == [] then 0 else (if IsAp(ps[0], r) then 1 else 0) + Aps(ps[1..], r)
  }

  function ApSecs(ps: seq<Piece>, r: string): set<Section> {
    if ps == [] then {} else (if IsAp(ps[0], r) then {ps[0].sec} else {}) + ApSecs(ps[1..], r)
  }

  lemma {:induction false} ApSecsCount(ps: seq<Piece>, r: string)
    ensures |ApSecs(ps, r)| <= Aps(ps, r)
    ensures forall i :: 0 <= i < |ps| && IsAp(ps[i], r) ==> ps[i].sec in ApSecs(ps, r)
  {
    hide IsAp;
    if ps != [] {
      ApSecsCount(ps[1..], r);
      var one := if IsAp(ps[0], r) then {ps[0].sec} else {};
      UnionSize(one, ApSecs(ps[1..], r));
      forall i | 0 <= i < |ps| && IsAp(ps[i], r) ensures ps[i].sec in ApSecs(ps, r) {
        if i > 0 {
          assert ps[i] == ps[1..][i - 1];
        }
      }
    }
  }

  lemma UnionSize(a: set<Section>, b: set<Section>)
    ensures |a + b| <= |a| + |b|
  {
    assert |a + b| + |a * b| == |a| + |b|;
  }

  lemma {:induction false} ApsAppend(a: seq<Piece>, b: seq<Piece>, r: string)
    ensures Aps(a + b, r) == Aps(a, r) + Aps(b, r)
  {
    hide IsAp;
    if a == [] {
      assert a + b == b;
    } else {
      assert (a + b)[1..] == a[1..] + b;
      ApsAppend(a[1..], b, r);
    }
  }

  lemma {:induction false} NoAps(ps: seq<Piece>, r: string)
    requires forall p :: p in ps ==> p.kind != "wifi-iface"
    ensures Aps(ps, r) == 0
  {
    if ps != [] {
      NoAps(ps[1..], r);
    }
  }

  lemma {:induction false} LastOneSkip(a: seq<Field>, b: seq<Field>, n: string)
    requires forall f :: f in b ==> f.name != n
    ensures LastOne(a + b, n) == LastOne(a, n)
  {
    if b == [] {
      assert a + b == a;
    } else {
      assert (a + b)[..|a + b| - 1] == a + b[..|b| - 1];
      assert b[|b| - 1] in b;
      LastOneSkip(a, b[..|b| - 1], n);
    }
  }

  predicate NotD(fs: seq<Field>) {
    forall f :: f in fs ==> f.name != "" && f.name[0] != 'd'
  }

  lemma SkipNotD(a: seq<Field>, b: seq<Field>)
    requires NotD(b)
    ensures LastOne(a + b, "device") == LastOne(a, "device")
  {
    hide LastOne;
    LastOneSkip(a, b, "device");
  }

  lemma OneNotD(n: string, v: string)
    requires n != "" && n[0] != 'd'
    ensures NotD([One(n, v)])
  {
  }

  lemma CoreDevice(radio: string, mode: string, net: string, ssid: string, enc: string)
    ensures LastOne([One("device", radio), One("mode", mode), One("network", net), One("ssid", ssid),
                     One("encryption", enc)], "device") == Some(radio)
  {
    var rest := [One("mode", mode), One("network", net), One("ssid", ssid), One("encryption", enc)];
    assert NotD(rest);
    SkipNotD([One("device", radio)], rest);
    assert [One("device", radio)] + rest
        == [One("device", radio), One("mode", mode), One("network", net), One("ssid", ssid), One("encryption", enc)];
    assert LastOne([One("device", radio)], "device") == Some(radio);
  }

  lemma PmfNotD(s: Ssid)
    ensures NotD(PmfFields(s))
  {
    hide Encryption;
  }

  lemma MacNotD(s: Ssid)
    ensures NotD(MacFields(s))
  {
    hide LowerAll;
  }

  lemma ApDevice(s: Ssid, radio: string)
    ensures LastOne(ApFields(s, radio), "device") == Some(radio)
  {
    hide PrintNat, LowerAll, IfName, Mode, Encryption, PmfFields, MacFields, LastOne, NotD;
    var a := [One("device", radio), One("mode", Mode(s)), One("network", IfName(s.slug)), One("ssid", s.ssid),
              One("encryption", Encryption(s))];
    CoreDevice(radio, Mode(s), IfName(s.slug), s.ssid, Encryption(s));
    var b := if Encryption(s) != "none" then [One("key", s.key)] else [];
    var c := [One("isolate", if s.isolate then "1" else "0")];
    var d := if s.hidden then [One("hidden", "1")] else [];
    var r := if s.fastTransition then [One("ieee80211r", "1")] else [];
    var m := if s.maxClients > 0 then [One("maxassoc", PrintNat(s.maxClients))] else [];
    OneNotD("key", s.key);
    OneNotD("isolate", if s.isolate then "1" else "0");
    OneNotD("hidden", "1");
    OneNotD("ieee80211r", "1");
    OneNotD("maxassoc", PrintNat(s.maxClients));
    OneNotD("owner", OWNER);
    EmptyNotD();
    SkipNotD(a, b);
    SkipNotD(a + b, c);
    SkipNotD(a + b + c, d);
    PmfNotD(s);
    SkipNotD(a + b + c + d, PmfFields(s));
    SkipNotD(a + b + c + d + PmfFields(s), r);
    SkipNotD(a + b + c + d + PmfFields(s) + r, m);
    MacNotD(s);
    SkipNotD(a + b + c + d + PmfFields(s) + r + m, MacFields(s));
    SkipNotD(a + b + c + d + PmfFields(s) + r + m + MacFields(s), [OWNER_FIELD]);
  }

  lemma EmptyNotD()
    ensures NotD([])
  {
  }

  lemma {:induction false} ApPiecesCount(s: Ssid, n: nat, r: string)
    requires n <= |EffectiveRadios(s)|
    ensures Aps(ApPieces(s, n), r) == CountOf(EffectiveRadios(s)[..n], r)
  {
    hide ApFields, EffectiveRadios;
    if n > 0 {
      ApPiecesCount(s, n - 1, r);
      var p := ApPiece(s, n - 1);
      ApDevice(s, EffectiveRadios(s)[n - 1]);
      ApsAppend(ApPieces(s, n - 1), [p], r);
      assert Aps([p], r) == if IsAp(p, r) then 1 else 0 by {
        assert [p][1..] == [];
      }
      assert EffectiveRadios(s)[..n][..n - 1] == EffectiveRadios(s)[..n - 1];
    }
  }

  predicate NotAp(p: Piece) {
    p.kind != "wifi-iface"
  }

  lemma OthersNotAp(s: Ssid, port: nat)
    ensures forall p :: p in DhcpPieces(s) + FirewallPieces(s, port) + SqmPieces(s) ==> NotAp(p)
    ensures NotAp(DevPiece(s)) && NotAp(IfPiece(s))
  {
    hide DhcpPieces, FirewallPieces, SqmPieces, FromNet, FromRule;
    KindsApart();
    forall p | p in DhcpPieces(s) + FirewallPieces(s, port) + SqmPieces(s) ensures NotAp(p) {
      OtherNotAp(s, port, p);
    }
    assert NotAp(DevPiece(s)) by { NetKinds(s, DevPiece(s)); }
    assert NotAp(IfPiece(s)) by { NetKinds(s, IfPiece(s)); }
  }

  lemma OtherNotAp(s: Ssid, port: nat, p: Piece)
    requires p in DhcpPieces(s) + FirewallPieces(s, port) + SqmPieces(s)
    ensures NotAp(p)
  {
    hide DhcpPieces, FirewallPieces, SqmPieces, FromNet, FromRule;
    KindsApart();
    if p in DhcpPieces(s) {
      DhcpOrigin(s, p);
      NetKinds(s, p);
    } else if p in SqmPieces(s) {
      SqmOrigin(s, p);
      NetKinds(s, p);
    } else {
      FirewallOrigin(s, port, p);
      if FromRule(s, port, p) {
        RuleKinds(s, port, p);
      }
    }
  }

  lemma SsidAps(s: Ssid, port: nat, r: string)
    ensures Aps(SsidPieces(s, port), r) == CountOf(EffectiveRadios(s), r)
  {
    hide DhcpPieces, FirewallPieces, SqmPieces, ApPieces, EffectiveRadios, Aps, DevPiece, IfPiece, CountOf;
    var nets, aps := [DevPiece(s), IfPiece(s)], ApPieces(s, |EffectiveRadios(s)|);
    var rest := DhcpPieces(s) + FirewallPieces(s, port) + SqmPieces(s);
    OthersNotAp(s, port);
    NoAps(nets, r);
    NoAps(rest, r);
    ApPiecesCount(s, |EffectiveRadios(s)|, r);
    assert EffectiveRadios(s)[..|EffectiveRadios(s)|] == EffectiveRadios(s);
    ApsAppend(nets, aps, r);
    ApsAppend(nets + aps, rest, r);
    assert SsidPieces(s, port) == nets + aps + rest;
  }

  lemma {:induction false} SsidsAps(ssids: seq<Ssid>, port: nat, r: string)
    ensures Aps(SsidsPieces(ssids, port), r) == VifCount(ssids, r)
  {
    hide SsidPieces, CountOf, EffectiveRadios;
    if ssids != [] {
      var init, s := ssids[..|ssids| - 1], ssids[|ssids| - 1];
      SsidsAps(init, port, r);
      SsidAps(s, port, r);
      ApsAppend(SsidsPieces(init, port), SsidPieces(s, port), r);
    }
  }

  lemma PeersNoAps(peers: seq<PeerAllow>, r: string)
    ensures Aps(PeersPieces(peers), r) == 0
  {
    hide PeersPieces;
    forall p | p in PeersPieces(peers) ensures p.kind != "wifi-iface" {
      var q := PeersOrigin(peers, p);
      KindsApart();
    }
    NoAps(PeersPieces(peers), r);
  }

  /** Every access point of the built store was counted by the validator. */
  lemma VifsCounted(st: State, port: nat, r: string)
    ensures |Vifs(BuiltStore(st, port), r)| <= VifCount(st.ssids, r)
  {
    hide StatePieces, LastOne;
    var ps := StatePieces(st, port);
    assert Aps(ps, r) == VifCount(st.ssids, r) by {
      StateAps(st, port, r);
    }
    ApSecsCount(ps, r);
    forall sec | sec in Vifs(BuiltStore(st, port), r) ensures sec in ApSecs(ps, r) {
      VifSection(st, port, sec, r);
    }
    SubsetSize(Vifs(BuiltStore(st, port), r), ApSecs(ps, r));
  }

  lemma {:induction false} SubsetSize(a: set<Section>, b: set<Section>)
    requires a <= b
    ensures |a| <= |b|
  {
    assert b == a + (b - a);
  }

  lemma StateAps(st: State, port: nat, r: string)
    ensures Aps(StatePieces(st, port), r) == VifCount(st.ssids, r)
  {
    hide SsidsPieces, PeersPieces, Aps;
    SsidsAps(st.ssids, port, r);
    PeersNoAps(st.peers, r);
    ApsAppend(SsidsPieces(st.ssids, port), PeersPieces(st.peers), r);
  }

  lemma VifSection(st: State, port: nat, sec: Section, r: string)
    requires sec in Vifs(BuiltStore(st, port), r)
    ensures sec in ApSecs(StatePieces(st, port), r)
  {
    hide StatePieces, LastOne, ApSecs;
    var ps := StatePieces(st, port);
    LayAllSections(map[], ps);
    var i := LastWins(map[], ps, sec);
    assert ps[i] in ps;
    ApKindOrigin(st, port, ps[i]);
    assert SetTo(BuiltStore(st, port), ps[i], "device");
    ApSecsCount(ps, r);
  }

  lemma ApKindOrigin(st: State, port: nat, p: Piece)
    requires p in StatePieces(st, port) && p.kind == "wifi-iface"
    ensures LastOne(p.fields, "device").Some?
  {
    hide SsidsPieces, PeersPieces, FromNet, FromRule, PeerPiece, FwdPiece, LastOne, SsidPieces, EffectiveRadios,
         ApFields;
    KindsApart();
    if p in SsidsPieces(st.ssids, port) {
      var s := SsidsOrigin(st.ssids, port, p);
      if FromAp(s, p) {
        var i :| 0 <= i < |EffectiveRadios(s)| && p == ApPiece(s, i);
        ApDevice(s, EffectiveRadios(s)[i]);
      } else {
        NotApKind(s, port, p);
      }
    } else {
      var q := PeersOrigin(st.peers, p);
      PeerEnds(q);
    }
  }

  lemma NotApKind(s: Ssid, port: nat, p: Piece)
    requires FromSsid(s, port, p) && !FromAp(s, p)
    ensures p.kind != "wifi-iface"
  {
    hide FromNet, FromRule, FromAp, FwdPiece, LastOne;
    KindsApart();
    if FromNet(s, p) {
      NetKinds(s, p);
    } else if FromRule(s, port, p) {
      RuleKinds(s, port, p);
    } else {
      FwdEnds(s);
    }
  }

  /** The hardware limit holds of the store a validated push builds. */
  lemma RadioNotOverloaded(st: State, port: nat, r: string)
    requires Valid(st)
    ensures |Vifs(BuiltStore(st, port), r)| <= 4
  {
    hide Vifs, BuiltStore, AllApart, PeersOk, HeaderOk;
    VifsCounted(st, port, r);
  }
}
