/** Who may be forwarded to whom in the store a push builds, exactly. */
module Peering {
  import opened Text
  import opened Uci
  import opened Wireless
  import opened Validate
  import opened Converge
  import opened RenderSafe
  import opened Built
  import opened Heal
  import opened Parts
  import opened Served

  ghost predicate Kept(st: State, q: PeerAllow) {
    exists k :: 0 <= k < |st.peers| && st.peers[k] == q && LastNamed(st, k)
  }

  /** No pair takes the name of the SSID's way out. */
  ghost predicate WayKept(st: State, s: Ssid) {
    forall q :: q in st.peers ==> PeerPiece(q).sec != FwdPiece(s).sec
  }

  ghost predicate WayOut(st: State, a: string, b: string) {
    exists s :: s in st.ssids && s.slug == a && Egress(s) == b && WayKept(st, s)
  }

  lemma PairSection(st: State, port: nat, q: PeerAllow)
    requires q in st.peers
    ensures PeerPiece(q).sec in SectionsOf(StatePieces(st, port))
  {
    hide PeerPiece, StatePieces;
    InStatePieces(st, port, q);
    SectionsOfAll(StatePieces(st, port));
  }

  /** Two last pairs of one name are the same pair. */
  lemma LastNamedOnce(st: State, j: nat, k: nat)
    requires j < |st.peers| && k < |st.peers| && LastNamed(st, j) && LastNamed(st, k)
    requires PeerPiece(st.peers[j]).sec == PeerPiece(st.peers[k]).sec
    ensures j == k
  {
    hide PeerPiece;
  }

  lemma KeptForwarded(st: State, port: nat, q: PeerAllow)
    requires Kept(st, q)
    ensures Forwarding(BuiltStore(st, port), PeerPiece(q).sec, q.from, q.to)
  {
    hide BuiltStore, PeerPiece, StatePieces, LastNamed, Decided;
    var k :| 0 <= k < |st.peers| && st.peers[k] == q && LastNamed(st, k);
    PairSection(st, port, q);
    var p := Decider(st, port, PeerPiece(q).sec);
    var j :| 0 <= j < |st.peers| && p == PeerPiece(st.peers[j]) && LastNamed(st, j);
    LastNamedOnce(st, j, k);
    PeerEnds(q);
    DecidedForwards(BuiltStore(st, port), p, q.from, q.to);
  }

  lemma DecidedForwards(d: Store, p: Piece, a: string, b: string)
    requires Decided(d, p) && p.kind == "forwarding"
    requires LastOne(p.fields, "src") == Some(a) && LastOne(p.fields, "dest") == Some(b)
    ensures Forwarding(d, p.sec, a, b)
  {
    hide LastOne;
    assert SetTo(d, p, "src") && SetTo(d, p, "dest");
  }

  lemma PairMark(q: PeerAllow)
    ensures LastOne(PeerPiece(q).fields, "owner") == Some("portcullis-wireless")
    ensures forall f :: f in PeerPiece(q).fields ==> f.name == "src" || f.name == "dest" || f.name == "owner"
  {
    var fs := PeerPiece(q).fields;
    assert fs[..2] == [One("src", q.from), One("dest", q.to)] && fs[2] == OWNER_FIELD;
  }

  /** A pair that is the last of its name, in a push that keeps its names, has a section of its own with its two ends
      and the owner, and nothing else. */
  lemma PairServed(st: State, port: nat, q: PeerAllow)
    requires Valid(st) && NamesKept(st) && Kept(st, q)
    ensures Is(BuiltStore(st, port), Section("firewall", "pc_peer_" + q.from + "_" + q.to), "forwarding",
               map["src" := Scalar(q.from), "dest" := Scalar(q.to), "owner" := MARK])
  {
    hide Valid, BuiltStore, PeerPiece, StatePieces, LastNamed, Decided, NamesKept, LastOne;
    var sec, d := PeerPiece(q).sec, BuiltStore(st, port);
    PeerSec(q);
    KeptForwarded(st, port, q);
    PairSection(st, port, q);
    KeptListed(st, q);
    var p := Decider(st, port, sec);
    var k :| 0 <= k < |st.peers| && p == PeerPiece(st.peers[k]) && LastNamed(st, k);
    PairMark(st.peers[k]);
    MarkHeld(d, p);
    forall n | Opt(sec, n) in d ensures n == "src" || n == "dest" || n == "owner" {
      PairOption(st, port, q, n);
    }
    assert Options(d, sec) == map["src" := Scalar(q.from), "dest" := Scalar(q.to), "owner" := MARK] by {
      ThreeOptions(d, sec, q.from, q.to);
    }
  }

  lemma MarkHeld(d: Store, p: Piece)
    requires Decided(d, p) && LastOne(p.fields, "owner") == Some("portcullis-wireless")
    ensures Opt(p.sec, "owner") in d && d[Opt(p.sec, "owner")] == MARK
  {
    hide LastOne;
    assert SetTo(d, p, "owner");
  }

  lemma ThreeOptions(d: Store, sec: Section, a: string, b: string)
    requires Forwarding(d, sec, a, b) && Opt(sec, "owner") in d && d[Opt(sec, "owner")] == MARK
    requires forall n :: Opt(sec, n) in d ==> n == "src" || n == "dest" || n == "owner"
    ensures Options(d, sec) == map["src" := Scalar(a), "dest" := Scalar(b), "owner" := MARK]
  {
    assert "owner"[0] != "src"[0] && "owner"[0] != "dest"[0] && "src"[0] != "dest"[0];
    assert forall n :: n in Options(d, sec) <==> Opt(sec, n) in d;
  }

  lemma PairOption(st: State, port: nat, q: PeerAllow, n: string)
    requires NamesKept(st) && q in st.peers && Opt(PeerPiece(q).sec, n) in BuiltStore(st, port)
    ensures n == "src" || n == "dest" || n == "owner"
  {
    hide PeerPiece, SsidsPieces, PeersPieces, Wanted, SectionOf, LayAll;
    LayAllSource(map[], StatePieces(st, port), Opt(PeerPiece(q).sec, n));
    var p :| p in StatePieces(st, port) && HasField(p, Opt(PeerPiece(q).sec, n));
    PeerSec(q);
    if p in SsidsPieces(st.ssids, port) {
      var s, x := PartOrigin(st.ssids, port, p);
    } else {
      var r := PeersOrigin(st.peers, p);
      PairMark(r);
    }
  }

  lemma WayForwarded(st: State, port: nat, s: Ssid)
    requires Valid(st) && s in st.ssids && WayKept(st, s)
    ensures Forwarding(BuiltStore(st, port), FwdPiece(s).sec, s.slug, Egress(s))
  {
    hide Valid, BuiltStore, FwdPiece, PeerPiece, Egress, Options, WayOptions, SectionOf;
    PartSec(s, port, Way);
    forall q | q in st.peers
      ensures Section("firewall", "pc_peer_" + q.from + "_" + q.to) != SectionOf(s.slug, Way)
    {
      PeerSec(q);
    }
    PartBuilt(st, port, s, Way);
    ZoneLaid(s);
    WayHeld(BuiltStore(st, port), SectionOf(s.slug, Way), s);
  }

  lemma WayHeld(d: Store, sec: Section, s: Ssid)
    requires Is(d, sec, "forwarding", WayOptions(s))
    ensures Forwarding(d, sec, s.slug, Egress(s))
  {
    assert "owner"[0] != "src"[0] && "owner"[0] != "dest"[0] && "src"[0] != "dest"[0];
    OptionHeld(d, sec, "src");
    OptionHeld(d, sec, "dest");
  }

  lemma OptionHeld(d: Store, sec: Section, n: string)
    requires n in Options(d, sec)
    ensures Opt(sec, n) in d && d[Opt(sec, n)] == Options(d, sec)[n]
  {
  }

  lemma ForwardingFrom(st: State, port: nat, sec: Section, a: string, b: string)
    requires Forwarding(BuiltStore(st, port), sec, a, b)
    ensures WayOut(st, a, b) || Kept(st, PeerAllow(a, b))
  {
    hide StatePieces, FwdPiece, PeerPiece, SsidsPieces, Egress, LastNamed, Decided, LastOne, Forwarding;
    LayAllSections(map[], StatePieces(st, port));
    assert sec in SectionsOf(StatePieces(st, port)) by {
      ForwardingDeclared(BuiltStore(st, port), sec, a, b);
    }
    var p := Decider(st, port, sec);
    if k :| 0 <= k < |st.peers| && p == PeerPiece(st.peers[k]) && LastNamed(st, k) {
      PeerEnds(st.peers[k]);
      DecidedEnds(BuiltStore(st, port), p, a, b);
      assert st.peers[k] == PeerAllow(a, b);
    } else {
      var s := WaySource(st, port, p, BuiltStore(st, port), a, b);
      FwdEnds(s);
      DecidedEnds(BuiltStore(st, port), p, a, b);
      assert WayKept(st, s);
    }
  }

  lemma ForwardingDeclared(d: Store, sec: Section, a: string, b: string)
    requires Forwarding(d, sec, a, b)
    ensures Decl(sec) in d
  {
  }

  lemma WaySource(st: State, port: nat, p: Piece, d: Store, a: string, b: string) returns (s: Ssid)
    requires p in SsidsPieces(st.ssids, port) && Decided(d, p) && Forwarding(d, p.sec, a, b)
    ensures s in st.ssids && p == FwdPiece(s)
  {
    hide SsidsPieces, SsidPieces, FromNet, FromRule, FromAp, FwdPiece, SetTo;
    s := SsidsOrigin(st.ssids, port, p);
    NotForwarding(s, port, p);
  }

  /** The forwardings of the store a valid push builds are, exactly: each SSID's to its egress zone unless a pair takes
      that section's name, and of the pairs that share a name the last one listed. */
  lemma ForwardsExactly(st: State, port: nat, a: string, b: string)
    requires Valid(st)
    ensures Forwards(BuiltStore(st, port), a, b) <==> WayOut(st, a, b) || Kept(st, PeerAllow(a, b))
  {
    hide Valid, BuiltStore, Forwarding, Egress, Kept, WayKept, FwdPiece, PeerPiece;
    if sec :| Forwarding(BuiltStore(st, port), sec, a, b) {
      ForwardingFrom(st, port, sec, a, b);
    }
    if s :| s in st.ssids && s.slug == a && Egress(s) == b && WayKept(st, s) {
      WayForwarded(st, port, s);
    }
    if Kept(st, PeerAllow(a, b)) {
      KeptForwarded(st, port, PeerAllow(a, b));
    }
  }

  // --- the pairs -----------------------------------------------------------

  ghost predicate PeerNamesDistinct(st: State) {
    forall p, q :: p in st.peers && q in st.peers && PeerPiece(p).sec == PeerPiece(q).sec ==> p == q
  }

  ghost predicate AllForwarded(st: State, port: nat) {
    forall q :: q in st.peers ==> Forwards(BuiltStore(st, port), q.from, q.to)
  }

  lemma {:induction false} LastOfName(st: State, k: nat) returns (j: nat)
    requires k < |st.peers|
    ensures k <= j < |st.peers| && PeerPiece(st.peers[j]).sec == PeerPiece(st.peers[k]).sec && LastNamed(st, j)
    decreases |st.peers| - k
  {
    hide PeerPiece;
    if j0 :| k < j0 < |st.peers| && PeerPiece(st.peers[j0]).sec == PeerPiece(st.peers[k]).sec {
      j := LastOfName(st, j0);
    } else {
      j := k;
    }
  }

  /** Every pair is the last of its name exactly when no two different pairs share one. */
  lemma KeptIffDistinct(st: State)
    ensures (forall q :: q in st.peers ==> Kept(st, q)) <==> PeerNamesDistinct(st)
  {
    hide PeerPiece, LastNamed;
    if PeerNamesDistinct(st) {
      forall q | q in st.peers ensures Kept(st, q) {
        var k :| 0 <= k < |st.peers| && st.peers[k] == q;
        var j := LastOfName(st, k);
      }
    }
    if forall q :: q in st.peers ==> Kept(st, q) {
      forall p, q | p in st.peers && q in st.peers && PeerPiece(p).sec == PeerPiece(q).sec ensures p == q {
        assert Kept(st, p) && Kept(st, q);
        var j :| 0 <= j < |st.peers| && st.peers[j] == p && LastNamed(st, j);
        var k :| 0 <= k < |st.peers| && st.peers[k] == q && LastNamed(st, k);
        LastNamedOnce(st, j, k);
      }
    }
  }

  ghost predicate OwnedSlug(st: State, z: string) {
    exists s :: s in st.ssids && s.slug == z
  }

  /** No SSID's egress zone is another SSID's own zone. */
  ghost predicate EgressOutside(st: State) {
    forall s :: s in st.ssids ==> !OwnedSlug(st, Egress(s))
  }

  lemma PeersOwned(st: State)
    requires Valid(st) && st.ssids != []
    ensures forall q :: q in st.peers ==> OwnedSlug(st, q.to) && q.to != "lan"
  {
    hide SubnetOk, SecurityOk, MacPolicyOk, TargetsOk, PoolOk, ReservationsOk, Egress, Valid;
    ValidParts(st);
    forall q | q in st.peers ensures OwnedSlug(st, q.to) && q.to != "lan" {
      var i :| 0 <= i < |st.ssids| && st.ssids[i].slug == q.to;
      assert SsidOk(st.ssids[i]);
    }
  }

  /** A listed pair is forwarded exactly when it is the last of its name or an SSID's way out says the same. So all are
      forwarded exactly when their section names are distinct - `pc_peer_<from>_<to>` does not tell `a_b` to `c` from
      `a` to `b_c` - unless an SSID leaves through another SSID's zone. */
  lemma PeersExactly(st: State, port: nat)
    requires Valid(st)
    ensures AllForwarded(st, port) <==> forall q :: q in st.peers ==> Kept(st, q) || WayOut(st, q.from, q.to)
    ensures EgressOutside(st) ==> (AllForwarded(st, port) <==> PeerNamesDistinct(st))
  {
    hide BuiltStore, Forwards, Kept, WayKept, Egress, Valid, PeerPiece;
    forall q | q in st.peers
      ensures Forwards(BuiltStore(st, port), q.from, q.to) <==> Kept(st, q) || WayOut(st, q.from, q.to)
    {
      ForwardsExactly(st, port, q.from, q.to);
      assert PeerAllow(q.from, q.to) == q;
    }
    KeptIffDistinct(st);
    if EgressOutside(st) {
      if st.ssids != [] {
        PeersOwned(st);
      }
      forall q | q in st.peers ensures !WayOut(st, q.from, q.to) {
      }
    }
  }

  // --- nothing into `lan` --------------------------------------------------

  lemma EgressNotLan(st: State, s: Ssid)
    requires Valid(st) && s in st.ssids
    ensures Egress(s) != "lan"
  {
    hide SubnetOk, SecurityOk, MacPolicyOk, TargetsOk, PoolOk, ReservationsOk, Egress, Valid;
    ValidParts(st);
    assert SsidOk(s);
  }

  lemma NoWayToLan(st: State, a: string)
    requires Valid(st)
    ensures !WayOut(st, a, "lan")
  {
    hide Valid, Egress;
    forall s | s in st.ssids ensures Egress(s) != "lan" {
      EgressNotLan(st, s);
    }
  }

  ghost predicate IntoLan(st: State, port: nat) {
    exists a :: Forwards(BuiltStore(st, port), a, "lan")
  }

  /** An accepted push forwards into `lan` exactly when it has no SSIDs and a pair into `lan` that no later pair takes
      the name of; with distinct names, exactly when it has no SSIDs and any pair into `lan`. */
  lemma IntoLanIff(st: State, port: nat)
    requires Valid(st)
    ensures IntoLan(st, port) <==> st.ssids == [] && exists q :: Kept(st, q) && q.to == "lan"
    ensures PeerNamesDistinct(st) ==>
              (IntoLan(st, port) <==> st.ssids == [] && exists q :: q in st.peers && q.to == "lan")
  {
    hide BuiltStore, Forwards, Kept, WayOut, Valid;
    forall a ensures Forwards(BuiltStore(st, port), a, "lan") <==> Kept(st, PeerAllow(a, "lan")) {
      ForwardsExactly(st, port, a, "lan");
      NoWayToLan(st, a);
    }
    forall q | Kept(st, q) ensures q in st.peers {
      KeptListed(st, q);
    }
    if st.ssids != [] {
      PeersOwned(st);
    }
    KeptIffDistinct(st);
    if q :| Kept(st, q) && q.to == "lan" {
      assert q == PeerAllow(q.from, "lan");
    }
  }

  lemma KeptListed(st: State, q: PeerAllow)
    requires Kept(st, q)
    ensures q in st.peers
  {
  }

  /** Such a push: no SSID, and one pair that nothing looked at. */
  lemma TeardownIntoLan(port: nat)
    ensures var st := State("v1", [], 0, [PeerAllow("guest", "lan")]);
            Valid(st) && Forwards(BuiltStore(st, port), "guest", "lan")
  {
    hide BuiltStore, Forwards, PeerPiece;
    var st := State("v1", [], 0, [PeerAllow("guest", "lan")]);
    assert LastNamed(st, 0);
    assert Kept(st, st.peers[0]);
    ForwardsExactly(st, port, "guest", "lan");
  }
}
