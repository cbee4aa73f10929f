/** Which gate scope the daemon restores when it starts: after a restart from the tmpfs file, after a reboot from the
    persistent configuration. */
module Boot {
  import opened Text
  import opened Uci
  import opened Snapshot
  import opened Wireless
  import opened Validate
  import opened Converge
  import opened RenderSafe
  import opened Protocol
  import opened Safety
  import opened Restore
  import opened Heal

  /** The gated set a start finds: the committed file, else what the configuration gives, else the static seed. */
  function Found(file: Option<string>, derived: seq<string>, seed: seq<string>): seq<string> {
    match file
    case Some(text) => SplitList(text, ',')
    case None => if derived == [] then seed else derived
  }

  /** The scope enforced after a start: the backend is built over the static seed and re-scoped only to a set that is
      not empty. */
  function Enforced(file: Option<string>, derived: seq<string>, seed: seq<string>): seq<string> {
    var found := Found(file, derived, seed);
    if found == [] then seed else found
  }

  ghost predicate SameScope(a: seq<string>, b: seq<string>) {
    forall x :: x in a <==> x in b
  }

  lemma CommittedFile(st: State)
    requires Valid(st)
    ensures SplitList(Join(GatedBridges(st.ssids), ','), ',') == GatedBridges(st.ssids)
  {
    hide GatedBridges, Valid, NameOk, SsidOk;
    ValidParts(st);
    GatedNames(st.ssids);
    forall p | p in GatedBridges(st.ssids) ensures p != "" && ',' !in p {
      NameNoComma(p);
    }
    SplitListJoin(GatedBridges(st.ssids), ',');
  }

  lemma NameNoComma(s: string)
    requires NameOk(s)
    ensures s != "" && ',' !in s
  {
  }

  /** A push made while nothing was staged, none of whose deletes failed, holds exactly what it rendered, `sqm` left
      aside. */
  lemma AcceptedHolds(e: Env, cfg: Config, s: Engine, st: State, now: int, base: Store)
    requires Inv(s, base) && ShowsAll(e) && EventOk(SetWireless(st, now)) && StepSet(e, cfg, s, st, now).1
    requires s.world.staged == s.world.committed && DeletesQuiet(e, s)
    ensures Clean(StepSet(e, cfg, s, st, now).0.world.committed)
    ensures HoldsPush(StepSet(e, cfg, s, st, now).0.world.committed, st, cfg.port)
  {
    hide Inv, ShowsAll, StepSet, StatePieces, OwnedPart, Desired, EventOk, Clean, NoSqm, DeletesQuiet, SqmShown;
    InvClean(s, base);
    AcceptedStaged(e, cfg, s, st, now);
    AcceptedGood(e, cfg, s, st, now, base);
    InvClean(StepSet(e, cfg, s, st, now).0, base);
  }

  /** What the daemon derives from the configuration of an accepted push. */
  ghost predicate DerivedFrom(e: Env, c: Store, derived: seq<string>) {
    forall b ::
      b in derived <==> Derives(Lines(ShowText(e, c, "firewall")), Lines(ShowText(e, c, "network")), b)
  }

  lemma DerivedBridges(e: Env, c: Store, st: State, port: nat, derived: seq<string>)
    requires Valid(st) && Clean(c) && ShowsAll(e) && HoldsPush(c, st, port) && DerivedFrom(e, c, derived)
    ensures forall b ::
              b in derived <==> exists s :: s in st.ssids && s.gated && s.bridge == b && !PortalTaken(st, s)
  {
    hide Valid, Clean, ShowsAll, HoldsPush, Derives, InScope, PortalTaken, Lines, ShowText;
    forall b ensures b in derived <==> exists s :: s in st.ssids && s.gated && s.bridge == b && !PortalTaken(st, s) {
      ShownScope(e, c, b);
      BuiltScope(c, st, port, b);
    }
  }

  ghost predicate NoneTaken(st: State) {
    forall t :: t in st.ssids && t.gated ==> !PortalTaken(st, t)
  }

  ghost predicate AllTaken(st: State) {
    forall t :: t in st.ssids && t.gated ==> PortalTaken(st, t)
  }

  /** The two ways to start, over what a push gates and what can be derived of it. */
  lemma StartsAgree(st: State, text: string, derived: seq<string>, seed: seq<string>)
    requires Valid(st) && SplitList(text, ',') == GatedBridges(st.ssids)
    requires forall b ::
               b in derived <==> exists s :: s in st.ssids && s.gated && s.bridge == b && !PortalTaken(st, s)
    ensures SameScope(Enforced(Some(text), [], seed), Enforced(None, derived, seed))
       <==> NoneTaken(st) || (AllTaken(st) && SameScope(seed, GatedBridges(st.ssids)))
  {
    hide Valid, GatedBridges, PortalTaken, SplitList;
    var gated := GatedBridges(st.ssids);
    ApartSlugs(st);
    forall b ensures b in gated <==> exists s :: s in st.ssids && s.gated && s.bridge == b {
      GatedBridgesOf(st.ssids, b);
    }
    SomethingIn(gated);
    SomethingIn(derived);
    SomethingIn(seed);
    if t :| t in st.ssids && t.gated && PortalTaken(st, t) {
      assert t.bridge in gated && t.bridge !in derived;
    }
    if t :| t in st.ssids && t.gated && !PortalTaken(st, t) {
      assert t.bridge in gated && t.bridge in derived;
    }
  }

  /** After such a push is confirmed, a daemon restart and a reboot enforce the same scope - if and only if no peer pair
      took the name of a gated SSID's portal rule, or pairs took them all and the static seed says the same. What a
      restart enforces is what the push gates, unless the push gates nothing and there is a static seed: a confirmed
      teardown of the gate does not survive it, the seed is gated again. */
  lemma BootScopesAgree(e: Env, cfg: Config, s: Engine, st: State, now: int, base: Store, derived: seq<string>,
                        seed: seq<string>)
    requires Inv(s, base) && ShowsAll(e) && EventOk(SetWireless(st, now)) && StepSet(e, cfg, s, st, now).1
    requires s.world.staged == s.world.committed && DeletesQuiet(e, s)
    requires DerivedFrom(e, StepSet(e, cfg, s, st, now).0.world.committed, derived)
    ensures var (r, ok) := StepConfirm(StepSet(e, cfg, s, st, now).0, st.version);
            && ok
            && (SameScope(Enforced(r.committedGated, [], seed), Enforced(None, derived, seed))
                <==> NoneTaken(st) || (AllTaken(st) && SameScope(seed, GatedBridges(st.ssids))))
            && (SameScope(Enforced(r.committedGated, [], seed), GatedBridges(st.ssids))
                <==> GatedBridges(st.ssids) != [] || seed == [])
  {
    hide Inv, ShowsAll, StepSet, DeletesQuiet, DerivedFrom, Valid, GatedBridges, HoldsPush, PortalTaken, SplitList,
         Join, EventOk, Clean, NoneTaken, AllTaken;
    AcceptedHolds(e, cfg, s, st, now, base);
    var snap, w := SetShape(e, cfg, s, st, now);
    DerivedBridges(e, StepSet(e, cfg, s, st, now).0.world.committed, st, cfg.port, derived);
    CommittedFile(st);
    StartsAgree(st, Join(GatedBridges(st.ssids), ','), derived, seed);
    SomethingIn(seed);
  }

  lemma SomethingIn(xs: seq<string>)
    ensures xs != [] ==> exists x :: x in xs
  {
    assert xs != [] ==> xs[0] in xs;
  }
}
