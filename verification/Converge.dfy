/** Declarative convergence: deleting what is owned and setting what is desired leaves an owned part that depends on
    the desired state alone. */
module Converge {
  import opened Uci
  import opened Snapshot
  import opened Rollback
  import opened Wireless

  /** Every command of the batch is accepted, or is a delete. */
  predicate Accepts(st: Store, cmds: seq<Cmd>)
    decreases cmds
  {
    cmds == [] ||
    match Exec(st, cmds[0])
    case None => cmds[0].Delete? && Accepts(st, cmds[1..])
    case Some(s) => Accepts(s, cmds[1..])
  }

  lemma {:induction false} AcceptsAppend(st: Store, a: seq<Cmd>, b: seq<Cmd>)
    requires Accepts(st, a) && Accepts(ExecAll(st, a), b)
    ensures Accepts(st, a + b)
    decreases a
  {
    if a == [] {
      assert a + b == b;
    } else {
      assert (a + b)[1..] == a[1..] + b;
      AcceptsAppend(match Exec(st, a[0]) case None => st case Some(s) => s, a[1..], b);
    }
  }

  lemma {:induction false} ApplyQuiet(e: Env, w: World, cmds: seq<Cmd>)
    requires Quiet(e, w.tick, |cmds|) && Accepts(w.staged, cmds)
    ensures ApplyCmds(e, w, cmds).0 == World(ExecAll(w.staged, cmds), w.committed, w.tick + |cmds|)
    ensures ApplyCmds(e, w, cmds).1
    decreases cmds
  {
    if cmds != [] {
      ApplyQuiet(e, Run(e, w, cmds[0]).0, cmds[1..]);
    }
  }

  // --- what a batch of sections builds -------------------------------------

  function LayField(st: Store, sec: Section, f: Field): Store {
    match f
    case One(n, v) => st[Opt(sec, n) := Scalar(v)]
    case Many(n, vs) => if vs == [] then st else st[Opt(sec, n) := List(ListAt(st, Opt(sec, n)) + vs)]
  }

  function LayFields(st: Store, sec: Section, fs: seq<Field>): Store
    decreases fs
  {
    if fs == [] then st else LayFields(LayField(st, sec, fs[0]), sec, fs[1..])
  }

  function LayPiece(st: Store, p: Piece): Store {
    LayFields(st[Decl(p.sec) := Scalar(p.kind)], p.sec, p.fields)
  }

  function LayAll(st: Store, ps: seq<Piece>): Store
    decreases ps
  {
    if ps == [] then st else LayAll(LayPiece(st, ps[0]), ps[1..])
  }

  lemma {:induction false} ExecAddLists(st: Store, k: Key, vs: seq<string>)
    requires k.Opt? && Decl(k.sec) in st
    ensures ExecAll(st, AddLists(k, vs)) == (if vs == [] then st else st[k := List(ListAt(st, k) + vs)])
    ensures Accepts(st, AddLists(k, vs))
    decreases vs
  {
    if vs != [] {
      var st1 := st[k := List(ListAt(st, k) + [vs[0]])];
      assert AddLists(k, vs)[1..] == AddLists(k, vs[1..]);
      ExecAddLists(st1, k, vs[1..]);
      assert ListAt(st, k) + [vs[0]] + vs[1..] == ListAt(st, k) + vs;
      assert vs[1..] == [] ==> vs == [vs[0]];
    }
  }

  lemma {:induction false} ExecFields(st: Store, sec: Section, fs: seq<Field>)
    requires Decl(sec) in st
    ensures ExecAll(st, FieldCmds(sec, fs)) == LayFields(st, sec, fs)
    ensures Accepts(st, FieldCmds(sec, fs))
    decreases fs
  {
    if fs != [] {
      var st1 := LayField(st, sec, fs[0]);
      var first := match fs[0]
                   case One(n, v) => [Set(Opt(sec, n), v)]
                   case Many(n, vs) => AddLists(Opt(sec, n), vs);
      assert ExecAll(st, first) == st1 && Accepts(st, first) by {
        match fs[0] {
          case One(n, v) => assert first[1..] == [];
          case Many(n, vs) => ExecAddLists(st, Opt(sec, n), vs);
        }
      }
      ExecFields(st1, sec, fs[1..]);
      ExecAllAppend(st, first, FieldCmds(sec, fs[1..]));
      AcceptsAppend(st, first, FieldCmds(sec, fs[1..]));
    }
  }

  lemma ExecPiece(st: Store, p: Piece)
    ensures ExecAll(st, PieceCmds(p)) == LayPiece(st, p) && Accepts(st, PieceCmds(p))
  {
    ExecFields(st[Decl(p.sec) := Scalar(p.kind)], p.sec, p.fields);
    assert PieceCmds(p)[1..] == FieldCmds(p.sec, p.fields);
  }

  /** The declaration-first order of a rendered batch makes every command succeed, on any store. */
  lemma {:induction false} ExecPieces(st: Store, ps: seq<Piece>)
    ensures ExecAll(st, Cmds(ps)) == LayAll(st, ps) && Accepts(st, Cmds(ps))
    decreases ps
  {
    if ps != [] {
      ExecPiece(st, ps[0]);
      ExecPieces(LayPiece(st, ps[0]), ps[1..]);
      ExecAllAppend(st, PieceCmds(ps[0]), Cmds(ps[1..]));
      AcceptsAppend(st, PieceCmds(ps[0]), Cmds(ps[1..]));
    }
  }

  predicate AllOwned(ps: seq<Piece>) {
    forall p :: p in ps ==> Owned(p.sec)
  }

  function Unowned(st: Store): Store {
    map k | k in st && !Owned(k.sec) :: st[k]
  }

  /** Sections are laid beside what is not owned. */
  lemma LayFieldBeside(n: Store, o: Store, sec: Section, f: Field)
    requires Owned(sec) && forall k :: k in n ==> !Owned(k.sec)
    ensures LayField(n + o, sec, f) == n + LayField(o, sec, f)
  {
    assert Opt(sec, f.name) !in n;
    assert ListAt(n + o, Opt(sec, f.name)) == ListAt(o, Opt(sec, f.name));
  }

  lemma {:induction false} LayFieldsBeside(n: Store, o: Store, sec: Section, fs: seq<Field>)
    requires Owned(sec) && forall k :: k in n ==> !Owned(k.sec)
    ensures LayFields(n + o, sec, fs) == n + LayFields(o, sec, fs)
    decreases fs
  {
    if fs != [] {
      LayFieldBeside(n, o, sec, fs[0]);
      LayFieldsBeside(n, LayField(o, sec, fs[0]), sec, fs[1..]);
    }
  }

  lemma {:induction false} LayAllBeside(n: Store, o: Store, ps: seq<Piece>)
    requires AllOwned(ps) && forall k :: k in n ==> !Owned(k.sec)
    ensures LayAll(n + o, ps) == n + LayAll(o, ps)
    decreases ps
  {
    if ps != [] {
      var p := ps[0];
      assert p in ps;
      var o1 := o[Decl(p.sec) := Scalar(p.kind)];
      assert (n + o)[Decl(p.sec) := Scalar(p.kind)] == n + o1;
      LayFieldsBeside(n, o1, p.sec, p.fields);
      LayAllBeside(n, LayPiece(o, p), ps[1..]);
    }
  }

  /** What the desired sections build from nothing. */
  function Desired(ps: seq<Piece>): Store {
    LayAll(map[], ps)
  }

  lemma {:induction false} LayFieldsKeys(st: Store, sec: Section, fs: seq<Field>)
    ensures forall k :: k in st ==> k in LayFields(st, sec, fs)
    ensures forall k :: k in LayFields(st, sec, fs) && k !in st ==> k.Opt? && k.sec == sec
    ensures forall k :: k in st && k.sec != sec ==> LayFields(st, sec, fs)[k] == st[k]
    ensures Decl(sec) in st ==> LayFields(st, sec, fs)[Decl(sec)] == st[Decl(sec)]
    decreases fs
  {
    if fs != [] {
      LayFieldsKeys(LayField(st, sec, fs[0]), sec, fs[1..]);
    }
  }

  /** Exactly the sections of the batch are declared, and every option's section is. */
  lemma {:induction false} LayAllSections(st: Store, ps: seq<Piece>)
    requires Closed(st)
    ensures Closed(LayAll(st, ps))
    ensures forall s :: Decl(s) in LayAll(st, ps) <==> Decl(s) in st || s in SectionsOf(ps)
    decreases ps
  {
    if ps != [] {
      var p := ps[0];
      LayFieldsKeys(st[Decl(p.sec) := Scalar(p.kind)], p.sec, p.fields);
      LayAllSections(LayPiece(st, p), ps[1..]);
      assert forall s :: s in SectionsOf(ps) <==> s == p.sec || s in SectionsOf(ps[1..]);
    }
  }

  lemma {:induction false} SectionsOfAll(ps: seq<Piece>)
    ensures forall s :: s in SectionsOf(ps) <==> exists p :: p in ps && p.sec == s
  {
    if ps != [] {
      SectionsOfAll(ps[1..]);
      forall s ensures s in SectionsOf(ps) <==> exists p :: p in ps && p.sec == s {
        if s == ps[0].sec {
          assert ps[0] in ps;
        } else {
          assert s in SectionsOf(ps) <==> s in SectionsOf(ps[1..]);
        }
      }
    }
  }

  lemma {:induction false} DesiredOwned(st: Store, ps: seq<Piece>)
    requires AllOwned(ps) && forall k :: k in st ==> Owned(k.sec)
    ensures forall k :: k in LayAll(st, ps) ==> Owned(k.sec)
    decreases ps
  {
    if ps != [] {
      var p := ps[0];
      assert p in ps;
      LayFieldsKeys(st[Decl(p.sec) := Scalar(p.kind)], p.sec, p.fields);
      DesiredOwned(LayPiece(st, p), ps[1..]);
    }
  }

  lemma {:induction false} AddListsDecls(k: Key, vs: seq<string>)
    requires k.Opt?
    ensures SectionDecls(AddLists(k, vs)) == []
  {
    if vs != [] {
      AddListsDecls(k, vs[1..]);
      assert AddLists(k, vs)[1..] == AddLists(k, vs[1..]);
    }
  }

  lemma {:induction false} SectionDeclsAppend(a: seq<Cmd>, b: seq<Cmd>)
    ensures SectionDecls(a + b) == SectionDecls(a) + SectionDecls(b)
  {
    if a == [] {
      assert a + b == b;
    } else {
      assert (a + b)[0] == a[0] && (a + b)[1..] == a[1..] + b;
      SectionDeclsAppend(a[1..], b);
    }
  }

  lemma {:induction false} FieldDecls(sec: Section, fs: seq<Field>)
    ensures SectionDecls(FieldCmds(sec, fs)) == []
  {
    if fs != [] {
      var first := match fs[0]
                   case One(n, v) => [Set(Opt(sec, n), v)]
                   case Many(n, vs) => AddLists(Opt(sec, n), vs);
      assert SectionDecls(first) == [] by {
        match fs[0] {
          case One(n, v) => assert first[1..] == [];
          case Many(n, vs) => AddListsDecls(Opt(sec, n), vs);
        }
      }
      FieldDecls(sec, fs[1..]);
      SectionDeclsAppend(first, FieldCmds(sec, fs[1..]));
    }
  }

  /** `section_decls` of a rendered batch are the sections rendered. */
  lemma {:induction false} DeclsAreSections(ps: seq<Piece>)
    ensures SectionDecls(Cmds(ps)) == SectionsOf(ps)
  {
    if ps != [] {
      FieldDecls(ps[0].sec, ps[0].fields);
      assert PieceCmds(ps[0])[1..] == FieldCmds(ps[0].sec, ps[0].fields);
      DeclsAreSections(ps[1..]);
      SectionDeclsAppend(PieceCmds(ps[0]), Cmds(ps[1..]));
    }
  }

  lemma {:induction false} ExecRenderDeletes(st: Store, secs: seq<Section>)
    requires Closed(st)
    ensures ExecAll(st, RenderDeletes(secs)) == WithoutSections(st, secs)
    ensures Accepts(st, RenderDeletes(secs))
    decreases secs
  {
    if secs == [] {
      assert st == WithoutSections(st, secs);
    } else {
      var st1 := if Decl(secs[0]) in st then WithoutSection(st, secs[0]) else st;
      assert RenderDeletes(secs)[1..] == RenderDeletes(secs[1..]);
      assert forall k :: k in st1 <==> k in st && k.sec != secs[0];
      ExecRenderDeletes(st1, secs[1..]);
      assert forall s :: s in secs <==> s == secs[0] || s in secs[1..];
    }
  }

  lemma OwnedAreExisting(st: Store, existing: seq<Section>)
    requires Closed(st) && SetOf(existing) == OwnedSections(st)
    ensures WithoutSections(st, existing) == Unowned(st)
  {
    forall k | k in st ensures k.sec in existing <==> Owned(k.sec) {
      assert k.sec in existing <==> k.sec in SetOf(existing);
      assert Decl(k.sec) in st;
    }
  }

  /** Any batch of deletes and pieces over any store. */
  lemma BatchExec(st: Store, existing: seq<Section>, ps: seq<Piece>)
    requires Closed(st)
    ensures ExecAll(st, RenderDeletes(existing) + Cmds(ps)) == LayAll(WithoutSections(st, existing), ps)
    ensures Accepts(st, RenderDeletes(existing) + Cmds(ps))
  {
    ExecRenderDeletes(st, existing);
    ExecPieces(WithoutSections(st, existing), ps);
    ExecAllAppend(st, RenderDeletes(existing), Cmds(ps));
    AcceptsAppend(st, RenderDeletes(existing), Cmds(ps));
  }

  /** The whole reconcile batch over any store: the unowned part as it was, the owned part as desired, whatever was
      owned before. */
  lemma ReconcileExec(st: Store, existing: seq<Section>, ps: seq<Piece>)
    requires Closed(st) && AllOwned(ps) && SetOf(existing) == OwnedSections(st)
    ensures ExecAll(st, RenderDeletes(existing) + Cmds(ps)) == Unowned(st) + Desired(ps)
    ensures Accepts(st, RenderDeletes(existing) + Cmds(ps))
  {
    BatchExec(st, existing, ps);
    OwnedAreExisting(st, existing);
    LayAllBeside(Unowned(st), map[], ps);
    assert Unowned(st) + map[] == Unowned(st);
  }

  // --- the same, when `sqm` was not shown ----------------------------------

  lemma NoSqmList(a: Store, b: Store, k: Key)
    requires NoSqm(a) == NoSqm(b)
    ensures k.sec.config == SQM || ListAt(a, k) == ListAt(b, k)
  {
    assert k.sec.config != SQM ==> (k in a <==> k in NoSqm(a)) && (k in b <==> k in NoSqm(b));
    assert k.sec.config != SQM && k in a ==> a[k] == NoSqm(a)[k] && b[k] == NoSqm(b)[k];
  }

  lemma PutNoSqm(a: Store, k: Key, v: Value)
    ensures NoSqm(a[k := v]) == if k.sec.config == SQM then NoSqm(a) else NoSqm(a)[k := v]
  {
  }

  lemma LayFieldNoSqm(a: Store, b: Store, sec: Section, f: Field)
    requires NoSqm(a) == NoSqm(b)
    ensures NoSqm(LayField(a, sec, f)) == NoSqm(LayField(b, sec, f))
  {
    hide NoSqm;
    var k := Opt(sec, f.name);
    match f {
      case One(n, v) =>
        PutNoSqm(a, k, Scalar(v));
        PutNoSqm(b, k, Scalar(v));
      case Many(n, vs) =>
        NoSqmList(a, b, k);
        PutNoSqm(a, k, List(ListAt(a, k) + vs));
        PutNoSqm(b, k, List(ListAt(b, k) + vs));
    }
  }

  lemma {:induction false} LayFieldsNoSqm(a: Store, b: Store, sec: Section, fs: seq<Field>)
    requires NoSqm(a) == NoSqm(b)
    ensures NoSqm(LayFields(a, sec, fs)) == NoSqm(LayFields(b, sec, fs))
    decreases fs
  {
    hide NoSqm, LayField;
    if fs != [] {
      LayFieldNoSqm(a, b, sec, fs[0]);
      LayFieldsNoSqm(LayField(a, sec, fs[0]), LayField(b, sec, fs[0]), sec, fs[1..]);
    }
  }

  lemma {:induction false} LayAllNoSqm(a: Store, b: Store, ps: seq<Piece>)
    requires NoSqm(a) == NoSqm(b)
    ensures NoSqm(LayAll(a, ps)) == NoSqm(LayAll(b, ps))
    decreases ps
  {
    hide NoSqm, LayFields;
    if ps != [] {
      var p := ps[0];
      PutNoSqm(a, Decl(p.sec), Scalar(p.kind));
      PutNoSqm(b, Decl(p.sec), Scalar(p.kind));
      LayFieldsNoSqm(a[Decl(p.sec) := Scalar(p.kind)], b[Decl(p.sec) := Scalar(p.kind)], p.sec, p.fields);
      LayAllNoSqm(LayPiece(a, p), LayPiece(b, p), ps[1..]);
    }
  }

  /** The owned sections of `sqm`, which a push that did not see them does not delete. */
  function Stale(st: Store): Store {
    map k | k in st && k.sec.config == SQM && Owned(k.sec) :: st[k]
  }

  lemma UnseenExisting(st: Store, existing: seq<Section>)
    requires Closed(st) && SetOf(existing) == OwnedSections(NoSqm(st))
    ensures WithoutSections(st, existing) == Unowned(st) + Stale(st)
  {
    hide Owned;
    forall k | k in st ensures k.sec in existing <==> Owned(k.sec) && k.sec.config != SQM {
      assert k.sec in existing <==> k.sec in SetOf(existing);
      assert Decl(k.sec) in st;
    }
  }

  /** The reconcile batch when `sqm` was not shown: outside `sqm` as before; within, what is declared is laid over what
      is there. */
  lemma ReconcileUnseen(st: Store, existing: seq<Section>, ps: seq<Piece>)
    requires Closed(st) && AllOwned(ps) && SetOf(existing) == OwnedSections(NoSqm(st))
    ensures ExecAll(st, RenderDeletes(existing) + Cmds(ps)) == Unowned(st) + LayAll(Stale(st), ps)
    ensures Accepts(st, RenderDeletes(existing) + Cmds(ps))
    ensures NoSqm(LayAll(Stale(st), ps)) == NoSqm(Desired(ps))
  {
    BatchExec(st, existing, ps);
    UnseenExisting(st, existing);
    LayAllBeside(Unowned(st), Stale(st), ps);
    assert NoSqm(Stale(st)) == NoSqm(map[]);
    LayAllNoSqm(Stale(st), map[], ps);
  }

  // --- every rendered section is owned -------------------------------------

  lemma OwnedConfigs()
    ensures IsOwnedConfig("network") && IsOwnedConfig("wireless") && IsOwnedConfig("dhcp")
    ensures IsOwnedConfig("firewall") && IsOwnedConfig("sqm")
  {
  }

  lemma OwnedNamed(config: string, rest: string)
    requires IsOwnedConfig(config)
    ensures Owned(Section(config, PREFIX + rest))
  {
  }

  ghost predicate PrefixedIn(p: Piece) {
    && (p.sec.config == "network" || p.sec.config == "wireless" || p.sec.config == "dhcp"
        || p.sec.config == "firewall" || p.sec.config == "sqm")
    && PREFIX <= p.sec.name
  }

  lemma {:induction false} ApsPrefixed(s: Ssid, n: nat)
    requires n <= |EffectiveRadios(s)|
    ensures forall p :: p in ApPieces(s, n) ==> PrefixedIn(p)
  {
    if n > 0 {
      ApsPrefixed(s, n - 1);
    }
  }

  lemma {:induction false} HostsPrefixed(s: Ssid, n: nat)
    requires n <= |s.reservations|
    ensures forall p :: p in HostPieces(s, n) ==> PrefixedIn(p)
  {
    if n > 0 {
      HostsPrefixed(s, n - 1);
    }
  }

  lemma {:induction false} AllowsPrefixed(s: Ssid, n: nat)
    requires n <= |s.targets|
    ensures forall p :: p in AllowPieces(s, n) ==> PrefixedIn(p)
  {
    if n > 0 {
      AllowsPrefixed(s, n - 1);
    }
  }

  lemma SsidPrefixed(s: Ssid, port: nat)
    ensures forall p :: p in SsidPieces(s, port) ==> PrefixedIn(p)
  {
    hide ApPieces, HostPieces, AllowPieces, EffectiveRadios;
    ApsPrefixed(s, |EffectiveRadios(s)|);
    HostsPrefixed(s, |s.reservations|);
    AllowsPrefixed(s, |s.targets|);
    assert forall p :: p in ZonePieces(s) ==> PrefixedIn(p);
    assert forall p :: p in [DevPiece(s), IfPiece(s)] ==> PrefixedIn(p);
  }

  lemma {:induction false} SsidsPrefixed(ssids: seq<Ssid>, port: nat)
    ensures forall p :: p in SsidsPieces(ssids, port) ==> PrefixedIn(p)
  {
    if ssids != [] {
      SsidsPrefixed(ssids[..|ssids| - 1], port);
      SsidPrefixed(ssids[|ssids| - 1], port);
    }
  }

  lemma {:induction false} PeersPrefixed(peers: seq<PeerAllow>)
    ensures forall p :: p in PeersPieces(peers) ==> PrefixedIn(p)
  {
    if peers != [] {
      PeersPrefixed(peers[..|peers| - 1]);
      var q := peers[|peers| - 1];
      assert PREFIX + "peer_" + q.from + "_" + q.to == PREFIX + ("peer_" + q.from + "_" + q.to);
    }
  }

  /** Whatever the desired state, valid or not, the renderer names owned sections only. */
  lemma RenderOwned(st: State, port: nat)
    ensures AllOwned(StatePieces(st, port))
  {
    SsidsPrefixed(st.ssids, port);
    PeersPrefixed(st.peers);
    OwnedConfigs();
  }

  // --- the theorem ---------------------------------------------------------

  lemma BesideParts(st: Store, d: Store)
    requires forall k :: k in d ==> Owned(k.sec)
    ensures OwnedPart(Unowned(st) + d) == d
    ensures SameUnowned(st, Unowned(st) + d)
    ensures OwnedSections(Unowned(st) + d) == OwnedSections(d)
  {
    var r := Unowned(st) + d;
    assert forall k: Key :: !Owned(k.sec) ==> SameAt(st, r, k);
    assert forall s :: s in OwnedSections(r) <==> s in OwnedSections(d);
  }

  lemma DesiredSections(ps: seq<Piece>)
    requires AllOwned(ps)
    ensures forall k :: k in Desired(ps) ==> Owned(k.sec)
    ensures OwnedSections(Desired(ps)) == SetOf(SectionDecls(Cmds(ps)))
  {
    DesiredOwned(map[], ps);
    LayAllSections(map[], ps);
    DeclsAreSections(ps);
    forall s ensures s in OwnedSections(Desired(ps)) <==> s in SectionDecls(Cmds(ps)) {
      assert Decl(s) in Desired(ps) ==> Owned(Decl(s).sec);
    }
  }

  /** What a reconcile batch leaves of a store, whether or not `sqm` was shown. */
  function Reconciled(st: Store, ps: seq<Piece>, shown: bool): Store {
    Unowned(st) + (if shown then Desired(ps) else LayAll(Stale(st), ps))
  }

  lemma ReconciledExec(st: Store, existing: seq<Section>, ps: seq<Piece>, shown: bool)
    requires Closed(st) && AllOwned(ps) && SetOf(existing) == OwnedSections(Shown(st, shown))
    ensures ExecAll(st, RenderDeletes(existing) + Cmds(ps)) == Reconciled(st, ps, shown)
    ensures Accepts(st, RenderDeletes(existing) + Cmds(ps))
  {
    if shown {
      ReconcileExec(st, existing, ps);
    } else {
      ReconcileUnseen(st, existing, ps);
    }
  }

  lemma BesideNoSqm(st: Store, d: Store)
    requires forall k :: k in d ==> Owned(k.sec)
    ensures OwnedPart(NoSqm(Unowned(st) + d)) == NoSqm(d)
  {
    hide Owned;
  }

  lemma StaleNoSqm(st: Store, ps: seq<Piece>)
    ensures NoSqm(LayAll(Stale(st), ps)) == NoSqm(Desired(ps))
    ensures forall k :: k in Stale(st) ==> Owned(k.sec)
  {
    hide Owned;
    assert NoSqm(Stale(st)) == NoSqm(map[]);
    LayAllNoSqm(Stale(st), map[], ps);
  }

  /** Outside `sqm` what is left is exactly what is desired; within, a section is left when the push declares it or,
      unseen, it was there. */
  lemma ReconciledParts(st: Store, ps: seq<Piece>, shown: bool)
    requires Closed(st) && AllOwned(ps)
    ensures var r := Reconciled(st, ps, shown);
            && SameUnowned(st, r)
            && OwnedPart(NoSqm(r)) == NoSqm(Desired(ps))
            && (shown ==> OwnedPart(r) == Desired(ps))
            && OwnedSections(r) == SetOf(SectionDecls(Cmds(ps))) + (if shown then {} else OwnedSections(SqmPart(st)))
  {
    hide Owned, AllOwned, Closed, LayAll, Stale, Desired, NoSqm, SqmPart, OwnedPart, Unowned, OwnedSections, Cmds,
         SectionDecls, SetOf, SameUnowned;
    DesiredSections(ps);
    StaleNoSqm(st, ps);
    DesiredOwned(Stale(st), ps);
    var d := if shown then Desired(ps) else LayAll(Stale(st), ps);
    BesideParts(st, d);
    BesideNoSqm(st, d);
    if !shown {
      StaleSections(st, ps);
    }
  }

  lemma StaleSections(st: Store, ps: seq<Piece>)
    requires Closed(st) && AllOwned(ps)
    ensures OwnedSections(LayAll(Stale(st), ps)) == SetOf(SectionDecls(Cmds(ps))) + OwnedSections(SqmPart(st))
  {
    hide Owned;
    assert Closed(Stale(st));
    LayAllSections(Stale(st), ps);
    DeclsAreSections(ps);
    DesiredOwned(Stale(st), ps);
    forall s
      ensures s in OwnedSections(LayAll(Stale(st), ps))
         <==> s in SectionDecls(Cmds(ps)) || s in OwnedSections(SqmPart(st))
    {
      assert Decl(s) in LayAll(Stale(st), ps) ==> Owned(Decl(s).sec);
      assert Decl(s) in Stale(st) <==> Decl(s) in SqmPart(st) && Owned(s);
    }
  }

  lemma QuietSplit(e: Env, tick: nat, m: nat, n: nat)
    requires Quiet(e, tick, m + n)
    ensures Quiet(e, tick, m) && Quiet(e, tick + m, n)
  {
  }

  lemma BatchRuns(e: Env, w: World, cmds: seq<Cmd>, radios: seq<string>, st: Store)
    requires Quiet(e, w.tick, |cmds| + |OWNED_CONFIGS| - 1) && SameUnowned(w.committed, st)
    requires ExecAll(w.staged, cmds) == st && Accepts(w.staged, cmds)
    ensures var landed := !e.fails(w.tick + |cmds| + |OWNED_CONFIGS| - 1);
            && ApplyBatch(e, w, cmds, radios).0.staged == st
            && ApplyBatch(e, w, cmds, radios).0.committed == Laid(st, w.committed, landed)
  {
    hide Reload, ApplyCmds, Quiet, ExecAll, Accepts, CommitFrom, Laid;
    QuietSplit(e, w.tick, |cmds|, |OWNED_CONFIGS| - 1);
    ApplyQuiet(e, w, cmds);
    var w1 := World(st, w.committed, w.tick + |cmds|);
    CommitQuiet(e, w1);
    ReloadKeeps(e, CommitFrom(e, w1, 0).0, radios);
  }

  // --- an accepted push fails nowhere but in its deletes --------------------

  lemma {:induction false} ApplyTicks(e: Env, w: World, cmds: seq<Cmd>)
    requires ApplyCmds(e, w, cmds).1
    ensures ApplyCmds(e, w, cmds).0.tick == w.tick + |cmds|
    decreases cmds
  {
    hide Exec;
    if cmds != [] {
      ApplyTicks(e, Run(e, w, cmds[0]).0, cmds[1..]);
    }
  }

  predicate NoDeletes(cmds: seq<Cmd>) {
    forall c :: c in cmds ==> !c.Delete?
  }

  lemma {:induction false} AppliedQuiet(e: Env, w: World, a: seq<Cmd>, b: seq<Cmd>)
    requires ApplyCmds(e, w, a + b).1 && NoDeletes(b)
    ensures Quiet(e, w.tick + |a|, |b|)
    decreases a, b
  {
    hide Exec;
    if a != [] {
      assert (a + b)[0] == a[0] && (a + b)[1..] == a[1..] + b;
      AppliedQuiet(e, Run(e, w, a[0]).0, a[1..], b);
    } else if b != [] {
      assert a + b == b && b[0] in b && a + b[1..] == b[1..];
      AppliedQuiet(e, Run(e, w, b[0]).0, a, b[1..]);
    }
  }

  lemma {:induction false} CommittedQuiet(e: Env, w: World, i: nat)
    requires i < |OWNED_CONFIGS| && CommitFrom(e, w, i).1
    ensures Quiet(e, w.tick, |OWNED_CONFIGS| - 1 - i)
    decreases |OWNED_CONFIGS| - i
  {
    hide PutConfig, RevertFrom;
    OnlySqmOptional(i);
    if i < |OWNED_CONFIGS| - 1 {
      assert Commit(e, w, OWNED_CONFIGS[i]).1 by {
        RevertedFails(e, w, i);
      }
      CommittedQuiet(e, Commit(e, w, OWNED_CONFIGS[i]).0, i + 1);
    }
  }

  lemma RevertedFails(e: Env, w: World, i: nat)
    requires i < |OWNED_CONFIGS| && OWNED_CONFIGS[i] != SQM
    ensures CommitFrom(e, w, i).1 ==> Commit(e, w, OWNED_CONFIGS[i]).1
  {
  }

  lemma {:induction false} CmdsNoDelete(ps: seq<Piece>)
    ensures NoDeletes(Cmds(ps))
  {
    if ps != [] {
      FieldsNoDelete(ps[0].sec, ps[0].fields);
      CmdsNoDelete(ps[1..]);
    }
  }

  lemma {:induction false} FieldsNoDelete(sec: Section, fs: seq<Field>)
    ensures NoDeletes(FieldCmds(sec, fs))
  {
    if fs != [] {
      FieldsNoDelete(sec, fs[1..]);
      if fs[0].Many? {
        AddListsNoDelete(Opt(sec, fs[0].name), fs[0].values);
      }
    }
  }

  lemma {:induction false} AddListsNoDelete(k: Key, vs: seq<string>)
    ensures NoDeletes(AddLists(k, vs))
  {
    if vs != [] {
      AddListsNoDelete(k, vs[1..]);
    }
  }

  lemma {:induction false} DeletesCount(secs: seq<Section>)
    ensures |RenderDeletes(secs)| == |secs|
  {
    if secs != [] {
      DeletesCount(secs[1..]);
    }
  }

  /** When a push is accepted, the only commands of it that can have failed are its deletes and the commit of `sqm`. */
  lemma AcceptedQuiet(e: Env, w: World, ps: seq<Piece>, existing: seq<Section>, radios: seq<string>)
    requires ApplyBatch(e, w, RenderDeletes(existing) + Cmds(ps), radios).1 && Quiet(e, w.tick, |existing|)
    ensures Quiet(e, w.tick, |RenderDeletes(existing) + Cmds(ps)| + |OWNED_CONFIGS| - 1)
  {
    hide ApplyCmds, CommitFrom, Reload, Cmds, RenderDeletes;
    var dels, sets := RenderDeletes(existing), Cmds(ps);
    CmdsNoDelete(ps);
    DeletesCount(existing);
    AppliedQuiet(e, w, dels, sets);
    ApplyTicks(e, w, dels + sets);
    CommittedQuiet(e, ApplyCmds(e, w, dels + sets).0, 0);
  }

  // --- convergence ---------------------------------------------------------

  /** What a push leaves when none of its `uci` commands fails, the commit of `sqm` perhaps excepted: staged, the
      reconciled store; committed, the same but for `sqm` when its commit failed. */
  lemma PiecesConverge(e: Env, w: World, ps: seq<Piece>, existing: seq<Section>, radios: seq<string>, shown: bool)
    requires w.staged == w.committed && Closed(w.staged)
    requires SetOf(existing) == OwnedSections(Shown(w.staged, shown)) && AllOwned(ps)
    requires Quiet(e, w.tick, |RenderDeletes(existing) + Cmds(ps)| + |OWNED_CONFIGS| - 1)
    ensures var batch := RenderDeletes(existing) + Cmds(ps);
            var landed := !e.fails(w.tick + |batch| + |OWNED_CONFIGS| - 1);
            && ApplyBatch(e, w, batch, radios).0.staged == Reconciled(w.staged, ps, shown)
            && ApplyBatch(e, w, batch, radios).0.committed
            == Laid(Reconciled(w.staged, ps, shown), w.staged, landed)
  {
    hide Reconciled, Laid, ApplyBatch, ExecAll, Accepts, Quiet, RenderDeletes, Cmds, Shown, OwnedSections, OwnedPart,
         NoSqm, SqmPart, Closed, AllOwned, Desired;
    ReconciledExec(w.staged, existing, ps, shown);
    ReconciledParts(w.staged, ps, shown);
    BatchRuns(e, w, RenderDeletes(existing) + Cmds(ps), radios, Reconciled(w.staged, ps, shown));
  }

  /** A push none of whose `uci` commands fails - a failing `show` or commit of `sqm` excepted - leaves, staged and
      committed, the unowned part of before and, outside `sqm`, exactly what the desired state builds, however the
      reload went. Within `sqm`: when it was shown the staged layer is as desired too, and otherwise also the sections
      from before are left; committed is what is staged, or what was there when the commit failed. */
  lemma PushConverges(e: Env, w: World, st: State, port: nat, existing: seq<Section>, radios: seq<string>, shown: bool)
    requires w.staged == w.committed && Closed(w.staged) && SetOf(existing) == OwnedSections(Shown(w.staged, shown))
    requires Quiet(e, w.tick, |RenderDeletes(existing) + Cmds(StatePieces(st, port))| + |OWNED_CONFIGS| - 1)
    ensures var sets := Cmds(StatePieces(st, port));
            var batch := RenderDeletes(existing) + sets;
            var w1 := ApplyBatch(e, w, batch, radios).0;
            var landed := !e.fails(w.tick + |batch| + |OWNED_CONFIGS| - 1);
            && SameUnowned(w.staged, w1.staged) && NoSqm(w1.committed) == NoSqm(w1.staged)
            && OwnedPart(NoSqm(w1.staged)) == NoSqm(Desired(StatePieces(st, port)))
            && (shown ==> OwnedPart(w1.staged) == Desired(StatePieces(st, port)))
            && OwnedSections(w1.staged)
            == SetOf(SectionDecls(sets)) + (if shown then {} else OwnedSections(SqmPart(w.staged)))
            && SqmPart(w1.committed) == SqmPart(if landed then w1.staged else w.staged)
  {
    hide Reconciled, Laid, ApplyBatch, NoSqm, SqmPart, OwnedPart, OwnedSections, Quiet, StatePieces, Cmds;
    RenderOwned(st, port);
    PiecesConverge(e, w, StatePieces(st, port), existing, radios, shown);
    ReconciledParts(w.staged, StatePieces(st, port), shown);
    var batch := RenderDeletes(existing) + Cmds(StatePieces(st, port));
    LaidParts(Reconciled(w.staged, StatePieces(st, port), shown), w.staged,
              !e.fails(w.tick + |batch| + |OWNED_CONFIGS| - 1));
  }

  lemma SameUnownedPart(a: Store, b: Store)
    requires SameUnowned(a, b)
    ensures Unowned(a) == Unowned(b)
  {
    forall k: Key | !Owned(k.sec) ensures k in a <==> k in b {
      assert SameAt(a, b, k);
    }
    forall k | k in Unowned(a) ensures a[k] == b[k] {
      assert SameAt(a, b, k);
    }
  }

  lemma PartsRejoin(st: Store)
    ensures Unowned(st) + OwnedPart(st) == st
  {
  }

  /** Re-applying a state is a no-op: two stores that agree on what is not owned are led to the same store by the
      same desired state, and a store is left alone exactly when its owned part is already the desired one. */
  lemma ReapplyIsNoOp(a: Store, b: Store, ea: seq<Section>, eb: seq<Section>, ps: seq<Piece>)
    requires Closed(a) && Closed(b) && AllOwned(ps) && SameUnowned(a, b)
    requires SetOf(ea) == OwnedSections(a) && SetOf(eb) == OwnedSections(b)
    ensures ExecAll(a, RenderDeletes(ea) + Cmds(ps)) == ExecAll(b, RenderDeletes(eb) + Cmds(ps))
    ensures ExecAll(a, RenderDeletes(ea) + Cmds(ps)) == b <==> OwnedPart(b) == Desired(ps)
  {
    ReconcileExec(a, ea, ps);
    ReconcileExec(b, eb, ps);
    SameUnownedPart(a, b);
    DesiredSections(ps);
    BesideParts(b, Desired(ps));
    PartsRejoin(b);
  }
}
