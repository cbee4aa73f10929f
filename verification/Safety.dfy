/** What every run of the protocol keeps, whatever fails: the unowned configuration, the shape of both layers, the
    marker of exactly the pending push, and the pairing of statuses. */
module Safety {
  import opened Text
  import opened Uci
  import opened Snapshot
  import opened Marker
  import opened Rollback
  import opened Wireless
  import opened Validate
  import opened Converge
  import opened RenderSafe
  import opened Protocol

  // --- the world -----------------------------------------------------------

  ghost predicate WorldOk(w: World, base: Store) {
    Clean(w.staged) && Clean(w.committed) && SameUnowned(w.staged, base) && SameUnowned(w.committed, base)
  }

  function SectionsIn(w: World): set<Section> {
    OwnedSections(w.staged) + OwnedSections(w.committed)
  }

  lemma WorldIsGood(w: World, base: Store, more: set<Section>)
    requires WorldOk(w, base)
    ensures GoodWorld(w, base, SectionsIn(w) + more)
  {
  }

  lemma GoodIsOk(w: World, base: Store, secs: set<Section>)
    requires GoodWorld(w, base, secs)
    ensures WorldOk(w, base)
  {
  }

  lemma CmdsOkMore(cmds: seq<Cmd>, a: set<Section>, b: set<Section>)
    requires CmdsOk(cmds, a) && a <= b
    ensures CmdsOk(cmds, b)
  {
    hide NameOk, ScalarOk, Owned, KeyOk;
    forall c | c in cmds ensures CmdOk(c, b) {
      assert CmdOk(c, a);
    }
  }

  lemma RollbackKeeps(e: Env, w: World, snap: Snap, current: seq<Section>, radios: seq<string>, base: Store)
    requires WorldOk(w, base) && CmdsOk(RollbackCmds(snap, current), SetOf(snap.existing))
    ensures WorldOk(RollbackTo(e, w, snap, current, radios).0, base)
  {
    hide WorldOk, CmdsOk, GoodWorld, RollbackCmds, CommitAndReload, BestEffort;
    var cmds, secs := RollbackCmds(snap, current), SectionsIn(w) + SetOf(snap.existing);
    WorldIsGood(w, base, SetOf(snap.existing));
    CmdsOkMore(cmds, SetOf(snap.existing), secs);
    BestEffortGood(e, w, cmds, base, secs);
    CommitAndReloadGood(e, BestEffort(e, w, cmds), radios, base, secs);
    GoodIsOk(RollbackTo(e, w, snap, current, radios).0, base, secs);
  }

  lemma ApplyKeeps(e: Env, w: World, cmds: seq<Cmd>, radios: seq<string>, base: Store, secs: set<Section>)
    requires WorldOk(w, base) && CmdsOk(cmds, secs)
    ensures WorldOk(ApplyBatch(e, w, cmds, radios).0, base)
  {
    hide WorldOk, CmdsOk, GoodWorld, ApplyBatch;
    WorldIsGood(w, base, secs);
    CmdsOkMore(cmds, secs, SectionsIn(w) + secs);
    ApplyBatchGood(e, w, cmds, radios, base, SectionsIn(w) + secs);
    GoodIsOk(ApplyBatch(e, w, cmds, radios).0, base, SectionsIn(w) + secs);
  }

  // --- what a snapshot holds -----------------------------------------------

  /** A snapshotted scalar that can be replayed. */
  predicate PriorOk(k: Key, v: string, secs: set<Section>) {
    Owned(k.sec) && !IsMaclist(k) && ScalarOk(k, v) && (k.Decl? ==> k.sec in secs)
  }

  ghost predicate SnapGood(snap: Snap) {
    && SnapOk(snap)
    && (forall s :: s in snap.existing ==> Owned(s))
    && (forall p :: p in snap.prior ==> PriorOk(p.0, p.1, SetOf(snap.existing)))
    && forall p :: p in snap.lists ==> Owned(p.0.sec) && IsMaclist(p.0) && forall x :: x in p.1 ==> NameOk(x)
  }

  lemma NameIsLine(s: string)
    requires NameOk(s)
    ensures LineSafe(s)
  {
  }

  lemma ScalarIsLine(k: Key, v: string)
    requires ScalarOk(k, v)
    ensures LineSafe(v)
  {
    hide NameOk, LineSafe;
    if k.Decl? || IsRadioKey(k) {
      NameIsLine(v);
    }
  }

  lemma CapturedPrior(snap: Snap, st: Store, p: (Key, string))
    requires Captures(snap, st) && Clean(st) && p in snap.prior
    ensures Owned(p.0.sec) && p.0 in st && st[p.0] == Scalar(p.1) && EntryOk(p.0, st[p.0])
  {
    hide EntryOk, Owned, KeyText, Before;
    var i :| 0 <= i < |snap.prior| && snap.prior[i] == p;
    SortedValue(snap.prior, i);
    assert p.0 in Scalars(st);
  }

  lemma CapturedList(snap: Snap, st: Store, p: (Key, seq<string>))
    requires Captures(snap, st) && Clean(st) && p in snap.lists
    ensures Owned(p.0.sec) && p.0 in st && st[p.0] == List(p.1) && EntryOk(p.0, st[p.0])
  {
    hide EntryOk, Owned, KeyText, Before;
    var i :| 0 <= i < |snap.lists| && snap.lists[i] == p;
    SortedValue(snap.lists, i);
    assert p.0 in ListsOf(st);
  }

  lemma CapturedSection(snap: Snap, st: Store, s: Section)
    requires Captures(snap, st)
    ensures s in snap.existing <==> Decl(s) in st && Owned(s)
  {
    hide Owned;
    assert s in snap.existing <==> s in (set x | x in snap.existing);
  }

  lemma CapturedGood(snap: Snap, st: Store)
    requires Captures(snap, st) && Clean(st)
    ensures SnapGood(snap)
  {
    hide NameOk, LineSafe, Owned, IsRadioKey, IsSorted, KeysOk;
    forall s | s in snap.existing ensures Owned(s) && KeyOk(Decl(s)) {
      CapturedSection(snap, st, s);
      assert EntryOk(Decl(s), st[Decl(s)]);
    }
    forall p | p in snap.prior ensures PriorOk(p.0, p.1, SetOf(snap.existing)) && LineSafe(p.1) {
      CapturedPrior(snap, st, p);
      ScalarIsLine(p.0, p.1);
      CapturedSection(snap, st, p.0.sec);
    }
    forall p | p in snap.lists
      ensures Owned(p.0.sec) && IsMaclist(p.0) && p.1 != [] && forall x :: x in p.1 ==> NameOk(x) && LineSafe(x)
    {
      CapturedList(snap, st, p);
      forall x | x in p.1 ensures NameOk(x) && LineSafe(x) {
        NameIsLine(x);
      }
    }
  }

  lemma TakenGood(e: Env, w: World)
    requires ShowsAll(e) && Clean(w.staged) && TakeSnapshot(e, w).1.Some?
    ensures SnapGood(TakeSnapshot(e, w).1.value)
  {
    hide SnapGood, Captures, Clean, TakeSnapshot, Shown, Quiet;
    var shown := !e.fails(w.tick + |OWNED_CONFIGS| - 1);
    SnapshotExact(e, w);
    ShownClean(w.staged, shown);
    CapturedGood(TakeSnapshot(e, w).1.value, Shown(w.staged, shown));
  }

  lemma {:induction false} SetCmdsOk(m: Sorted<string>, secs: set<Section>)
    requires KeysOk(m)
    requires forall p :: p in m ==> PriorOk(p.0, p.1, secs)
    ensures CmdsOk(SetCmds(m), secs)
  {
    hide NameOk, Owned, KeyOk, ScalarOk, IsMaclist;
    if m != [] {
      assert m[0] in m;
      SetCmdsOk(m[1..], secs);
    }
  }

  lemma {:induction false} AddCmdsOk(k: Key, es: seq<string>, secs: set<Section>)
    requires Owned(k.sec) && IsMaclist(k) && KeyOk(k) && forall x :: x in es ==> NameOk(x)
    ensures CmdsOk(AddCmds(k, es), secs)
  {
    hide NameOk, Owned, KeyOk, IsMaclist;
    if es != [] {
      assert es[0] in es;
      AddCmdsOk(k, es[1..], secs);
    }
  }

  lemma {:induction false} ListCmdsOk(m: Sorted<seq<string>>, secs: set<Section>)
    requires KeysOk(m)
    requires forall p :: p in m ==> Owned(p.0.sec) && IsMaclist(p.0) && forall x :: x in p.1 ==> NameOk(x)
    ensures CmdsOk(ListCmds(m), secs)
  {
    hide NameOk, Owned, KeyOk, IsMaclist;
    if m != [] {
      assert m[0] in m;
      AddCmdsOk(m[0].0, m[0].1, secs);
      assert forall p :: p in m[1..] ==> p in m;
      ListCmdsOk(m[1..], secs);
    }
  }

  lemma {:induction false} AddedDeletesOk(current: seq<Section>, existing: seq<Section>, secs: set<Section>)
    requires forall s :: s in current ==> Owned(s)
    ensures CmdsOk(AddedDeletes(current, existing), secs)
  {
    hide Owned;
    if current != [] {
      assert current[0] in current;
      AddedDeletesOk(current[1..], existing, secs);
    }
  }

  lemma {:induction false} RenderDeletesOk(current: seq<Section>, secs: set<Section>)
    requires forall s :: s in current ==> Owned(s)
    ensures CmdsOk(RenderDeletes(current), secs)
  {
    hide Owned;
    if current != [] {
      assert current[0] in current;
      RenderDeletesOk(current[1..], secs);
    }
  }

  lemma RollbackCmdsOk(snap: Snap, current: seq<Section>)
    requires SnapGood(snap) && forall s :: s in current ==> Owned(s)
    ensures CmdsOk(RollbackCmds(snap, current), SetOf(snap.existing))
  {
    hide NameOk, Owned, ScalarOk, IsMaclist, CmdOk, IsSorted, KeysOk, LineSafe;
    SetCmdsOk(snap.prior, SetOf(snap.existing));
    ListCmdsOk(snap.lists, SetOf(snap.existing));
    AddedDeletesOk(current, snap.existing, SetOf(snap.existing));
  }

  // --- the reload set is a list of names -----------------------------------

  lemma {:induction false} AddNewFrom(acc: seq<string>, rs: seq<string>)
    ensures forall r :: r in AddNew(acc, rs) <==> r in acc || r in rs
    decreases rs
  {
    if rs != [] {
      AddNewFrom(if rs[0] in acc then acc else acc + [rs[0]], rs[1..]);
      assert forall r :: r in rs <==> r == rs[0] || r in rs[1..];
    }
  }

  lemma {:induction false} AddDesiredNames(acc: seq<string>, ssids: seq<Ssid>)
    requires NamesOk(acc) && forall s :: s in ssids ==> SsidOk(s)
    ensures NamesOk(AddDesired(acc, ssids))
    decreases ssids
  {
    hide NameOk, SsidOk, EffectiveRadios, AddNew;
    if ssids != [] {
      assert ssids[0] in ssids;
      AddNewFrom(acc, EffectiveRadios(ssids[0]));
      forall r | r in EffectiveRadios(ssids[0]) ensures NameOk(r) {
        var i :| 0 <= i < |EffectiveRadios(ssids[0])| && EffectiveRadios(ssids[0])[i] == r;
        RadioOk(ssids[0], i);
      }
      AddDesiredNames(AddNew(acc, EffectiveRadios(ssids[0])), ssids[1..]);
    }
  }

  lemma {:induction false} PriorRadiosNames(m: Sorted<string>)
    requires forall p :: p in m ==> ScalarOk(p.0, p.1)
    ensures NamesOk(PriorRadios(m))
  {
    hide NameOk, IsRadioKey;
    if m != [] {
      assert m[0] in m;
      PriorRadiosNames(m[1..]);
    }
  }

  lemma DefaultRadioName()
    ensures NameOk(DEFAULT_RADIO)
  {
    PlainOk(DEFAULT_RADIO);
  }

  lemma ReloadSetNames(st: State, snap: Snap)
    requires (forall s :: s in st.ssids ==> SsidOk(s)) && SnapGood(snap)
    ensures NamesOk(ReloadSet(st, snap))
  {
    hide NameOk, SsidOk, ScalarOk, Owned, AddNew, AddDesired, PriorRadios, SnapOk;
    AddDesiredNames([], st.ssids);
    PriorRadiosNames(snap.prior);
    AddNewFrom(AddDesired([], st.ssids), PriorRadios(snap.prior));
    DefaultRadioName();
  }

  ghost predicate DesiredRadio(st: State, r: string) {
    exists s :: s in st.ssids && r in EffectiveRadios(s)
  }

  /** A radio an owned access point of the snapshot sits on. */
  ghost predicate PriorRadio(snap: Snap, r: string) {
    exists p :: p in snap.prior && IsRadioKey(p.0) && p.1 == r
  }

  predicate NoRepeat(rs: seq<string>) {
    forall i, j :: 0 <= i < j < |rs| ==> rs[i] != rs[j]
  }

  lemma {:induction false} AddNewOnce(acc: seq<string>, rs: seq<string>)
    requires NoRepeat(acc)
    ensures NoRepeat(AddNew(acc, rs))
    decreases rs
  {
    if rs != [] {
      AddNewOnce(if rs[0] in acc then acc else acc + [rs[0]], rs[1..]);
    }
  }

  lemma {:induction false} AddDesiredFrom(acc: seq<string>, ssids: seq<Ssid>)
    requires NoRepeat(acc)
    ensures NoRepeat(AddDesired(acc, ssids))
    ensures forall r :: r in AddDesired(acc, ssids) <==> r in acc || exists s :: s in ssids && r in EffectiveRadios(s)
    decreases ssids
  {
    hide EffectiveRadios, AddNew, NoRepeat;
    if ssids != [] {
      AddNewFrom(acc, EffectiveRadios(ssids[0]));
      AddNewOnce(acc, EffectiveRadios(ssids[0]));
      AddDesiredFrom(AddNew(acc, EffectiveRadios(ssids[0])), ssids[1..]);
      assert forall s :: s in ssids <==> s == ssids[0] || s in ssids[1..];
    }
  }

  lemma {:induction false} PriorRadiosFrom(m: Sorted<string>)
    ensures forall r :: r in PriorRadios(m) <==> exists p :: p in m && IsRadioKey(p.0) && p.1 == r
  {
    hide IsRadioKey;
    if m != [] {
      PriorRadiosFrom(m[1..]);
      assert forall p :: p in m <==> p == m[0] || p in m[1..];
      assert m[0] in m;
    }
  }

  /** What a push and its rollback reload: every radio the push wants and every radio it takes an SSID away from, each
      once and no other - and never nothing. */
  lemma ReloadSetExact(st: State, snap: Snap, r: string)
    ensures ReloadSet(st, snap) != [] && NoRepeat(ReloadSet(st, snap))
    ensures DesiredRadio(st, r) || PriorRadio(snap, r) ==> r in ReloadSet(st, snap)
    ensures r in ReloadSet(st, snap) ==>
              DesiredRadio(st, r) || PriorRadio(snap, r) || ReloadSet(st, snap) == [DEFAULT_RADIO]
  {
    hide EffectiveRadios, AddNew, AddDesired, PriorRadios, IsRadioKey;
    AddDesiredFrom([], st.ssids);
    PriorRadiosFrom(snap.prior);
    AddNewFrom(AddDesired([], st.ssids), PriorRadios(snap.prior));
    AddNewOnce(AddDesired([], st.ssids), PriorRadios(snap.prior));
  }

  lemma {:induction false} GatedNames(ssids: seq<Ssid>)
    requires forall s :: s in ssids ==> SsidOk(s)
    ensures NamesOk(GatedBridges(ssids))
  {
    hide NameOk, SsidOk, Plain;
    if ssids != [] {
      GatedNames(ssids[..|ssids| - 1]);
      var s := ssids[|ssids| - 1];
      assert s in ssids;
      SsidNames(s);
      PlainOk(s.bridge);
    }
  }

  lemma VersionSafe(v: string)
    requires !HasControl(v)
    ensures LineSafe(v)
  {
    assert IsControl('\n') && IsControl('\r');
  }

  lemma {:induction false} SectionsNamed(ps: seq<Piece>)
    requires AllOwned(ps) && forall p :: p in ps ==> PieceOk(p)
    ensures SectionsOk(SectionsOf(ps)) && forall s :: s in SectionsOf(ps) ==> Owned(s)
  {
    hide NameOk, Owned, Plain, FieldOk, KeyOk;
    if ps != [] {
      assert ps[0] in ps;
      OwnedKeyOk(ps[0].sec);
      SectionsNamed(ps[1..]);
    }
  }

  lemma CurrentOk(st: State, port: nat)
    requires Valid(st) && WireSafe(st)
    ensures var current := SectionDecls(Cmds(StatePieces(st, port)));
            SectionsOk(current) && forall s :: s in current ==> Owned(s)
  {
    hide Valid, WireSafe, PieceOk, StatePieces, Owned;
    StatePiecesOk(st, port);
    RenderOwned(st, port);
    DeclsAreSections(StatePieces(st, port));
    SectionsNamed(StatePieces(st, port));
  }

  // --- the invariant -------------------------------------------------------

  /** Where the sequence of statuses stands: nothing pending, a version awaiting its outcome, or out of order. */
  datatype Phase = Idle | Awaiting(version: string) | Broken

  function NextPhase(ph: Phase, s: Status): Phase {
    match ph
    case Idle => if s.kind == AppliedPending then Awaiting(s.version) else if s.kind == Failed then Idle else Broken
    case Awaiting(v) => if s.kind != AppliedPending && s.version == v then Idle else Broken
    case Broken => Broken
  }

  function PhaseOf(log: seq<Status>): Phase {
    if log == [] then Idle else NextPhase(PhaseOf(log[..|log| - 1]), log[|log| - 1])
  }

  ghost predicate PendingOk(p: Pending) {
    && MarkerOk(MarkerOf(p))
    && CmdsOk(RollbackCmds(p.snap, p.current), SetOf(p.snap.existing))
  }

  /** The unowned configuration is that of `base` in both layers; the marker file holds exactly the pending push, and
      is there exactly when one is pending; the statuses are in order. */
  ghost predicate Inv(s: Engine, base: Store) {
    && WorldOk(s.world, base)
    && (match s.pending
        case None => s.marker == None && PhaseOf(s.log) == Idle
        case Some(p) =>
          PendingOk(p) && s.marker == Some(MarkerText(MarkerOf(p))) && PhaseOf(s.log) == Awaiting(p.version))
  }

  /** Pushes whose free text fits the text forms, stamped by a clock that fits the marker. */
  ghost predicate EventOk(ev: Event) {
    ev.SetWireless? ==>
      (Valid(ev.st) ==> WireSafe(ev.st)) && 0 <= ev.now <= I64_MAX - 600
  }

  lemma EmitPhase(s: Engine, version: string, kind: Kind, results: seq<SsidResult>)
    ensures PhaseOf(Emit(s, version, kind, results).log) == NextPhase(PhaseOf(s.log), Status(version, kind, results))
  {
    var log := Emit(s, version, kind, results).log;
    assert log[..|log| - 1] == s.log;
  }

  lemma ResolveInv(e: Env, s: Engine, version: string, results: seq<SsidResult>, snap: Snap, current: seq<Section>,
                   radios: seq<string>, base: Store)
    requires WorldOk(s.world, base) && s.pending == None && PhaseOf(s.log) == Awaiting(version)
    requires CmdsOk(RollbackCmds(snap, current), SetOf(snap.existing))
    ensures Inv(Resolve(e, s, version, results, snap, current, radios), base)
  {
    hide WorldOk, RollbackTo, CmdsOk, PhaseOf;
    RollbackKeeps(e, s.world, snap, current, radios, base);
    var (w, ok) := RollbackTo(e, s.world, snap, current, radios);
    EmitPhase(s.(world := w, marker := None), version, if ok then RolledBack else Failed, results);
  }

  lemma ValidFacts(st: State)
    requires Valid(st)
    ensures !HasControl(st.version) && Window(st.timeoutSecs) <= 600
    ensures forall s :: s in st.ssids ==> SsidOk(s)
  {
    hide SsidOk, Apart, PeersOk, HasControl;
    ValidParts(st);
  }

  /** The pending push of an applied state can be written to the marker and rolled back. */
  lemma PushPendingOk(cfg: Config, st: State, now: int, snap: Snap)
    requires Valid(st) && WireSafe(st) && SnapGood(snap) && 0 <= now <= I64_MAX - 600
    ensures PendingOk(Pending(st.version, ReloadSet(st, snap), SectionDecls(Cmds(StatePieces(st, cfg.port))),
                              GatedBridges(st.ssids), Results(st.ssids), now + Window(st.timeoutSecs), snap, st))
  {
    hide Valid, WireSafe, SsidOk, ReloadSet, GatedBridges, Results, StatePieces, Cmds, SectionDecls, RollbackCmds,
         NameOk, LineSafe, HasControl, Window, CmdsOk, SnapOk;
    ValidFacts(st);
    CurrentOk(st, cfg.port);
    ReloadSetNames(st, snap);
    GatedNames(st.ssids);
    VersionSafe(st.version);
    RollbackCmdsOk(snap, SectionDecls(Cmds(StatePieces(st, cfg.port))));
  }

  lemma BatchOk(st: State, port: nat, snap: Snap)
    requires Valid(st) && WireSafe(st) && SnapGood(snap)
    ensures var sets := Cmds(StatePieces(st, port));
            CmdsOk(RenderDeletes(snap.existing) + sets, SetOf(SectionDecls(sets)))
  {
    hide Valid, WireSafe, StatePieces, Cmds, SectionDecls, SnapOk, CmdOk, PriorOk;
    var sets := Cmds(StatePieces(st, port));
    PushCmdsOk(st, port, SetOf(SectionDecls(sets)));
    RenderDeletesOk(snap.existing, SetOf(SectionDecls(sets)));
  }

  lemma ApplyPushInv(e: Env, cfg: Config, s: Engine, st: State, now: int, snap: Snap, base: Store)
    requires Inv(s, base) && s.pending == None && SnapGood(snap)
    requires Valid(st) && WireSafe(st) && 0 <= now <= I64_MAX - 600
    ensures Inv(ApplyPush(e, cfg, s, st, now, snap).0, base)
  {
    hide WorldOk, RollbackTo, ApplyBatch, CmdsOk, PhaseOf, Valid, WireSafe, SnapGood, ReloadSet,
         GatedBridges, Results, StatePieces, Cmds, SectionDecls, RenderDeletes, MarkerOk, MarkerText, RollbackCmds,
         Window;
    var sets := Cmds(StatePieces(st, cfg.port));
    var radios, current := ReloadSet(st, snap), SectionDecls(sets);
    var batch := RenderDeletes(snap.existing) + sets;
    BatchOk(st, cfg.port, snap);
    ApplyKeeps(e, s.world, batch, radios, base, SetOf(current));
    PushPendingOk(cfg, st, now, snap);
    var (w, ok) := ApplyBatch(e, s.world, batch, radios);
    if !ok {
      RollbackKeeps(e, w, snap, current, radios, base);
      var (w1, _) := RollbackTo(e, w, snap, current, radios);
      EmitPhase(s.(world := w1, marker := None), st.version, Failed, Results(st.ssids));
    } else {
      var p := Pending(st.version, radios, current, GatedBridges(st.ssids), Results(st.ssids),
                       now + Window(st.timeoutSecs), snap, st);
      EmitPhase(s.(world := w, marker := Some(MarkerText(MarkerOf(p))), pending := Some(p)), st.version,
                AppliedPending, p.results);
    }
  }

  lemma SetInv(e: Env, cfg: Config, s: Engine, st: State, now: int, base: Store)
    requires Inv(s, base) && ShowsAll(e) && EventOk(SetWireless(st, now))
    ensures Inv(StepSet(e, cfg, s, st, now).0, base)
  {
    hide Valid, WireSafe, RadiosAllowed, TakeSnapshot, Captures, Shown, Quiet, ApplyPush, Clean, SnapGood,
         PhaseOf, SameUnowned, PendingOk, MarkerText;
    if Valid(st) && RadiosAllowed(st, cfg.protected) && s.pending == None {
      var (w, taken) := TakeSnapshot(e, s.world);
      SnapshotExact(e, s.world);
      assert w == s.world.(tick := w.tick);
      if taken.Some? {
        TakenGood(e, s.world);
        ApplyPushInv(e, cfg, s.(world := w), st, now, taken.value, base);
      }
    }
  }

  lemma ConfirmInv(s: Engine, version: string, base: Store)
    requires Inv(s, base)
    ensures Inv(StepConfirm(s, version).0, base)
  {
    hide WorldOk, PhaseOf, PendingOk, MarkerText, Join;
    if s.pending.Some? && s.pending.value.version == version {
      var p := s.pending.value;
      var s1 := s.(pending := None, marker := None, committedGated := Some(Join(p.gated, ',')),
                   lastCommitted := Some(p.desired));
      EmitPhase(s1, version, Committed, p.results);
    }
  }

  lemma WatchdogInv(e: Env, s: Engine, base: Store)
    requires Inv(s, base)
    ensures Inv(StepWatchdog(e, s), base)
  {
    hide WorldOk, PhaseOf, MarkerText, MarkerOk, Resolve, RollbackCmds, CmdsOk;
    if s.pending.Some? {
      var p := s.pending.value;
      ResolveInv(e, s.(pending := None), p.version, p.results, p.snap, p.current, p.radios, base);
    }
  }

  lemma RestartInv(e: Env, s: Engine, now: int, base: Store)
    requires Inv(s, base)
    ensures Inv(StepRestart(e, s, now), base)
  {
    hide WorldOk, PhaseOf, MarkerText, MarkerOk, ReadMarker, Resolve, RollbackCmds, CmdsOk;
    if s.pending.Some? {
      var p := s.pending.value;
      MarkerRoundTrip(MarkerOf(p));
      var s1 := s.(pending := None, lastCommitted := None);
      if p.deadline <= now {
        ResolveInv(e, s1, p.version, [], p.snap, p.current, p.radios, base);
      }
    }
  }

  lemma StepInv(e: Env, cfg: Config, s: Engine, ev: Event, base: Store)
    requires Inv(s, base) && ShowsAll(e) && EventOk(ev)
    ensures Inv(Step(e, cfg, s, ev), base)
  {
    hide Inv, EventOk, StepSet, StepConfirm, StepWatchdog, StepRestart, ShowsAll;
    match ev {
      case SetWireless(st, now) => SetInv(e, cfg, s, st, now, base);
      case Confirm(v) => ConfirmInv(s, v, base);
      case Tick(now) => WatchdogInv(e, s, base);
      case Crash(now) => RestartInv(e, s, now, base);
    }
  }

  /** A run starts well on any well-shaped configuration with nothing staged and no marker, whatever gated set
      was committed before. */
  lemma StartInv(st: Store, tick: nat, gated: Option<string>)
    requires Clean(st)
    ensures Inv(Engine(World(st, st, tick), None, gated, None, None, []), st)
  {
    hide Clean;
    assert SameUnowned(st, st);
  }

  /** Over every interleaving of pushes, confirms, clock looks, crashes and restarts, and every pattern of failing
      commands, the invariant holds. */
  lemma {:induction false} RunInv(e: Env, cfg: Config, s: Engine, evs: seq<Event>, base: Store)
    requires Inv(s, base) && ShowsAll(e) && forall ev :: ev in evs ==> EventOk(ev)
    ensures Inv(RunAll(e, cfg, s, evs), base)
  {
    hide Inv, EventOk, Step, ShowsAll;
    if evs != [] {
      RunInv(e, cfg, s, evs[..|evs| - 1], base);
      StepInv(e, cfg, RunAll(e, cfg, s, evs[..|evs| - 1]), evs[|evs| - 1], base);
    }
  }
}
