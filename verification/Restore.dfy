/** What the two rollbacks of the protocol restore: the one inside a failed push and the one of the watchdog. */
module Restore {
  import opened Text
  import opened Uci
  import opened Snapshot
  import opened Marker
  import opened Rollback
  import opened Wireless
  import opened Validate
  import opened Converge
  import opened RenderSafe
  import opened Protocol
  import opened Safety
  import opened Runs

  lemma PushedGood(e: Env, w: World, st: State, port: nat, snap: Snap, radios: seq<string>)
    requires w.staged == w.committed && Clean(w.staged) && SnapGood(snap)
    requires Valid(st) && WireSafe(st)
    ensures var sets := Cmds(StatePieces(st, port));
            GoodWorld(ApplyBatch(e, w, RenderDeletes(snap.existing) + sets, radios).0, w.staged,
                      OwnedSections(w.staged) + SetOf(SectionDecls(sets)))
  {
    hide Valid, WireSafe, StatePieces, Cmds, SectionDecls, RenderDeletes, ApplyBatch, CmdsOk, SnapGood,
         Clean;
    var sets := Cmds(StatePieces(st, port));
    BatchOk(st, port, snap);
    SameSelf(w.staged);
    CmdsOkMore(RenderDeletes(snap.existing) + sets, SetOf(SectionDecls(sets)),
               OwnedSections(w.staged) + SetOf(SectionDecls(sets)));
    ApplyBatchGood(e, w, RenderDeletes(snap.existing) + sets, radios, w.staged,
                   OwnedSections(w.staged) + SetOf(SectionDecls(sets)));
  }

  lemma SameSelf(st: Store)
    ensures SameUnowned(st, st)
  {
  }

  /** The rollback of a push, from whatever its apply left behind. */
  lemma PushRollback(e: Env, w: World, before: Store, st: State, port: nat, snap: Snap, radios: seq<string>,
                     shown: bool)
    requires Clean(before) && Captures(snap, Shown(before, shown)) && Valid(st) && WireSafe(st)
    requires var current := SectionDecls(Cmds(StatePieces(st, port)));
             && GoodWorld(w, before, OwnedSections(before) + SetOf(current))
             && Quiet(e, w.tick, |RollbackCmds(snap, current)| + |OWNED_CONFIGS| - 1)
    ensures var current := SectionDecls(Cmds(StatePieces(st, port)));
            Undone(RollbackTo(e, w, snap, current, radios).0, before, w, current, shown,
                   Landed(e, w, snap, current))
  {
    hide Valid, WireSafe, StatePieces, Cmds, SectionDecls, RollbackCmds, RollbackTo, Clean, Captures, Shown, Undone,
         GoodWorld, Quiet, GainedOption, OwnedPart;
    CurrentOk(st, port);
    RollbackRestores(e, w, before, snap, SectionDecls(Cmds(StatePieces(st, port))), radios, shown);
  }

  /** The commit of `sqm` in the rollback from `w` does not fail. */
  predicate Landed(e: Env, w: World, snap: Snap, current: seq<Section>) {
    !e.fails(w.tick + |RollbackCmds(snap, current)| + |OWNED_CONFIGS| - 1)
  }

  // --- sections of `sqm` the snapshot did not see --------------------------

  lemma {:induction false} AddListSections(k: Key, vs: seq<string>)
    ensures forall c :: c in AddLists(k, vs) ==> c.key == k
  {
    if vs != [] {
      AddListSections(k, vs[1..]);
    }
  }

  lemma {:induction false} FieldSections(sec: Section, fs: seq<Field>)
    ensures forall c :: c in FieldCmds(sec, fs) ==> c.key.sec == sec
  {
    if fs != [] {
      FieldSections(sec, fs[1..]);
      if fs[0].Many? {
        AddListSections(Opt(sec, fs[0].name), fs[0].values);
      }
    }
  }

  lemma {:induction false} CmdSections(ps: seq<Piece>)
    ensures forall c :: c in Cmds(ps) ==> c.key.sec in SectionsOf(ps)
  {
    if ps != [] {
      FieldSections(ps[0].sec, ps[0].fields);
      CmdSections(ps[1..]);
      assert forall s :: s in SectionsOf(ps[1..]) ==> s in SectionsOf(ps);
    }
  }

  lemma {:induction false} DeleteSections(secs: seq<Section>)
    ensures forall c :: c in RenderDeletes(secs) ==> c.key.sec in secs
  {
    if secs != [] {
      DeleteSections(secs[1..]);
    }
  }

  lemma UnseenSection(snap: Snap, before: Store, sec: Section)
    requires Captures(snap, NoSqm(before)) && sec.config == SQM
    ensures sec !in snap.existing
  {
    hide Captures;
    CapturedSection(snap, NoSqm(before), sec);
  }

  /** Whatever fails in it, a push whose snapshot did not see `sqm` leaves every section of `sqm` that it does not
      declare as it was, in both layers. */
  lemma UnseenUntouched(e: Env, w: World, st: State, port: nat, snap: Snap, radios: seq<string>)
    requires w.staged == w.committed && Captures(snap, NoSqm(w.staged))
    ensures var sets := Cmds(StatePieces(st, port));
            var w1 := ApplyBatch(e, w, RenderDeletes(snap.existing) + sets, radios).0;
            && WithoutSections(SqmPart(w1.staged), SectionDecls(sets))
            == WithoutSections(SqmPart(w.staged), SectionDecls(sets))
            && WithoutSections(SqmPart(w1.committed), SectionDecls(sets))
            == WithoutSections(SqmPart(w.staged), SectionDecls(sets))
  {
    hide Captures, StatePieces, Cmds, SectionDecls, RenderDeletes, ApplyBatch, AtBase;
    var sets := Cmds(StatePieces(st, port));
    var batch, current := RenderDeletes(snap.existing) + sets, SectionDecls(sets);
    DeclsAreSections(StatePieces(st, port));
    CmdSections(StatePieces(st, port));
    DeleteSections(snap.existing);
    var w1 := ApplyBatch(e, w, batch, radios).0;
    forall k: Key | k.sec.config == SQM && k.sec !in current
      ensures SameAt(w1.staged, w.staged, k) && SameAt(w1.committed, w.staged, k)
    {
      UnseenSection(snap, w.staged, k.sec);
      AtSelf(w, k.sec);
      ApplyBatchFrame(e, w, batch, radios, w.staged, k.sec);
      AtBaseKey(w1, w.staged, k);
    }
    SameWithout(w1.staged, w.staged, current);
    SameWithout(w1.committed, w.staged, current);
  }

  lemma AtSelf(w: World, sec: Section)
    requires w.staged == w.committed
    ensures AtBase(w, w.staged, sec)
  {
  }

  lemma AtBaseKey(w: World, base: Store, k: Key)
    requires AtBase(w, base, k.sec)
    ensures SameAt(w.staged, base, k) && SameAt(w.committed, base, k)
  {
  }

  lemma SameWithout(a: Store, b: Store, secs: seq<Section>)
    requires forall k: Key :: k.sec.config == SQM && k.sec !in secs ==> SameAt(a, b, k)
    ensures WithoutSections(SqmPart(a), secs) == WithoutSections(SqmPart(b), secs)
  {
    forall k: Key ensures SameAt(WithoutSections(SqmPart(a), secs), WithoutSections(SqmPart(b), secs), k) {
      assert k.sec.config == SQM && k.sec !in secs ==> SameAt(a, b, k);
    }
    StoresEqual(WithoutSections(SqmPart(a), secs), WithoutSections(SqmPart(b), secs));
  }

  // --- the rollback of a failed push ---------------------------------------

  /** What is left of a push from `before` that was undone: as `Undone` says; of the sections of `sqm` that were not
      shown exactly those the push declared are lost; and the whole router is restored when neither the `show` nor the
      commit of `sqm` failed, or when neither the store before nor the push has a traffic shaper. */
  ghost predicate PushUndone(r: World, before: Store, now: World, current: seq<Section>, shown: bool, landed: bool) {
    && Undone(r, before, now, current, shown, landed)
    && (!shown ==> SqmPart(r.staged) == WithoutSections(SqmPart(before), current))
    && ((shown && landed) || NoShaper(before, current) ==>
          r.staged == r.committed && RestoredTo(r.committed, before, now.staged))
  }

  lemma WholeRouter(r: World, before: Store, now: World, current: seq<Section>, shown: bool, landed: bool)
    requires Undone(r, before, now, current, shown, landed) && Closed(before)
    requires GoodWorld(now, before, OwnedSections(before) + SetOf(current))
    ensures (shown && landed) || NoShaper(before, current) ==>
              r.staged == r.committed && RestoredTo(r.committed, before, now.staged)
  {
    hide Undone, NoShaper, RestoredTo, GoodWorld, Closed;
    if shown && landed {
      UndoneExact(r, before, now, current);
    } else if NoShaper(before, current) {
      UndoneWithoutSqm(r, before, now, current, shown, landed);
    }
  }

  lemma CleanClosed(st: Store)
    requires Clean(st)
    ensures Closed(st)
  {
  }

  /** A failing push restores what it found: whichever `set`, commit, reload or revert failed, once its own rollback
      ran without a failing `uci` command - the commit of `sqm` excepted - nothing is pending and the layer from before
      is restored, but for `sqm` as far as its `show` or commit failed. */
  lemma FailedPushRestores(e: Env, cfg: Config, s: Engine, st: State, now: int, snap: Snap, shown: bool)
    requires s.pending == None && s.world.staged == s.world.committed && Clean(s.world.staged)
    requires Captures(snap, Shown(s.world.staged, shown)) && Valid(st) && WireSafe(st)
    requires var sets := Cmds(StatePieces(st, cfg.port));
             var (w, ok) := ApplyBatch(e, s.world, RenderDeletes(snap.existing) + sets, ReloadSet(st, snap));
             !ok && Quiet(e, w.tick, |RollbackCmds(snap, SectionDecls(sets))| + |OWNED_CONFIGS| - 1)
    ensures var sets := Cmds(StatePieces(st, cfg.port));
            var w := ApplyBatch(e, s.world, RenderDeletes(snap.existing) + sets, ReloadSet(st, snap)).0;
            var (r, ok) := ApplyPush(e, cfg, s, st, now, snap);
            && !ok && r.pending == None && r.marker == None
            && r.log == s.log + [Status(st.version, Failed, Results(st.ssids))]
            && PushUndone(r.world, s.world.committed, w, SectionDecls(sets), shown,
                          Landed(e, w, snap, SectionDecls(sets)))
  {
    hide Valid, WireSafe, StatePieces, Cmds, SectionDecls, RenderDeletes, ReloadSet, ApplyBatch, RollbackCmds,
         RollbackTo, Clean, Captures, GoodWorld, Quiet, Undone, SnapGood, Results, Landed, PushUndone, Closed;
    var sets := Cmds(StatePieces(st, cfg.port));
    var radios := ReloadSet(st, snap);
    ShownClean(s.world.staged, shown);
    CapturedGood(snap, Shown(s.world.staged, shown));
    PushedGood(e, s.world, st, cfg.port, snap, radios);
    var w := ApplyBatch(e, s.world, RenderDeletes(snap.existing) + sets, radios).0;
    PushRollback(e, w, s.world.staged, st, cfg.port, snap, radios, shown);
    CleanClosed(s.world.staged);
    UnseenLost(e, s.world, st, cfg.port, snap, radios, shown);
  }

  lemma UnseenLost(e: Env, w: World, st: State, port: nat, snap: Snap, radios: seq<string>, shown: bool)
    requires w.staged == w.committed && Closed(w.staged) && Captures(snap, Shown(w.staged, shown))
    requires var sets := Cmds(StatePieces(st, port));
             var w1 := ApplyBatch(e, w, RenderDeletes(snap.existing) + sets, radios).0;
             && GoodWorld(w1, w.staged, OwnedSections(w.staged) + SetOf(SectionDecls(sets)))
             && Undone(RollbackTo(e, w1, snap, SectionDecls(sets), radios).0, w.staged, w1, SectionDecls(sets), shown,
                       Landed(e, w1, snap, SectionDecls(sets)))
    ensures var sets := Cmds(StatePieces(st, port));
            var w1 := ApplyBatch(e, w, RenderDeletes(snap.existing) + sets, radios).0;
            PushUndone(RollbackTo(e, w1, snap, SectionDecls(sets), radios).0, w.staged, w1, SectionDecls(sets), shown,
                       Landed(e, w1, snap, SectionDecls(sets)))
  {
    hide StatePieces, Cmds, SectionDecls, RenderDeletes, ApplyBatch, RollbackCmds, RollbackTo, Captures, NoSqm,
         SqmPart, WithoutSections, RestoredTo, Landed, Closed, GoodWorld, NoShaper;
    var sets := Cmds(StatePieces(st, port));
    var w1 := ApplyBatch(e, w, RenderDeletes(snap.existing) + sets, radios).0;
    WholeRouter(RollbackTo(e, w1, snap, SectionDecls(sets), radios).0, w.staged, w1, SectionDecls(sets), shown,
                Landed(e, w1, snap, SectionDecls(sets)));
    if !shown {
      UnseenUntouched(e, w, st, port, snap, radios);
    }
  }

  // --- the watchdog --------------------------------------------------------

  /** An accepted push, as a state. */
  lemma SetShape(e: Env, cfg: Config, s: Engine, st: State, now: int) returns (snap: Snap, w: World)
    requires StepSet(e, cfg, s, st, now).1
    ensures TakeSnapshot(e, s.world) == (w, Some(snap)) && Valid(st) && s.pending == None
    ensures var r := StepSet(e, cfg, s, st, now).0;
            var sets := Cmds(StatePieces(st, cfg.port));
            var batch := RenderDeletes(snap.existing) + sets;
            && r.world == ApplyBatch(e, w, batch, ReloadSet(st, snap)).0
            && ApplyBatch(e, w, batch, ReloadSet(st, snap)).1
            && r.pending.Some? && r.pending.value.snap == snap && r.pending.value.current == SectionDecls(sets)
            && r.pending.value.radios == ReloadSet(st, snap)
            && r.pending.value.deadline == now + Window(st.timeoutSecs)
            && r.pending.value.version == st.version && r.pending.value.gated == GatedBridges(st.ssids)
  {
    hide Valid, RadiosAllowed, TakeSnapshot, ApplyBatch, RollbackTo, ReloadSet, StatePieces, Cmds, SectionDecls,
         RenderDeletes, MarkerText, GatedBridges, Results, Window;
    w := TakeSnapshot(e, s.world).0;
    snap := TakeSnapshot(e, s.world).1.value;
  }

  /** The `show` of `sqm` in the snapshot a push starts with does not fail. */
  predicate SqmShown(e: Env, s: Engine) {
    !e.fails(s.world.tick + |OWNED_CONFIGS| - 1)
  }

  /** The rollback of the pending push runs without a failing `uci` command, the commit of `sqm` excepted. */
  ghost predicate RollbackQuiet(e: Env, s: Engine) {
    s.pending.Some? ==>
      Quiet(e, s.world.tick, |RollbackCmds(s.pending.value.snap, s.pending.value.current)| + |OWNED_CONFIGS| - 1)
  }

  predicate RollbackLanded(e: Env, s: Engine)
    requires s.pending.Some?
  {
    Landed(e, s.world, s.pending.value.snap, s.pending.value.current)
  }

  /** The watchdog restores what the push found. After an accepted push, made while nothing was staged, let anything
      happen that reports no status: refused pushes, confirms of other versions, looks at the clock, crashes and
      restarts. When the deadline then passes and the rollback runs without a failing `uci` command, the layer from
      before the push is restored - but for `sqm` as far as its `show` or commit failed. */
  lemma WatchdogRestores(e: Env, cfg: Config, s: Engine, st: State, now: int, evs: seq<Event>, fire: int, base: Store)
    requires Inv(s, base) && ShowsAll(e) && EventsOk(evs) && EventOk(SetWireless(st, now))
    requires s.world.staged == s.world.committed && StepSet(e, cfg, s, st, now).1
    requires var s1 := StepSet(e, cfg, s, st, now).0;
             && |RunAll(e, cfg, s1, evs).log| == |s1.log|
             && s1.pending.Some? && s1.pending.value.deadline <= fire && RollbackQuiet(e, s1)
    ensures var s1 := StepSet(e, cfg, s, st, now).0;
            var r := StepTick(e, RunAll(e, cfg, s1, evs), fire);
            && r.pending == None
            && PushUndone(r.world, s.world.committed, s1.world, s1.pending.value.current, SqmShown(e, s),
                          RollbackLanded(e, s1))
  {
    hide Inv, ShowsAll, EventsOk, EventOk, StepSet, RunAll, Alike, PushUndone, RollbackTo, RollbackQuiet,
         RollbackLanded, SqmShown;
    var s1 := StepSet(e, cfg, s, st, now).0;
    AcceptedGood(e, cfg, s, st, now, base);
    QuietRun(e, cfg, s1, evs, base);
    var s2 := RunAll(e, cfg, s1, evs);
    FireAlike(e, s1, s2, fire);
    FireRestores(e, cfg, s, st, now, base);
  }

  lemma AcceptedGood(e: Env, cfg: Config, s: Engine, st: State, now: int, base: Store)
    requires Inv(s, base) && ShowsAll(e) && EventOk(SetWireless(st, now)) && StepSet(e, cfg, s, st, now).1
    ensures Inv(StepSet(e, cfg, s, st, now).0, base)
  {
    hide Inv, ShowsAll, EventOk, StepSet;
    SetInv(e, cfg, s, st, now, base);
  }

  lemma FireAlike(e: Env, s1: Engine, s2: Engine, fire: int)
    requires Alike(s1, s2) && s1.pending.Some? && s1.pending.value.deadline <= fire
    ensures StepTick(e, s2, fire).world == StepWatchdog(e, s1).world
    ensures StepTick(e, s2, fire).pending == None
  {
    hide RollbackTo;
  }

  lemma FireRestores(e: Env, cfg: Config, s: Engine, st: State, now: int, base: Store)
    requires Inv(s, base) && ShowsAll(e) && EventOk(SetWireless(st, now))
    requires s.world.staged == s.world.committed && StepSet(e, cfg, s, st, now).1
    requires RollbackQuiet(e, StepSet(e, cfg, s, st, now).0)
    ensures var s1 := StepSet(e, cfg, s, st, now).0;
            && s1.pending.Some?
            && PushUndone(StepWatchdog(e, s1).world, s.world.committed, s1.world, s1.pending.value.current,
                          SqmShown(e, s), RollbackLanded(e, s1))
  {
    hide ShowsAll, StepSet, Undone, RollbackTo, RollbackCmds, Quiet, TakeSnapshot, Clean, Captures, Valid, WireSafe,
         ApplyBatch, RenderDeletes, Cmds, StatePieces, SectionDecls, ReloadSet, GoodWorld, SnapGood, PendingOk,
         MarkerText, PhaseOf, SameUnowned, Window, Shown, PushUndone, Landed, Closed;
    var snap, w := SetShape(e, cfg, s, st, now);
    var before, shown := s.world.staged, SqmShown(e, s);
    SnapshotExact(e, s.world);
    ShownClean(before, shown);
    CapturedGood(snap, Shown(before, shown));
    PushedGood(e, w, st, cfg.port, snap, ReloadSet(st, snap));
    PushRollback(e, StepSet(e, cfg, s, st, now).0.world, before, st, cfg.port, snap, ReloadSet(st, snap), shown);
    CleanClosed(before);
    UnseenLost(e, w, st, cfg.port, snap, ReloadSet(st, snap), shown);
  }

  /** A confirm is not late until the watchdog has fired: after the same events as above it is accepted at any time,
      the deadline past or not, and keeps everything the push applied. */
  lemma LateConfirmCommits(e: Env, cfg: Config, s: Engine, st: State, now: int, evs: seq<Event>, base: Store)
    requires Inv(s, base) && ShowsAll(e) && EventsOk(evs) && EventOk(SetWireless(st, now))
    requires StepSet(e, cfg, s, st, now).1
    requires |RunAll(e, cfg, StepSet(e, cfg, s, st, now).0, evs).log| == |StepSet(e, cfg, s, st, now).0.log|
    ensures var s1 := StepSet(e, cfg, s, st, now).0;
            var (r, ok) := StepConfirm(RunAll(e, cfg, s1, evs), st.version);
            && ok && r.world == s1.world && r.pending == None && r.marker == None
            && r.committedGated == Some(Join(GatedBridges(st.ssids), ','))
  {
    hide Inv, ShowsAll, EventsOk, EventOk, StepSet, RunAll, GatedBridges, Join;
    var s1 := StepSet(e, cfg, s, st, now).0;
    AcceptedGood(e, cfg, s, st, now, base);
    var snap, w := SetShape(e, cfg, s, st, now);
    QuietRun(e, cfg, s1, evs, base);
  }

  // --- when the restored layer is the one from before ----------------------

  /** An option the push sets, in a section that existed before, which that section did not have. */
  ghost predicate NewOption(before: Store, ps: seq<Piece>, k: Key) {
    k in Desired(ps) && k.sec in OwnedSections(before) && k !in before
  }

  /** After a push none of whose deletes failed, the options gained are those of the push that are new. */
  lemma GainedByPush(before: Store, ps: seq<Piece>, now: Store, k: Key)
    requires AllOwned(ps) && OwnedPart(now) == Desired(ps)
    ensures GainedOption(now, before, k) <==> NewOption(before, ps, k)
  {
    hide Owned;
    DesiredSections(ps);
    assert k in OwnedPart(now) <==> k in now && Owned(k.sec);
  }

  lemma GainedOutside(before: Store, ps: seq<Piece>, now: Store, k: Key)
    requires AllOwned(ps) && OwnedPart(NoSqm(now)) == NoSqm(Desired(ps))
    ensures GainedOption(NoSqm(now), NoSqm(before), k) <==> k.sec.config != SQM && NewOption(before, ps, k)
  {
    hide Owned, Desired;
    DesiredSections(ps);
    assert k in OwnedPart(NoSqm(now)) <==> k in now && Owned(k.sec) && k.sec.config != SQM;
    assert k in NoSqm(Desired(ps)) <==> k in Desired(ps) && k.sec.config != SQM;
    assert k.sec.config != SQM ==> (k.sec in OwnedSections(NoSqm(before)) <==> k.sec in OwnedSections(before)) by {
      assert Decl(k.sec) in NoSqm(before) <==> Decl(k.sec) in before && k.sec.config != SQM;
    }
  }

  /** No delete of the push fails; that is all an accepted push can still hide. */
  ghost predicate DeletesQuiet(e: Env, s: Engine) {
    forall snap :: TakeSnapshot(e, s.world).1 == Some(snap) ==>
      Quiet(e, s.world.tick + |OWNED_CONFIGS|, |snap.existing|)
  }

  /** What an accepted push none of whose deletes failed leaves staged. */
  lemma AcceptedStaged(e: Env, cfg: Config, s: Engine, st: State, now: int)
    requires ShowsAll(e) && Clean(s.world.staged) && StepSet(e, cfg, s, st, now).1
    requires s.world.staged == s.world.committed && DeletesQuiet(e, s)
    ensures var d := Desired(StatePieces(st, cfg.port));
            var w := StepSet(e, cfg, s, st, now).0.world;
            && NoSqm(w.committed) == NoSqm(w.staged) && OwnedPart(NoSqm(w.staged)) == NoSqm(d)
            && (SqmShown(e, s) ==> OwnedPart(w.staged) == d)
  {
    hide ShowsAll, StepSet, Quiet, TakeSnapshot, Clean, Captures, Valid, ApplyBatch, RenderDeletes, Cmds, StatePieces,
         SectionDecls, ReloadSet, Window, Shown, NoSqm, SqmPart, OwnedPart, Desired, AllOwned, SameUnowned;
    var snap, w := SetShape(e, cfg, s, st, now);
    SnapshotExact(e, s.world);
    CapturedSections(snap, Shown(s.world.staged, SqmShown(e, s)));
    RenderOwned(st, cfg.port);
    AcceptedQuiet(e, w, StatePieces(st, cfg.port), snap.existing, ReloadSet(st, snap));
    CleanClosed(s.world.staged);
    PushConverges(e, w, st, cfg.port, snap.existing, ReloadSet(st, snap), SqmShown(e, s));
  }

  lemma CapturedSections(snap: Snap, st: Store)
    requires Captures(snap, st)
    ensures SetOf(snap.existing) == OwnedSections(st)
  {
  }

  lemma GainedIffNew(before: Store, ps: seq<Piece>, now: Store)
    requires AllOwned(ps)
    ensures OwnedPart(NoSqm(now)) == NoSqm(Desired(ps)) ==>
              ((exists k :: GainedOption(NoSqm(now), NoSqm(before), k))
               <==> exists k: Key :: k.sec.config != SQM && NewOption(before, ps, k))
    ensures OwnedPart(now) == Desired(ps) ==>
              ((exists k :: GainedOption(now, before, k)) <==> exists k :: NewOption(before, ps, k))
  {
    hide GainedOption, NewOption, AllOwned, NoSqm, OwnedPart, Desired;
    if OwnedPart(NoSqm(now)) == NoSqm(Desired(ps)) {
      forall k ensures GainedOption(NoSqm(now), NoSqm(before), k) <==> k.sec.config != SQM && NewOption(before, ps, k) {
        GainedOutside(before, ps, now, k);
      }
    }
    if OwnedPart(now) == Desired(ps) {
      forall k ensures GainedOption(now, before, k) <==> NewOption(before, ps, k) {
        GainedByPush(before, ps, now, k);
      }
    }
  }

  /** A push that is accepted, none of whose deletes failed, and then undone by the watchdog leaves the store from
      before exactly when none of its options is new in a section that was there: a condition of the push and the store
      it is made on. */
  lemma UndoneIff(e: Env, cfg: Config, s: Engine, st: State, now: int, evs: seq<Event>, fire: int, base: Store)
    requires Inv(s, base) && ShowsAll(e) && EventsOk(evs) && EventOk(SetWireless(st, now))
    requires s.world.staged == s.world.committed && StepSet(e, cfg, s, st, now).1 && DeletesQuiet(e, s)
    requires var s1 := StepSet(e, cfg, s, st, now).0;
             && |RunAll(e, cfg, s1, evs).log| == |s1.log|
             && s1.pending.Some? && s1.pending.value.deadline <= fire && RollbackQuiet(e, s1)
    ensures var s1 := StepSet(e, cfg, s, st, now).0;
            var r, ps := StepTick(e, RunAll(e, cfg, s1, evs), fire).world, StatePieces(st, cfg.port);
            && (NoSqm(r.committed) == NoSqm(s.world.committed)
                <==> !exists k: Key :: k.sec.config != SQM && NewOption(s.world.committed, ps, k))
            && ((SqmShown(e, s) && RollbackLanded(e, s1))
                || NoShaper(s.world.committed, s1.pending.value.current) ==>
                  && r.staged == r.committed
                  && (r.committed == s.world.committed <==> !exists k :: NewOption(s.world.committed, ps, k)))
  {
    hide Inv, ShowsAll, EventsOk, EventOk, StepSet, RunAll, RollbackQuiet, RollbackLanded, SqmShown, NewOption,
         StatePieces, DeletesQuiet, NoSqm, SqmPart, GainedOption, StepTick, OwnedPart, Desired, Clean, SameUnowned,
         OwnedSections, WithoutSections, AllOwned, NoShaper;
    var s1 := StepSet(e, cfg, s, st, now).0;
    WatchdogRestores(e, cfg, s, st, now, evs, fire, base);
    InvClean(s, base);
    AcceptedStaged(e, cfg, s, st, now);
    RenderOwned(st, cfg.port);
    GainedIffNew(s.world.committed, StatePieces(st, cfg.port), s1.world.staged);
    if NoShaper(s.world.committed, s1.pending.value.current) {
      GainedNoShaper(s.world.committed, StatePieces(st, cfg.port), s1.world.staged, s1.pending.value.current);
    }
  }

  lemma GainedNoShaper(before: Store, ps: seq<Piece>, now: Store, current: seq<Section>)
    requires AllOwned(ps) && OwnedPart(NoSqm(now)) == NoSqm(Desired(ps)) && NoShaper(before, current)
    ensures (exists k :: GainedOption(now, before, k)) <==> exists k :: NewOption(before, ps, k)
  {
    hide Owned, AllOwned, OwnedPart, Desired, NewOption, NoShaper;
    forall k ensures GainedOption(now, before, k) <==> NewOption(before, ps, k) {
      GainedOutside(before, ps, now, k);
      ShaperKey(before, ps, now, current, k);
    }
  }

  lemma ShaperKey(before: Store, ps: seq<Piece>, now: Store, current: seq<Section>, k: Key)
    requires NoShaper(before, current)
    ensures GainedOption(now, before, k) <==> GainedOption(NoSqm(now), NoSqm(before), k)
    ensures NewOption(before, ps, k) ==> k.sec.config != SQM
  {
    hide Owned, Desired;
    assert k.sec in OwnedSections(before) ==> k.sec.config != SQM;
    assert Decl(k.sec) in NoSqm(before) <==> Decl(k.sec) in before && k.sec.config != SQM;
  }

  lemma InvClean(s: Engine, base: Store)
    requires Inv(s, base)
    ensures Clean(s.world.staged) && Clean(s.world.committed)
  {
    hide EntryOk;
  }

  // --- a push that is stopped ----------------------------------------------

  /** Config by config, the staged layer becomes the committed one - but for `sqm`, when its revert fails. */
  lemma {:induction false} RevertFromQuiet(e: Env, w: World, i: nat)
    requires i < |OWNED_CONFIGS| && Quiet(e, w.tick, |OWNED_CONFIGS| - 1 - i) && SameBefore(w.staged, w.committed, i)
    ensures var last := w.tick + |OWNED_CONFIGS| - 1 - i;
            RevertFrom(e, w, i) == World(Laid(w.committed, w.staged, !e.fails(last)), w.committed, last + 1)
    decreases |OWNED_CONFIGS| - i
  {
    hide SameBefore, Laid;
    var cfg := OWNED_CONFIGS[i];
    OnlySqmOptional(i);
    if i == |OWNED_CONFIGS| - 1 {
      SameBeforeSqm(w.staged, w.committed);
      LaidIs(w.committed, w.staged);
    } else {
      var w1 := Pass(w).(staged := PutConfig(w.staged, w.committed, cfg));
      SameBeforeNext(w.staged, w.committed, i);
      RevertFromQuiet(e, w1, i + 1);
      LaidOnce(w.committed, w.staged, cfg, !e.fails(w.tick + |OWNED_CONFIGS| - 1 - i));
    }
  }

  lemma RevertAllQuiet(e: Env, w: World, base: Store, secs: set<Section>)
    requires GoodWorld(w, base, secs) && Quiet(e, w.tick, |OWNED_CONFIGS| - 1)
    ensures var last := w.tick + |OWNED_CONFIGS| - 1;
            RevertFrom(e, w, 0) == World(Laid(w.committed, w.staged, !e.fails(last)), w.committed, last + 1)
  {
    hide Clean, OwnedSections, RevertFrom, SameBefore, Laid;
    SameSelf(w.committed);
    UnownedMeet(w.staged, w.committed, w.committed, base);
    UnownedBefore(w.staged, w.committed);
    RevertFromQuiet(e, w, 0);
  }

  lemma {:induction false} RevertTicks(e: Env, w: World, i: nat)
    requires i <= |OWNED_CONFIGS|
    ensures RevertFrom(e, w, i).tick == w.tick + |OWNED_CONFIGS| - i
    decreases |OWNED_CONFIGS| - i
  {
    hide PutConfig;
    if i < |OWNED_CONFIGS| {
      var w1 :=
        if e.fails(w.tick) then Pass(w)
        else Pass(w).(staged := PutConfig(w.staged, w.committed, OWNED_CONFIGS[i]));
      RevertTicks(e, w1, i + 1);
    }
  }

  /** A batch stopped by a failing command, whose reverts then succeed, that of `sqm` excepted, leaves nothing staged,
      that of `sqm` excepted. */
  lemma {:induction false} StoppedBatch(e: Env, w: World, cmds: seq<Cmd>, base: Store, secs: set<Section>)
    requires GoodWorld(w, base, secs) && CmdsOk(cmds, secs) && !ApplyCmds(e, w, cmds).1
    requires var end := ApplyCmds(e, w, cmds).0.tick;
             end >= |OWNED_CONFIGS| && Quiet(e, end - |OWNED_CONFIGS|, |OWNED_CONFIGS| - 1)
    ensures var end := ApplyCmds(e, w, cmds).0;
            && end.committed == w.committed && NoSqm(end.staged) == NoSqm(w.committed)
            && (!e.fails(end.tick - 1) ==> end.staged == w.committed)
    decreases cmds
  {
    hide GoodWorld, CmdOk, RevertFrom, Exec, NoSqm, Laid;
    if cmds != [] {
      assert cmds[0] in cmds;
      RunGood(e, w, cmds[0], base, secs);
      var (w1, ok) := Run(e, w, cmds[0]);
      if ok || cmds[0].Delete? {
        StoppedBatch(e, w1, cmds[1..], base, secs);
      } else {
        RevertTicks(e, w1, 0);
        RevertAllQuiet(e, w1, base, secs);
        LaidParts(w1.committed, w1.staged, !e.fails(w1.tick + |OWNED_CONFIGS| - 1));
        LaidIs(w1.committed, w1.staged);
      }
    }
  }

  /** Commits stopped by a failure, after which the reverts succeed, that of `sqm` excepted, leave nothing staged, that
      of `sqm` excepted: what was not committed is dropped. */
  lemma {:induction false} StoppedCommit(e: Env, w: World, i: nat, base: Store, secs: set<Section>)
    requires i <= |OWNED_CONFIGS| && GoodWorld(w, base, secs) && !CommitFrom(e, w, i).1
    requires var end := CommitFrom(e, w, i).0.tick;
             end >= |OWNED_CONFIGS| && Quiet(e, end - |OWNED_CONFIGS|, |OWNED_CONFIGS| - 1)
    ensures var end := CommitFrom(e, w, i).0;
            && NoSqm(end.staged) == NoSqm(end.committed)
            && (!e.fails(end.tick - 1) ==> end.staged == end.committed)
    decreases |OWNED_CONFIGS| - i
  {
    hide Good, RevertFrom, PutConfig, NoSqm, Laid;
    if i < |OWNED_CONFIGS| {
      PutConfigGood(w.committed, w.staged, OWNED_CONFIGS[i], base, secs);
      var (w1, ok) := Commit(e, w, OWNED_CONFIGS[i]);
      if ok || OWNED_CONFIGS[i] == "sqm" {
        StoppedCommit(e, w1, i + 1, base, secs);
      } else {
        RevertTicks(e, w1, 0);
        RevertAllQuiet(e, w1, base, secs);
        LaidParts(w1.committed, w1.staged, !e.fails(w1.tick + |OWNED_CONFIGS| - 1));
        LaidIs(w1.committed, w1.staged);
      }
    }
  }

  /** The configs in the order they are committed. */
  const COMMITTED := ["network", "wireless", "dhcp", "firewall", "sqm"]

  lemma {:induction false} CommitsBefore(e: Env, w: World, i: nat, n: nat, k: Key)
    requires i <= n < 4 && Quiet(e, w.tick, n - i) && e.fails(w.tick + (n - i))
    ensures SameAt(CommitFrom(e, w, i).0.committed,
                   if k.sec.config in COMMITTED[i..n] then w.staged else w.committed, k)
    ensures !CommitFrom(e, w, i).1
    decreases n - i
  {
    hide PutConfig, RevertFrom, Quiet;
    OnlySqmOptional(i);
    if i < n {
      QuietFrom(e, w.tick, n - i);
      var w1 := Commit(e, w, OWNED_CONFIGS[i]).0;
      PutConfigAt(w.committed, w.staged, OWNED_CONFIGS[i], k);
      CommitsBefore(e, w1, i + 1, n, k);
      assert COMMITTED[i..n] == [COMMITTED[i]] + COMMITTED[i + 1..n];
    } else {
      RevertsNone(e, Commit(e, w, OWNED_CONFIGS[i]).0, 0);
    }
  }

  lemma QuietFrom(e: Env, t: nat, n: nat)
    requires Quiet(e, t, n) && n > 0
    ensures !e.fails(t) && Quiet(e, t + 1, n - 1)
  {
  }

  lemma {:induction false} RevertsNone(e: Env, w: World, i: nat)
    requires i <= |OWNED_CONFIGS|
    ensures RevertFrom(e, w, i).committed == w.committed
    decreases |OWNED_CONFIGS| - i
  {
    hide PutConfig;
    if i < |OWNED_CONFIGS| {
      var w1 :=
        if e.fails(w.tick) then Pass(w)
        else Pass(w).(staged := PutConfig(w.staged, w.committed, OWNED_CONFIGS[i]));
      RevertsNone(e, w1, i + 1);
    }
  }

  /** When the n-th commit fails, exactly the configs before it - of `network`, `wireless`, `dhcp`, `firewall`, in this
      order - are committed as staged, and every other stays as it was. */
  lemma CommitPrefix(e: Env, w: World, n: nat, k: Key)
    requires n < 4 && Quiet(e, w.tick, n) && e.fails(w.tick + n)
    ensures SameAt(CommitFrom(e, w, 0).0.committed,
                   if k.sec.config in ["network", "wireless", "dhcp", "firewall"][..n] then w.staged else w.committed,
                   k)
    ensures !CommitFrom(e, w, 0).1
  {
    CommitsBefore(e, w, 0, n, k);
    assert ["network", "wireless", "dhcp", "firewall"][..n] == COMMITTED[0..n];
  }

  lemma NothingGained(c: Store, before: Store, now: Store)
    requires RestoredTo(c, before, now) && now == before
    ensures c == before
  {
  }

  /** A push stopped before its commits, by any failing `set` or `add_list`, whose reverts and rollback run without a
      failing `uci` command - those of `sqm` excepted - is undone exactly: outside `sqm` the router is as it was, and
      within when neither show, revert nor commit of `sqm` failed. */
  lemma StoppedPushIsExact(e: Env, cfg: Config, s: Engine, st: State, now: int, snap: Snap, shown: bool)
    requires s.pending == None && s.world.staged == s.world.committed && Clean(s.world.staged)
    requires Captures(snap, Shown(s.world.staged, shown)) && Valid(st) && WireSafe(st)
    requires var sets := Cmds(StatePieces(st, cfg.port));
             var (w, ok) := ApplyCmds(e, s.world, RenderDeletes(snap.existing) + sets);
             && !ok && w.tick >= |OWNED_CONFIGS|
             && Quiet(e, w.tick - |OWNED_CONFIGS|, |OWNED_CONFIGS| - 1)
             && Quiet(e, w.tick, |RollbackCmds(snap, SectionDecls(sets))| + |OWNED_CONFIGS| - 1)
    ensures var sets := Cmds(StatePieces(st, cfg.port));
            var w := ApplyCmds(e, s.world, RenderDeletes(snap.existing) + sets).0;
            var r := ApplyPush(e, cfg, s, st, now, snap).0.world;
            && NoSqm(r.committed) == NoSqm(s.world.committed) && NoSqm(r.staged) == NoSqm(s.world.committed)
            && (shown && !e.fails(w.tick - 1) && Landed(e, w, snap, SectionDecls(sets)) ==>
                  r.staged == s.world.committed && r.committed == s.world.committed)
  {
    hide Valid, WireSafe, StatePieces, Cmds, SectionDecls, RenderDeletes, ReloadSet, ApplyCmds, RollbackCmds, CmdsOk,
         RollbackTo, Clean, Captures, GoodWorld, Quiet, RestoredTo, SnapGood, Results, ApplyPush, Shown, Landed, NoSqm,
         SqmPart, WithoutSections, NoShaper;
    var sets := Cmds(StatePieces(st, cfg.port));
    var batch, base := RenderDeletes(snap.existing) + sets, s.world.staged;
    var secs := OwnedSections(base) + SetOf(SectionDecls(sets));
    ShownClean(base, shown);
    CapturedGood(snap, Shown(base, shown));
    BatchOk(st, cfg.port, snap);
    CmdsOkMore(batch, SetOf(SectionDecls(sets)), secs);
    SelfGood(s.world, SetOf(SectionDecls(sets)));
    StoppedBatch(e, s.world, batch, base, secs);
    FailedPushRestores(e, cfg, s, st, now, snap, shown);
    var w := ApplyCmds(e, s.world, batch).0;
    var r := ApplyPush(e, cfg, s, st, now, snap).0.world;
    NothingGained(NoSqm(r.committed), NoSqm(base), NoSqm(w.staged));
    if shown && !e.fails(w.tick - 1) && Landed(e, w, snap, SectionDecls(sets)) {
      NothingGained(r.committed, base, w.staged);
    }
  }

  lemma SelfGood(w: World, more: set<Section>)
    requires w.staged == w.committed && Clean(w.staged)
    ensures GoodWorld(w, w.staged, OwnedSections(w.staged) + more)
  {
    hide Clean;
    SameSelf(w.staged);
  }
}
