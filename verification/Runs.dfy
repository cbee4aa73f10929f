/** Whole runs of the protocol: what is never touched, how statuses pair up, what a crash changes, what a watchdog
    restores. */
module Runs {
  import opened Text
  import opened Uci
  import opened Snapshot
  import opened Marker
  import opened Rollback
  import opened Wireless
  import opened Validate
  import opened Protocol
  import opened Safety

  ghost predicate EventsOk(evs: seq<Event>) {
    forall ev :: ev in evs ==> EventOk(ev)
  }

  // --- what no run changes -------------------------------------------------

  /** No run of the actor ever changes a key outside the owned namespace, in either layer, whatever fails. */
  lemma UnownedUntouched(e: Env, cfg: Config, s: Engine, evs: seq<Event>, base: Store, k: Key)
    requires Inv(s, base) && ShowsAll(e) && EventsOk(evs) && !Owned(k.sec)
    ensures SameAt(RunAll(e, cfg, s, evs).world.committed, base, k)
    ensures SameAt(RunAll(e, cfg, s, evs).world.staged, base, k)
  {
    hide RunAll, EventOk, ShowsAll, PendingOk, MarkerText, PhaseOf;
    RunInv(e, cfg, s, evs, base);
  }

  /** At every point of every run the marker file is there exactly when a push is pending, and reads back as it. */
  lemma MarkerIffPending(e: Env, cfg: Config, s: Engine, evs: seq<Event>, base: Store)
    requires Inv(s, base) && ShowsAll(e) && EventsOk(evs)
    ensures var r := RunAll(e, cfg, s, evs);
            && (r.marker.Some? <==> r.pending.Some?)
            && (r.pending.Some? ==> ReadMarker(r.marker.value) == Some(MarkerOf(r.pending.value)))
  {
    hide RunAll, EventOk, ShowsAll, MarkerText, PhaseOf, WorldOk, ReadMarker, MarkerOk;
    RunInv(e, cfg, s, evs, base);
    var r := RunAll(e, cfg, s, evs);
    if r.pending.Some? {
      MarkerRoundTrip(MarkerOf(r.pending.value));
    }
  }

  // --- statuses ------------------------------------------------------------

  /** Every push reported pending is followed at once by its one outcome, under the same version; a commit or a
      rollback only ever reports the push just before it. */
  ghost predicate Paired(log: seq<Status>) {
    && (forall i :: 0 <= i < |log| - 1 && log[i].kind == AppliedPending ==>
          log[i + 1].kind != AppliedPending && log[i + 1].version == log[i].version)
    && forall i :: 0 <= i < |log| && (log[i].kind == Committed || log[i].kind == RolledBack) ==>
          i > 0 && log[i - 1].kind == AppliedPending && log[i - 1].version == log[i].version
  }

  lemma {:induction false} PhasePaired(log: seq<Status>)
    requires PhaseOf(log) != Broken
    ensures Paired(log)
    ensures log != [] ==>
              (PhaseOf(log) == Awaiting(log[|log| - 1].version) <==> log[|log| - 1].kind == AppliedPending)
    ensures log == [] ==> PhaseOf(log) == Idle
  {
    if log != [] {
      var init, last := log[..|log| - 1], log[|log| - 1];
      PhasePaired(init);
      assert forall i :: 0 <= i < |init| ==> init[i] == log[i];
      assert init != [] ==> init[|init| - 1] == log[|log| - 2];
    }
  }

  lemma StatusesPair(e: Env, cfg: Config, s: Engine, evs: seq<Event>, base: Store)
    requires Inv(s, base) && ShowsAll(e) && EventsOk(evs)
    ensures Paired(RunAll(e, cfg, s, evs).log)
  {
    hide RunAll, EventOk, ShowsAll, MarkerText, PhaseOf, WorldOk, PendingOk, Paired;
    RunInv(e, cfg, s, evs, base);
    PhasePaired(RunAll(e, cfg, s, evs).log);
  }

  /** The committed state changes only by a confirm of the pending version, to that push's state, with a `Committed`
      status - or is forgotten in a crash. */
  lemma CommitOnlyOnConfirm(e: Env, cfg: Config, s: Engine, ev: Event)
    requires Step(e, cfg, s, ev).lastCommitted != s.lastCommitted
    ensures ev.Confirm? || ev.Crash?
    ensures ev.Crash? ==> Step(e, cfg, s, ev).lastCommitted == None
    ensures ev.Confirm? ==>
              && s.pending.Some? && s.pending.value.version == ev.version
              && Step(e, cfg, s, ev).lastCommitted == Some(s.pending.value.desired)
              && Step(e, cfg, s, ev).world == s.world
              && Step(e, cfg, s, ev).log == s.log + [Status(ev.version, Committed, s.pending.value.results)]
  {
    hide TakeSnapshot, ApplyBatch, RollbackTo, Valid, ReadMarker, MarkerText, StatePieces, Cmds, ReloadSet;
  }

  // --- crash transparency --------------------------------------------------

  /** A pending push without what the marker does not carry. */
  function Forget(p: Pending): Pending {
    p.(results := [], desired := NO_STATE)
  }

  predicate SamePending(a: Option<Pending>, b: Option<Pending>) {
    match (a, b)
    case (None, None) => true
    case (Some(p), Some(q)) => Forget(p) == Forget(q)
    case _ => false
  }

  predicate SameLog(a: seq<Status>, b: seq<Status>) {
    |a| == |b| && forall i :: 0 <= i < |a| ==> a[i].version == b[i].version && a[i].kind == b[i].kind
  }

  /** Equal router, files, pending push, deadline and sequence of outcomes; only the per-SSID rows and the memory of
      the last committed state may differ. */
  predicate Alike(a: Engine, b: Engine) {
    && a.world == b.world && a.marker == b.marker && a.committedGated == b.committedGated
    && SamePending(a.pending, b.pending) && SameLog(a.log, b.log)
  }

  lemma AlikeTrans(a: Engine, b: Engine, c: Engine)
    requires Alike(a, b) && Alike(b, c)
    ensures Alike(a, c)
  {
  }

  lemma EmitAlike(a: Engine, b: Engine, version: string, kind: Kind, ra: seq<SsidResult>, rb: seq<SsidResult>)
    requires Alike(a, b)
    ensures Alike(Emit(a, version, kind, ra), Emit(b, version, kind, rb))
  {
  }

  lemma ResolveAlike(e: Env, a: Engine, b: Engine, version: string, ra: seq<SsidResult>, rb: seq<SsidResult>,
                     snap: Snap, current: seq<Section>, radios: seq<string>)
    requires a.world == b.world && a.committedGated == b.committedGated
    requires SamePending(a.pending, b.pending) && SameLog(a.log, b.log)
    ensures Alike(Resolve(e, a, version, ra, snap, current, radios), Resolve(e, b, version, rb, snap, current, radios))
  {
    hide RollbackTo;
    var (w, ok) := RollbackTo(e, a.world, snap, current, radios);
    EmitAlike(a.(world := w, marker := None), b.(world := w, marker := None), version,
              if ok then RolledBack else Failed, ra, rb);
  }

  lemma SetAlike(e: Env, cfg: Config, a: Engine, b: Engine, st: State, now: int)
    requires Alike(a, b)
    ensures Alike(StepSet(e, cfg, a, st, now).0, StepSet(e, cfg, b, st, now).0)
    ensures StepSet(e, cfg, a, st, now).1 == StepSet(e, cfg, b, st, now).1
  {
    hide Valid, RadiosAllowed, TakeSnapshot, ApplyBatch, RollbackTo, ReloadSet, StatePieces, Cmds, SectionDecls,
         RenderDeletes, MarkerText, GatedBridges, Results, Window;
    if Valid(st) && RadiosAllowed(st, cfg.protected) && a.pending == None {
      var (w, taken) := TakeSnapshot(e, a.world);
      if taken.Some? {
        ApplyAlike(e, cfg, a.(world := w), b.(world := w), st, now, taken.value);
      }
    }
  }

  lemma ApplyAlike(e: Env, cfg: Config, a: Engine, b: Engine, st: State, now: int, snap: Snap)
    requires Alike(a, b) && a.pending == None
    ensures Alike(ApplyPush(e, cfg, a, st, now, snap).0, ApplyPush(e, cfg, b, st, now, snap).0)
    ensures ApplyPush(e, cfg, a, st, now, snap).1 == ApplyPush(e, cfg, b, st, now, snap).1
  {
    hide ApplyBatch, RollbackTo, ReloadSet, StatePieces, Cmds, SectionDecls, RenderDeletes, MarkerText, GatedBridges,
         Results, Window;
  }

  lemma WatchdogAlike(e: Env, a: Engine, b: Engine)
    requires Alike(a, b)
    ensures Alike(StepWatchdog(e, a), StepWatchdog(e, b))
  {
    hide Resolve;
    if a.pending.Some? {
      var p, q := a.pending.value, b.pending.value;
      ResolveAlike(e, a.(pending := None), b.(pending := None), p.version, p.results, q.results, p.snap, p.current,
                   p.radios);
    }
  }

  lemma RestartAlike(e: Env, a: Engine, b: Engine, now: int)
    requires Alike(a, b)
    ensures Alike(StepRestart(e, a, now), StepRestart(e, b, now))
  {
    hide Resolve, ReadMarker;
    var a1, b1 := a.(pending := None, lastCommitted := None), b.(pending := None, lastCommitted := None);
    if a.marker.Some? && ReadMarker(a.marker.value).Some? {
      var m := ReadMarker(a.marker.value).value;
      ResolveAlike(e, a1, b1, m.version, [], [], m.snap, m.current, m.radios);
    }
  }

  /** No event tells alike engines apart. */
  lemma StepAlike(e: Env, cfg: Config, a: Engine, b: Engine, ev: Event)
    requires Alike(a, b)
    ensures Alike(Step(e, cfg, a, ev), Step(e, cfg, b, ev))
  {
    hide StepSet, StepWatchdog, StepRestart, Join;
    match ev {
      case SetWireless(st, now) => SetAlike(e, cfg, a, b, st, now);
      case Confirm(v) =>
        if a.pending.Some? && a.pending.value.version == v {
          var p, q := a.pending.value, b.pending.value;
          assert p.gated == q.gated;
        }
      case Tick(now) => WatchdogAlike(e, a, b);
      case Crash(now) => RestartAlike(e, a, b, now);
    }
  }

  /** A crash and restart is a look at the clock: inside the confirm window nothing but the forgotten rows changes,
      past the deadline the restart does what the watchdog would have done. */
  lemma CrashIsTick(e: Env, s: Engine, now: int, base: Store)
    requires Inv(s, base)
    ensures Alike(StepRestart(e, s, now), StepTick(e, s, now))
  {
    hide WorldOk, PhaseOf, MarkerText, ReadMarker, MarkerOk, Resolve, CmdsOk, RollbackCmds;
    if s.pending.Some? {
      var p := s.pending.value;
      MarkerRoundTrip(MarkerOf(p));
      ResolveAlike(e, s.(pending := None, lastCommitted := None), s.(pending := None), p.version, [], p.results,
                   p.snap, p.current, p.radios);
    }
  }

  /** The same events with every crash replaced by a look at the clock. */
  function Uncrashed(evs: seq<Event>): seq<Event> {
    if evs == [] then []
    else
      Uncrashed(evs[..|evs| - 1]) +
      [match evs[|evs| - 1] case Crash(now) => Tick(now) case ev => ev]
  }

  /** Crash transparency: however many crashes a run contains and wherever they fall between steps, it reaches the
      same router, the same files, the same pending push and the same outcomes as the run without them - so a later
      confirm writes the same gated set and a later watchdog restores the same store. */
  lemma {:induction false} CrashTransparent(e: Env, cfg: Config, s: Engine, evs: seq<Event>, base: Store)
    requires Inv(s, base) && ShowsAll(e) && EventsOk(evs)
    ensures Alike(RunAll(e, cfg, s, evs), RunAll(e, cfg, s, Uncrashed(evs)))
  {
    hide Inv, EventOk, ShowsAll, Step, Alike;
    if evs == [] {
      AlikeSelf(s);
    } else {
      var init, ev := evs[..|evs| - 1], evs[|evs| - 1];
      var x, y := RunAll(e, cfg, s, init), RunAll(e, cfg, s, Uncrashed(init));
      CrashTransparent(e, cfg, s, init, base);
      var calm := match ev case Crash(now) => Tick(now) case other => other;
      var u := Uncrashed(evs);
      assert u[|u| - 1] == calm && u[..|u| - 1] == Uncrashed(init);
      StepAlike(e, cfg, x, y, calm);
      if ev.Crash? {
        RunInv(e, cfg, s, init, base);
        CrashStep(e, cfg, x, ev.now, base);
        AlikeTrans(Step(e, cfg, x, ev), Step(e, cfg, x, calm), Step(e, cfg, y, calm));
      }
    }
  }

  lemma CrashStep(e: Env, cfg: Config, s: Engine, now: int, base: Store)
    requires Inv(s, base)
    ensures Alike(Step(e, cfg, s, Crash(now)), Step(e, cfg, s, Tick(now)))
  {
    hide Inv, Alike, StepRestart, StepTick;
    CrashIsTick(e, s, now, base);
  }

  lemma AlikeSelf(s: Engine)
    ensures Alike(s, s)
  {
  }

  // --- the confirm window --------------------------------------------------

  /** An event that reports nothing leaves a pending push, and the router under it, as they were. */
  lemma QuietStep(e: Env, cfg: Config, s: Engine, ev: Event, base: Store)
    requires Inv(s, base) && s.pending.Some? && |Step(e, cfg, s, ev).log| == |s.log|
    ensures Alike(s, Step(e, cfg, s, ev))
  {
    hide WorldOk, PhaseOf, MarkerText, ReadMarker, MarkerOk, RollbackTo, CmdsOk, RollbackCmds, StepSet;
    match ev {
      case SetWireless(st, now) => PendingRefuses(e, cfg, s, st, now);
      case Confirm(v) =>
      case Tick(now) =>
      case Crash(now) => MarkerRoundTrip(MarkerOf(s.pending.value));
    }
  }

  lemma PendingRefuses(e: Env, cfg: Config, s: Engine, st: State, now: int)
    requires s.pending.Some?
    ensures StepSet(e, cfg, s, st, now) == (s, false)
  {
  }

  lemma LogGrows(e: Env, cfg: Config, s: Engine, ev: Event)
    ensures |s.log| <= |Step(e, cfg, s, ev).log|
  {
    hide Valid, RadiosAllowed, TakeSnapshot, ApplyBatch, RollbackTo, ReadMarker, ReloadSet, StatePieces, Cmds,
         MarkerText;
  }

  lemma {:induction false} LogGrowsRun(e: Env, cfg: Config, s: Engine, evs: seq<Event>)
    ensures |s.log| <= |RunAll(e, cfg, s, evs).log|
  {
    hide Step;
    if evs != [] {
      LogGrowsRun(e, cfg, s, evs[..|evs| - 1]);
      LogGrows(e, cfg, RunAll(e, cfg, s, evs[..|evs| - 1]), evs[|evs| - 1]);
    }
  }

  lemma {:induction false} QuietRun(e: Env, cfg: Config, s: Engine, evs: seq<Event>, base: Store)
    requires Inv(s, base) && ShowsAll(e) && EventsOk(evs) && s.pending.Some?
    requires |RunAll(e, cfg, s, evs).log| == |s.log|
    ensures Alike(s, RunAll(e, cfg, s, evs))
  {
    hide Inv, EventOk, ShowsAll, Step;
    if evs == [] {
      AlikeSelf(s);
    } else {
      var x := RunAll(e, cfg, s, evs[..|evs| - 1]);
      LogGrowsRun(e, cfg, s, evs[..|evs| - 1]);
      LogGrows(e, cfg, x, evs[|evs| - 1]);
      QuietRun(e, cfg, s, evs[..|evs| - 1], base);
      RunInv(e, cfg, s, evs[..|evs| - 1], base);
      QuietStep(e, cfg, x, evs[|evs| - 1], base);
      AlikeTrans(s, x, Step(e, cfg, x, evs[|evs| - 1]));
    }
  }
}
