/** When a reload, a push and a rollback report success, told from the failures and the radio statuses alone. */
module Verdict {
  import opened Text
  import opened Uci
  import opened Snapshot
  import opened Marker
  import opened Rollback
  import opened Wireless
  import opened Validate
  import opened Converge
  import opened Protocol
  import opened Safety
  import opened Runs
  import opened Restore

  // --- what a reload issues and what it finds ------------------------------

  /** The commands from `from` to just before `to` bring up one radio: at most three, each after the failure of the one
      before it, and no more after one that succeeded. */
  ghost predicate Climb(e: Env, from: nat, to: nat) {
    && from < to <= from + 3
    && (forall t :: from <= t < to - 1 ==> e.fails(t))
    && (to < from + 3 ==> !e.fails(to - 1))
  }

  /** The command before tick `t` succeeded. */
  predicate Succeeded(e: Env, t: nat) {
    t > 0 && !e.fails(t - 1)
  }

  /** Radio by radio from tick `t` on: the commands of the i-th one start at `starts[i]`. */
  ghost predicate Climbs(e: Env, t: nat, starts: seq<nat>) {
    && starts != [] && starts[0] == t
    && forall i :: 0 < i < |starts| ==> Climb(e, starts[i - 1], starts[i])
  }

  /** The radios a status read at `tick` reports down, by their place in the list. */
  ghost function Dark(e: Env, tick: nat, radios: seq<string>): set<nat> {
    set i: nat | i < |radios| && radios[i] in e.down(tick)
  }

  /** The commands of a reload at tick `t`: network, firewall, the radios, `dnsmasq`, the shaper, a status - and when
      that reports radios down, one command for each of them and a second status, the last one before `end`. */
  ghost predicate Reloads(e: Env, t: nat, radios: seq<string>, starts: seq<nat>, end: nat) {
    && |starts| == |radios| + 1 && Climbs(e, t + 2, starts)
    && var status := starts[|radios|] + 2;
       end == if e.fails(status) || Dark(e, status, radios) == {} then status + 1
              else status + 1 + |Dark(e, status, radios)| + 1
  }

  /** The router is alive after those commands: network, firewall, `dnsmasq` and every radio came up, and the last
      status, if it could be read, reports none of the radios down. */
  ghost predicate Alive(e: Env, t: nat, radios: seq<string>, starts: seq<nat>, end: nat)
    requires Reloads(e, t, radios, starts, end)
  {
    && !e.fails(t) && !e.fails(t + 1) && !e.fails(starts[|radios|])
    && (forall i :: 0 < i <= |radios| ==> Succeeded(e, starts[i]))
    && (e.fails(end - 1) || forall r :: r in radios ==> r !in e.down(end - 1))
  }

  /** A reload from tick `t` ends before tick `end` with the router alive. */
  ghost predicate ComesUpBy(e: Env, t: nat, radios: seq<string>, end: nat) {
    exists starts :: Reloads(e, t, radios, starts, end) && Alive(e, t, radios, starts, end)
  }

  ghost predicate ComesUp(e: Env, t: nat, radios: seq<string>) {
    exists end :: ComesUpBy(e, t, radios, end)
  }

  lemma {:induction false} ClimbsExist(e: Env, w: World, radios: seq<string>) returns (starts: seq<nat>)
    ensures |starts| == |radios| + 1 && Climbs(e, w.tick, starts)
    ensures ReloadRadios(e, w, radios).0.tick == starts[|radios|]
    ensures ReloadRadios(e, w, radios).1 <==> forall i :: 0 < i <= |radios| ==> Succeeded(e, starts[i])
    decreases radios
  {
    if radios == [] {
      starts := [w.tick];
    } else {
      var (w1, ok) := ReloadRadio(e, w);
      assert Climb(e, w.tick, w1.tick) && (ok <==> !e.fails(w1.tick - 1));
      var rest := ClimbsExist(e, w1, radios[1..]);
      starts := [w.tick] + rest;
      assert starts[1..] == rest;
      assert forall i :: 0 < i <= |radios| ==> starts[i] == rest[i - 1];
      assert starts[1] == w1.tick;
      assert forall i :: 0 < i <= |radios[1..]| ==> rest[i] == starts[i + 1];
      AllFrom(e, starts, |radios|);
    }
  }

  lemma AllFrom(e: Env, starts: seq<nat>, n: nat)
    requires 0 < n < |starts|
    ensures (forall i :: 0 < i <= n ==> Succeeded(e, starts[i]))
            <==> Succeeded(e, starts[1]) && forall i :: 0 < i <= n - 1 ==> Succeeded(e, starts[1..][i])
  {
    if Succeeded(e, starts[1]) && forall i :: 0 < i <= n - 1 ==> Succeeded(e, starts[1..][i]) {
      forall i | 0 < i <= n ensures Succeeded(e, starts[i]) {
        assert i > 1 ==> starts[i] == starts[1..][i - 1];
      }
    }
  }

  lemma ClimbOnce(e: Env, from: nat, a: nat, b: nat)
    requires Climb(e, from, a) && Climb(e, from, b)
    ensures a == b
  {
  }

  /** The failures leave no choice in how many commands each radio takes. */
  lemma {:induction false} ClimbsOnce(e: Env, t: nat, a: seq<nat>, b: seq<nat>)
    requires Climbs(e, t, a) && Climbs(e, t, b) && |a| == |b|
    ensures a == b
    decreases a
  {
    var n := |a| - 1;
    if n > 0 {
      ClimbsOnce(e, t, a[..n], b[..n]);
      assert a[n - 1] == a[..n][n - 1] && b[n - 1] == b[..n][n - 1];
      ClimbOnce(e, a[n - 1], a[n], b[n]);
      assert a == a[..n] + [a[n]] && b == b[..n] + [b[n]];
    }
  }

  lemma {:induction false} DownSnoc(e: Env, tick: nat, radios: seq<string>, r: string)
    ensures DownRadios(e, tick, radios + [r])
         == DownRadios(e, tick, radios) + (if r in e.down(tick) then [r] else [])
    decreases radios
  {
    if radios == [] {
      assert [] + [r] == [r] && [r][1..] == [];
    } else {
      assert (radios + [r])[1..] == radios[1..] + [r];
      DownSnoc(e, tick, radios[1..], r);
    }
  }

  lemma {:induction false} DownAreDark(e: Env, tick: nat, radios: seq<string>)
    ensures |DownRadios(e, tick, radios)| == |Dark(e, tick, radios)|
    ensures DownRadios(e, tick, radios) == [] <==> forall r :: r in radios ==> r !in e.down(tick)
    ensures Dark(e, tick, radios) == {} <==> DownRadios(e, tick, radios) == []
    decreases |radios|
  {
    hide DownRadios;
    if radios == [] {
      DownNothing(e, tick);
    } else {
      var n := |radios| - 1;
      assert radios == radios[..n] + [radios[n]];
      DownAreDark(e, tick, radios[..n]);
      DownSnoc(e, tick, radios[..n], radios[n]);
      assert Dark(e, tick, radios) == Dark(e, tick, radios[..n]) + (if radios[n] in e.down(tick) then {n} else {});
    }
  }

  lemma DownNothing(e: Env, tick: nat)
    ensures DownRadios(e, tick, []) == []
  {
  }

  /** What a reload does with the clock and what its verdict is. */
  lemma ReloadVerdict(e: Env, w: World, radios: seq<string>, starts: seq<nat>, end: nat)
    requires Reloads(e, w.tick, radios, starts, end)
    ensures Reload(e, w, radios).0.tick == end
    ensures Reload(e, w, radios).1 <==> Alive(e, w.tick, radios, starts, end)
  {
    hide ReloadRadios, DownRadios, Dark, Climb;
    var w1 := Pass(Pass(w));
    var found := ClimbsExist(e, w1, radios);
    ClimbsOnce(e, w.tick + 2, starts, found);
    var status := starts[|radios|] + 2;
    DownAreDark(e, status, radios);
    DownAreDark(e, end - 1, radios);
  }

  lemma ReloadsExist(e: Env, t: nat, radios: seq<string>) returns (starts: seq<nat>, end: nat)
    ensures Reloads(e, t, radios, starts, end)
  {
    starts := ClimbsExist(e, World(map[], map[], t + 2), radios);
    var status := starts[|radios|] + 2;
    end := if e.fails(status) || Dark(e, status, radios) == {} then status + 1
           else status + 1 + |Dark(e, status, radios)| + 1;
  }

  /** A reload succeeds exactly when the router comes up. */
  lemma ReloadIff(e: Env, w: World, radios: seq<string>)
    ensures Reload(e, w, radios).1 <==> ComesUp(e, w.tick, radios)
    ensures Reload(e, w, radios).1 ==> ComesUpBy(e, w.tick, radios, Reload(e, w, radios).0.tick)
  {
    hide Reload, Reloads, Alive;
    var starts, end := ReloadsExist(e, w.tick, radios);
    ReloadVerdict(e, w, radios, starts, end);
    if ComesUp(e, w.tick, radios) {
      var last :| ComesUpBy(e, w.tick, radios, last);
      var other :| Reloads(e, w.tick, radios, other, last) && Alive(e, w.tick, radios, other, last);
      ReloadVerdict(e, w, radios, other, last);
    }
    if Reload(e, w, radios).1 {
      assert ComesUpBy(e, w.tick, radios, end);
    }
  }

  lemma {:induction false} ClimbsRise(e: Env, t: nat, starts: seq<nat>, i: nat)
    requires Climbs(e, t, starts) && i < |starts|
    ensures t + i <= starts[i] <= starts[|starts| - 1]
    decreases |starts|
  {
    if |starts| > 1 {
      var last := |starts| - 1;
      ClimbsRise(e, t, starts[..last], if i == last then last - 1 else i);
      assert starts[last - 1] == starts[..last][last - 1] && Climb(e, starts[last - 1], starts[last]);
    }
  }

  /** What coming up means for one radio: one of its commands succeeded, and the last status, if it could be read, does
      not report it down. */
  lemma UpMeans(e: Env, t: nat, radios: seq<string>, end: nat, i: nat)
    requires ComesUpBy(e, t, radios, end) && i < |radios|
    ensures end > t + 4 && !e.fails(t) && !e.fails(t + 1)
    ensures e.fails(end - 1) || radios[i] !in e.down(end - 1)
    ensures exists tick: nat :: t + 2 <= tick < end - 3 && !e.fails(tick)
  {
    hide Climb, Dark;
    var starts :| Reloads(e, t, radios, starts, end) && Alive(e, t, radios, starts, end);
    ClimbsRise(e, t + 2, starts, i);
    ClimbsRise(e, t + 2, starts, i + 1);
    assert radios[i] in radios && Succeeded(e, starts[i + 1]);
  }

  // --- commits, batches ----------------------------------------------------

  lemma QuietJoin(e: Env, t: nat, m: nat, n: nat)
    ensures Quiet(e, t, m + n) <==> Quiet(e, t, m) && Quiet(e, t + m, n)
  {
  }

  /** The commits succeed exactly when none fails but perhaps that of `sqm`, the last of the five. */
  lemma {:induction false} CommitIff(e: Env, w: World, i: nat)
    requires i < |OWNED_CONFIGS|
    ensures CommitFrom(e, w, i).1 <==> Quiet(e, w.tick, |OWNED_CONFIGS| - 1 - i)
    ensures CommitFrom(e, w, i).1 ==> CommitFrom(e, w, i).0.tick == w.tick + |OWNED_CONFIGS| - i
    decreases |OWNED_CONFIGS| - i
  {
    hide PutConfig, RevertFrom;
    OnlySqmOptional(i);
    if i < |OWNED_CONFIGS| - 1 {
      CommitIff(e, Commit(e, w, OWNED_CONFIGS[i]).0, i + 1);
      QuietJoin(e, w.tick, 1, |OWNED_CONFIGS| - 2 - i);
    } else {
      assert |OWNED_CONFIGS| - 1 - i == 0;
    }
  }

  lemma CommitAndReloadIff(e: Env, w: World, radios: seq<string>)
    ensures CommitAndReload(e, w, radios).1
            <==> Quiet(e, w.tick, 4) && ComesUp(e, w.tick + 5, radios)
    ensures CommitAndReload(e, w, radios).1 ==>
              ComesUpBy(e, w.tick + 5, radios, CommitAndReload(e, w, radios).0.tick)
  {
    hide CommitFrom, Reload, ComesUp, ComesUpBy, Quiet;
    CommitIff(e, w, 0);
    ReloadIff(e, CommitFrom(e, w, 0).0, radios);
  }

  /** Deletes may fail, and the sections of a push are accepted by any router: only failures can stop the batch. */
  lemma {:induction false} ApplyIff(e: Env, w: World, dels: seq<Cmd>, ps: seq<Piece>)
    requires forall c :: c in dels ==> c.Delete?
    ensures ApplyCmds(e, w, dels + Cmds(ps)).1 <==> Quiet(e, w.tick + |dels|, |Cmds(ps)|)
    decreases dels
  {
    hide Exec, Quiet, Accepts, Cmds;
    var sets := Cmds(ps);
    if dels == [] {
      assert dels + sets == sets;
      ExecPieces(w.staged, ps);
      if Quiet(e, w.tick, |sets|) {
        ApplyQuiet(e, w, sets);
      }
      if ApplyCmds(e, w, sets).1 {
        CmdsNoDelete(ps);
        AppliedQuiet(e, w, dels, sets);
      }
    } else {
      assert (dels + sets)[0] == dels[0] && (dels + sets)[1..] == dels[1..] + sets && dels[0] in dels;
      ApplyIff(e, Run(e, w, dels[0]).0, dels[1..], ps);
    }
  }

  lemma {:induction false} RenderedDeletes(secs: seq<Section>)
    ensures forall c :: c in RenderDeletes(secs) ==> c.Delete?
  {
    if secs != [] {
      RenderedDeletes(secs[1..]);
    }
  }

  /** A batch succeeds exactly when its sections are set and committed without a failure, the commit of `sqm` excepted,
      and the router then comes up; whether its deletes fail does not matter. */
  lemma BatchIff(e: Env, w: World, existing: seq<Section>, ps: seq<Piece>, radios: seq<string>)
    ensures var n := |existing| + |Cmds(ps)|;
            var (w1, ok) := ApplyBatch(e, w, RenderDeletes(existing) + Cmds(ps), radios);
            && (ok <==> Quiet(e, w.tick + |existing|, |Cmds(ps)| + 4) && ComesUp(e, w.tick + n + 5, radios))
            && (ok ==> ComesUpBy(e, w.tick + n + 5, radios, w1.tick))
  {
    hide ApplyCmds, CommitAndReload, Cmds, RenderDeletes, ComesUp, ComesUpBy;
    DeletesCount(existing);
    RenderedDeletes(existing);
    ApplyIff(e, w, RenderDeletes(existing), ps);
    var (w1, ok) := ApplyCmds(e, w, RenderDeletes(existing) + Cmds(ps));
    if ok {
      ApplyTicks(e, w, RenderDeletes(existing) + Cmds(ps));
      CommitAndReloadIff(e, w1, radios);
      QuietJoin(e, w.tick + |existing|, |Cmds(ps)|, 4);
    }
  }

  lemma {:induction false} BestEffortTicks(e: Env, w: World, cmds: seq<Cmd>)
    ensures BestEffort(e, w, cmds).tick == w.tick + |cmds|
    decreases cmds
  {
    hide Exec;
    if cmds != [] {
      BestEffortTicks(e, Run(e, w, cmds[0]).0, cmds[1..]);
    }
  }

  // --- a push, its rollback and the reports of both ------------------------

  /** No SSID sits on one of the radios; one that names none sits on `radio0`. */
  predicate OffRadios(st: State, radios: seq<string>) {
    forall s :: s in st.ssids ==>
      if s.radios == [] then "radio0" !in radios else forall r :: r in s.radios ==> r !in radios
  }

  lemma OffRadiosIff(st: State, radios: seq<string>)
    ensures RadiosAllowed(st, radios) <==> OffRadios(st, radios)
  {
    forall s | s in st.ssids
      ensures (forall r :: r in EffectiveRadios(s) ==> r !in radios)
         <==> if s.radios == [] then "radio0" !in radios else forall r :: r in s.radios ==> r !in radios
    {
      assert s.radios == [] ==> "radio0" in EffectiveRadios(s);
    }
  }

  /** A push is accepted exactly when it is valid, sits on no protected radio, nothing is pending, its `show`s, its
      sections and its commits succeed, those of `sqm` excepted, and the router then comes up on every radio the push
      wants or takes an SSID away from. */
  lemma AcceptedIff(e: Env, cfg: Config, s: Engine, st: State, now: int, snap: Snap)
    requires ShowsAll(e) && Clean(s.world.staged)
    requires TakeSnapshot(e, s.world).1.Some? ==> TakeSnapshot(e, s.world).1.value == snap
    ensures var (r, ok) := StepSet(e, cfg, s, st, now);
            var sets := |Cmds(StatePieces(st, cfg.port))|;
            var first := s.world.tick + 5 + |snap.existing|;
            && (ok <==> && Valid(st) && OffRadios(st, cfg.protected) && s.pending == None
                        && Quiet(e, s.world.tick, 4) && Quiet(e, first, sets + 4)
                        && ComesUp(e, first + sets + 5, ReloadSet(st, snap)))
            && (ok ==> && ComesUpBy(e, first + sets + 5, ReloadSet(st, snap), r.world.tick)
                       && r.pending.Some? && r.pending.value.radios == ReloadSet(st, snap))
  {
    hide ShowsAll, Clean, Valid, RadiosAllowed, TakeSnapshot, ApplyBatch, RollbackTo, ReloadSet, StatePieces, Cmds,
         SectionDecls, RenderDeletes, MarkerText, GatedBridges, Results, Window, ComesUp, ComesUpBy, Quiet, Captures,
         Shown, OffRadios;
    OffRadiosIff(st, cfg.protected);
    SnapshotExact(e, s.world);
    if TakeSnapshot(e, s.world).1.Some? {
      BatchIff(e, TakeSnapshot(e, s.world).0, snap.existing, StatePieces(st, cfg.port), ReloadSet(st, snap));
    }
  }

  /** One row for each SSID of the push, in order: its slug and its bridge. */
  predicate RowsOf(rows: seq<SsidResult>, st: State) {
    && |rows| == |st.ssids|
    && forall i :: 0 <= i < |rows| ==> rows[i].slug == st.ssids[i].slug && rows[i].iface == st.ssids[i].bridge
  }

  lemma {:induction false} ResultRows(ssids: seq<Ssid>)
    ensures |Results(ssids)| == |ssids|
    ensures forall i :: 0 <= i < |ssids| ==>
              Results(ssids)[i].slug == ssids[i].slug && Results(ssids)[i].iface == ssids[i].bridge
  {
    if ssids != [] {
      ResultRows(ssids[..|ssids| - 1]);
    }
  }

  /** What a push reports. Accepted, it appends one row of status, pending, and waits 90 seconds or as long as it says.
      Refused, it leaves what is pending as it was and reports at most one status: that it failed. */
  lemma PushReport(e: Env, cfg: Config, s: Engine, st: State, now: int)
    ensures var (r, ok) := StepSet(e, cfg, s, st, now);
            && (ok ==> && |r.log| == |s.log| + 1 && s.log <= r.log
                       && r.log[|s.log|].version == st.version && r.log[|s.log|].kind == AppliedPending
                       && RowsOf(r.log[|s.log|].results, st)
                       && r.pending.Some? && r.pending.value.version == st.version && r.pending.value.desired == st
                       && r.pending.value.deadline == now + (if st.timeoutSecs == 0 then 90 else st.timeoutSecs)
                       && RowsOf(r.pending.value.results, st))
            && (!ok ==> && r.pending == s.pending && r.lastCommitted == s.lastCommitted
                        && r.committedGated == s.committedGated
                        && (r.log == s.log
                            || (&& |r.log| == |s.log| + 1 && s.log <= r.log
                                && r.log[|s.log|].version == st.version && r.log[|s.log|].kind == Failed
                                && RowsOf(r.log[|s.log|].results, st) && r.marker == None)))
  {
    hide Valid, RadiosAllowed, TakeSnapshot, ApplyBatch, RollbackTo, ReloadSet, StatePieces, Cmds, SectionDecls,
         RenderDeletes, MarkerText, GatedBridges, Results;
    ResultRows(st.ssids);
  }

  /** A confirm is accepted exactly when its version is pending; it changes no layer and reports the rows of the
      push. */
  lemma ConfirmReport(s: Engine, version: string)
    ensures var (r, ok) := StepConfirm(s, version);
            && (ok <==> s.pending.Some? && s.pending.value.version == version)
            && (!ok ==> r == s)
            && (ok ==> && r.world == s.world && r.pending == None && r.marker == None
                       && r.lastCommitted == Some(s.pending.value.desired)
                       && r.log == s.log + [Status(version, Committed, s.pending.value.results)])
  {
  }

  lemma RollbackIff(e: Env, w: World, snap: Snap, current: seq<Section>, radios: seq<string>)
    ensures var t := w.tick + |RollbackCmds(snap, current)|;
            var (w1, ok) := RollbackTo(e, w, snap, current, radios);
            && (ok <==> Quiet(e, t, 4) && ComesUp(e, t + 5, radios))
            && (ok ==> ComesUpBy(e, t + 5, radios, w1.tick))
  {
    hide RollbackCmds, CommitAndReload, BestEffort, ComesUp, ComesUpBy, Quiet;
    BestEffortTicks(e, w, RollbackCmds(snap, current));
    CommitAndReloadIff(e, BestEffort(e, w, RollbackCmds(snap, current)), radios);
  }

  /** What the watchdog reports once it fires: rolled back when the commits of the rollback, that of `sqm` excepted, do
      not fail and the router comes up again, failed otherwise, whatever became of the commands before. */
  lemma WatchdogReport(e: Env, s: Engine, fire: int)
    requires s.pending.Some? && s.pending.value.deadline <= fire
    ensures var p, r := s.pending.value, StepTick(e, s, fire);
            var t := s.world.tick + |RollbackCmds(p.snap, p.current)|;
            && r.pending == None && r.marker == None && |r.log| == |s.log| + 1 && s.log <= r.log
            && r.log[|s.log|].version == p.version && r.log[|s.log|].results == p.results
            && r.log[|s.log|].kind == if Quiet(e, t, 4) && ComesUp(e, t + 5, p.radios) then RolledBack else Failed
  {
    hide RollbackTo, RollbackCmds, ComesUp, Quiet;
    var p := s.pending.value;
    RollbackIff(e, s.world, p.snap, p.current, p.radios);
  }

  /** What a restart does. Nothing pending: it forgets the committed state and no more. A push within its window:
      pending as before, with its rows and its state forgotten. Past the deadline: what the watchdog would do, without
      rows. */
  lemma RestartReport(e: Env, s: Engine, now: int, base: Store)
    requires Inv(s, base)
    ensures var r := StepRestart(e, s, now);
            && r.lastCommitted == None && r.committedGated == s.committedGated
            && (s.pending == None ==> r == s.(lastCommitted := None))
            && (s.pending.Some? ==>
                  var p := s.pending.value;
                  var t := s.world.tick + |RollbackCmds(p.snap, p.current)|;
                  if now < p.deadline then
                    r == s.(pending := Some(p.(results := [], desired := State("", [], 0, []))), lastCommitted := None)
                  else
                    && r.pending == None && r.marker == None
                    && r.log == s.log + [Status(p.version, r.log[|r.log| - 1].kind, [])]
                    && r.log[|r.log| - 1].kind
                       == if Quiet(e, t, 4) && ComesUp(e, t + 5, p.radios) then RolledBack else Failed)
  {
    hide WorldOk, PhaseOf, MarkerText, ReadMarker, MarkerOk, RollbackTo, CmdsOk, RollbackCmds, ComesUp, Quiet;
    if s.pending.Some? {
      var p := s.pending.value;
      MarkerRoundTrip(MarkerOf(p));
      RollbackIff(e, s.world, p.snap, p.current, p.radios);
    }
  }

  // --- the confirm window --------------------------------------------------

  /** An event that must not end the confirm window of a push. */
  predicate Untimely(ev: Event, version: string, deadline: int) {
    match ev
    case SetWireless(_, _) => true
    case Confirm(v) => v != version
    case Tick(now) => now < deadline
    case Crash(now) => now < deadline
  }

  lemma UntimelyStep(e: Env, cfg: Config, s: Engine, ev: Event, base: Store)
    requires Inv(s, base) && s.pending.Some?
    ensures |Step(e, cfg, s, ev).log| == |s.log| <==> Untimely(ev, s.pending.value.version, s.pending.value.deadline)
  {
    hide WorldOk, PhaseOf, MarkerText, ReadMarker, MarkerOk, RollbackTo, CmdsOk, RollbackCmds, StepSet;
    match ev {
      case SetWireless(st, now) => PendingRefuses(e, cfg, s, st, now);
      case Confirm(v) =>
      case Tick(now) =>
      case Crash(now) => MarkerRoundTrip(MarkerOf(s.pending.value));
    }
  }

  /** The window stays open exactly as long as nobody confirms the push and no clock, of the watchdog or of a restart,
      shows the deadline: until then nothing is reported and everything stays as it was. */
  lemma {:induction false} WindowHolds(e: Env, cfg: Config, s: Engine, evs: seq<Event>, base: Store)
    requires Inv(s, base) && ShowsAll(e) && EventsOk(evs) && s.pending.Some?
    ensures |RunAll(e, cfg, s, evs).log| == |s.log|
            <==> forall ev :: ev in evs ==> Untimely(ev, s.pending.value.version, s.pending.value.deadline)
    ensures |RunAll(e, cfg, s, evs).log| == |s.log| ==> Alike(s, RunAll(e, cfg, s, evs))
  {
    hide Inv, EventOk, ShowsAll, Step, Untimely;
    if evs != [] {
      var n := |evs| - 1;
      var x := RunAll(e, cfg, s, evs[..n]);
      assert evs == evs[..n] + [evs[n]];
      LogGrowsRun(e, cfg, s, evs[..n]);
      LogGrows(e, cfg, x, evs[n]);
      WindowHolds(e, cfg, s, evs[..n], base);
      if |x.log| == |s.log| {
        QuietRun(e, cfg, s, evs[..n], base);
        RunInv(e, cfg, s, evs[..n], base);
        UntimelyStep(e, cfg, x, evs[n], base);
      }
    }
    if |RunAll(e, cfg, s, evs).log| == |s.log| {
      QuietRun(e, cfg, s, evs, base);
    }
  }
}
