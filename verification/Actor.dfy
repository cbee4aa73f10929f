/** The single owner of a provision machine: it takes commands one at a time, keeps at most one push pending and
    lets its watchdog fire. Each handler is proved against the step of the protocol it carries out. */
module Actor {
  import opened Text
  import opened Uci
  import opened Snapshot
  import opened Marker
  import opened Rollback
  import opened Wireless
  import opened Validate
  import opened Protocol
  import opened Machine

  class ProvisionActor {
    const machine: ProvisionMachine
    const protected: seq<string>
    var pending: Option<Pending>
    var lastCommitted: Option<State>
    var log: seq<Status>

    constructor (machine: ProvisionMachine, protected: seq<string>)
      ensures this.machine == machine && this.protected == protected
      ensures pending == None && lastCommitted == None && log == []
    {
      this.machine, this.protected := machine, protected;
      pending, lastCommitted, log := None, None, [];
    }

    function Settings(): Config {
      Config(machine.port, protected)
    }

    /** The state of the protocol: the machine's router and files, and this actor's memory. */
    function State(): Engine
      reads this, machine
    {
      Engine(machine.Router(), machine.marker, machine.committedGated, pending, lastCommitted, log)
    }

    method EmitStatus(version: string, kind: Kind, results: seq<SsidResult>)
      modifies this`log
      ensures log == old(log) + [Status(version, kind, results)]
    {
      log := log + [Status(version, kind, results)];
    }

    /** Validate, snapshot, apply, and arm the watchdog; a failed apply is rolled back and reported. */
    method HandleSetWireless(st: Wireless.State, now: int) returns (ok: bool)
      modifies this, machine
      ensures (State(), ok) == StepSet(machine.env, Settings(), old(State()), st, now)
    {
      hide Valid, RadiosAllowed, TakeSnapshot, ApplyBatch, RollbackTo, ReloadSet, StatePieces, Cmds, SectionDecls,
           RenderDeletes, MarkerText, GatedBridges, Results, Window;
      ok := ValidateWireless(st);
      if !ok { return; }
      ok := CheckProtectedRadios(st, protected);
      if !ok { return; }
      if pending.Some? { return false; }
      var taken := machine.SnapshotWireless();
      if taken.None? { return false; }
      var snap := taken.value;
      var radios := CollectRadios(st, snap);
      var sets := RenderWireless(st, machine.port);
      var current := SectionDecls(sets);
      ok := machine.ApplyWireless(RenderDeletes(snap.existing) + sets, radios);
      var results := CollectResults(st.ssids);
      if !ok {
        var _ := machine.RollBackTo(snap, current, radios);
        machine.marker := None;
        EmitStatus(st.version, Failed, results);
        return false;
      }
      var gated := CollectGated(st.ssids);
      var deadline := now + Window(st.timeoutSecs);
      var text := WriteMarker(Marker(st.version, radios, current, gated, deadline, snap));
      machine.marker := Some(text);
      EmitStatus(st.version, AppliedPending, results);
      pending := Some(Pending(st.version, radios, current, gated, results, deadline, snap, st));
    }

    /** A confirm of the pending version commits it; any other puts the pending push back. */
    method HandleConfirmWireless(version: string) returns (ok: bool)
      modifies this, machine
      ensures (State(), ok) == StepConfirm(old(State()), version)
    {
      var taken := pending;
      pending := None;
      if taken.Some? && taken.value.version == version {
        var p := taken.value;
        machine.marker := None;
        machine.committedGated := Some(Join(p.gated, ','));
        lastCommitted := Some(p.desired);
        EmitStatus(version, Committed, p.results);
        ok := true;
      } else {
        pending := taken;
        ok := false;
      }
    }

    method RollBack(version: string, results: seq<SsidResult>, snap: Snap, current: seq<Section>, radios: seq<string>)
      modifies this`log, machine
      ensures State() == Resolve(machine.env, old(State()), version, results, snap, current, radios)
      ensures pending == old(pending) && lastCommitted == old(lastCommitted)
    {
      hide RollbackTo;
      var ok := machine.RollBackTo(snap, current, radios);
      machine.marker := None;
      EmitStatus(version, if ok then RolledBack else Failed, results);
    }

    method HandleWatchdogFire()
      modifies this, machine
      ensures State() == StepWatchdog(machine.env, old(State()))
    {
      hide Resolve;
      if pending.Some? {
        var p := pending.value;
        pending := None;
        RollBack(p.version, p.results, p.snap, p.current, p.radios);
      }
    }

    /** Honour a leftover marker: past its deadline, roll back now; within its window, resume the watchdog. */
    method ReconcileOnStart(now: int)
      requires pending == None && lastCommitted == None
      modifies this, machine
      ensures State() == StepRestart(machine.env, old(State()), now)
    {
      hide Resolve, ReadMarker;
      if machine.marker.None? { return; }
      var left := ReadMarkerText(machine.marker.value);
      match left {
        case None =>
        case Some(m) =>
          if m.deadline <= now {
            RollBack(m.version, [], m.snap, m.current, m.radios);
          } else {
            pending := Some(Pending(m.version, m.radios, m.current, m.gated, [], now + (m.deadline - now), m.snap,
                                    NO_STATE));
          }
      }
    }

    /** The actor's loop over the events it receives; a crash loses its memory and starts it again. */
    method Serve(events: seq<Event>)
      modifies this, machine
      ensures State() == RunAll(machine.env, Settings(), old(State()), events)
    {
      hide StepSet, StepConfirm, StepWatchdog, StepRestart;
      ghost var s0 := State();
      assert events[..0] == [];
      for i := 0 to |events|
        invariant State() == RunAll(machine.env, Settings(), s0, events[..i])
      {
        ghost var s := State();
        match events[i] {
          case SetWireless(st, now) =>
            var _ := HandleSetWireless(st, now);
          case Confirm(v) =>
            var _ := HandleConfirmWireless(v);
          case Tick(now) =>
            if pending.Some? && pending.value.deadline <= now {
              HandleWatchdogFire();
            }
          case Crash(now) =>
            pending, lastCommitted := None, None;
            RestartForgets(machine.env, s, State(), now);
            ReconcileOnStart(now);
        }
        assert State() == Step(machine.env, Settings(), s, events[i]);
        RunOneMore(machine.env, Settings(), s0, events, i);
      }
      assert events[..|events|] == events;
    }
  }

  lemma RestartForgets(e: Env, s: Engine, t: Engine, now: int)
    requires t == s.(pending := None, lastCommitted := None)
    ensures StepRestart(e, s, now) == StepRestart(e, t, now)
  {
  }

  lemma RunOneMore(e: Env, cfg: Config, s: Engine, evs: seq<Event>, i: nat)
    requires i < |evs|
    ensures RunAll(e, cfg, s, evs[..i + 1]) == Step(e, cfg, RunAll(e, cfg, s, evs[..i]), evs[i])
  {
    hide Step;
    assert evs[..i + 1][..i] == evs[..i];
  }

  // --- what a push collects ------------------------------------------------

  method CheckProtectedRadios(st: Wireless.State, protected: seq<string>) returns (ok: bool)
    ensures ok <==> RadiosAllowed(st, protected)
  {
    hide EffectiveRadios;
    for i := 0 to |st.ssids|
      invariant forall s :: s in st.ssids[..i] ==> forall r :: r in EffectiveRadios(s) ==> r !in protected
    {
      var radios := EffectiveRadios(st.ssids[i]);
      for j := 0 to |radios|
        invariant forall r :: r in radios[..j] ==> r !in protected
      {
        if radios[j] in protected {
          assert st.ssids[i] in st.ssids && radios[j] in EffectiveRadios(st.ssids[i]);
          return false;
        }
      }
      assert radios[..|radios|] == radios;
    }
    assert st.ssids[..|st.ssids|] == st.ssids;
    ok := true;
  }

  method AddAll(acc: seq<string>, rs: seq<string>) returns (r: seq<string>)
    ensures r == AddNew(acc, rs)
  {
    r := acc;
    for i := 0 to |rs|
      invariant AddNew(r, rs[i..]) == AddNew(acc, rs)
    {
      assert rs[i..][1..] == rs[i + 1..];
      if rs[i] !in r {
        r := r + [rs[i]];
      }
    }
  }

  /** Desired radios, then the radios of the snapshot, then the default when there is none. */
  method CollectRadios(st: Wireless.State, snap: Snap) returns (radios: seq<string>)
    ensures radios == ReloadSet(st, snap)
  {
    hide AddNew, EffectiveRadios;
    radios := [];
    for i := 0 to |st.ssids|
      invariant AddDesired(radios, st.ssids[i..]) == AddDesired([], st.ssids)
    {
      assert st.ssids[i..][1..] == st.ssids[i + 1..];
      radios := AddAll(radios, EffectiveRadios(st.ssids[i]));
    }
    radios := AddAll(radios, PriorRadios(snap.prior));
    if radios == [] {
      radios := [DEFAULT_RADIO];
    }
  }

  method CollectResults(ssids: seq<Ssid>) returns (rs: seq<SsidResult>)
    ensures rs == Results(ssids)
  {
    rs := [];
    for i := 0 to |ssids|
      invariant rs == Results(ssids[..i])
    {
      rs := rs + [SsidResult(ssids[i].slug, ssids[i].bridge)];
      assert ssids[..i + 1][..i] == ssids[..i];
    }
    assert ssids[..|ssids|] == ssids;
  }

  method CollectGated(ssids: seq<Ssid>) returns (gated: seq<string>)
    ensures gated == GatedBridges(ssids)
  {
    gated := [];
    for i := 0 to |ssids|
      invariant gated == GatedBridges(ssids[..i])
    {
      if ssids[i].gated {
        gated := gated + [ssids[i].bridge];
      }
      assert ssids[..i + 1][..i] == ssids[..i];
    }
    assert ssids[..|ssids|] == ssids;
  }
}
