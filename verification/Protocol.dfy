/** The commit-confirm protocol as steps on a state: set, confirm, watchdog, crash and restart. */
module Protocol {
  import opened Text
  import opened Uci
  import opened Snapshot
  import opened Marker
  import opened Rollback
  import opened Wireless
  import opened Validate

  datatype Kind = AppliedPending | Committed | RolledBack | Failed

  datatype SsidResult = SsidResult(slug: string, iface: string)

  datatype Status = Status(version: string, kind: Kind, results: seq<SsidResult>)

  datatype Pending = Pending(version: string, radios: seq<string>, current: seq<Section>, gated: seq<string>,
                             results: seq<SsidResult>, deadline: int, snap: Snap, desired: State)

  /** The router, the two tmpfs files, the actor's own memory, and the statuses it has sent upward. */
  datatype Engine = Engine(world: World, marker: Option<string>, committedGated: Option<string>,
                           pending: Option<Pending>, lastCommitted: Option<State>, log: seq<Status>)

  /** Settings local to the engine. */
  datatype Config = Config(port: nat, protected: seq<string>)

  const NO_STATE := State("", [], 0, [])

  function Results(ssids: seq<Ssid>): seq<SsidResult> {
    if ssids == [] then []
    else
      var last := ssids[|ssids| - 1];
      Results(ssids[..|ssids| - 1]) + [SsidResult(last.slug, last.bridge)]
  }

  function GatedBridges(ssids: seq<Ssid>): seq<string> {
    if ssids == [] then []
    else GatedBridges(ssids[..|ssids| - 1]) + (if ssids[|ssids| - 1].gated then [ssids[|ssids| - 1].bridge] else [])
  }

  /** No SSID sits on a protected radio. */
  predicate RadiosAllowed(st: State, protected: seq<string>) {
    forall s :: s in st.ssids ==> forall r :: r in EffectiveRadios(s) ==> r !in protected
  }

  // --- the reload set ------------------------------------------------------

  function AddNew(acc: seq<string>, rs: seq<string>): seq<string>
    decreases rs
  {
    if rs == [] then acc else AddNew(if rs[0] in acc then acc else acc + [rs[0]], rs[1..])
  }

  function AddDesired(acc: seq<string>, ssids: seq<Ssid>): seq<string>
    decreases ssids
  {
    if ssids == [] then acc else AddDesired(AddNew(acc, EffectiveRadios(ssids[0])), ssids[1..])
  }

  /** The radios of the snapshot: the values of the `device` options of its owned wireless sections. */
  function PriorRadios(m: Sorted<string>): seq<string> {
    if m == [] then []
    else (if IsRadioKey(m[0].0) then [m[0].1] else []) + PriorRadios(m[1..])
  }

  /** Desired radios, then prior ones, each once; the default radio when there is none. */
  function ReloadSet(st: State, snap: Snap): seq<string> {
    var rs := AddNew(AddDesired([], st.ssids), PriorRadios(snap.prior));
    if rs == [] then [DEFAULT_RADIO] else rs
  }

  function Window(secs: nat): nat {
    if secs == 0 then 90 else secs
  }

  function MarkerOf(p: Pending): Marker {
    Marker(p.version, p.radios, p.current, p.gated, p.deadline, p.snap)
  }

  // --- the steps -----------------------------------------------------------

  function Emit(s: Engine, version: string, kind: Kind, results: seq<SsidResult>): Engine {
    s.(log := s.log + [Status(version, kind, results)])
  }

  /** Roll a push back, drop its marker and report how it went. */
  function Resolve(e: Env, s: Engine, version: string, results: seq<SsidResult>, snap: Snap, current: seq<Section>,
                   radios: seq<string>): Engine {
    var (w, ok) := RollbackTo(e, s.world, snap, current, radios);
    Emit(s.(world := w, marker := None), version, if ok then RolledBack else Failed, results)
  }

  /** Apply a validated push over a snapshot: pending on success, rolled back and failed otherwise. */
  function ApplyPush(e: Env, cfg: Config, s: Engine, st: State, now: int, snap: Snap): (Engine, bool) {
    var radios := ReloadSet(st, snap);
    var sets := Cmds(StatePieces(st, cfg.port));
    var current := SectionDecls(sets);
    var (w, ok) := ApplyBatch(e, s.world, RenderDeletes(snap.existing) + sets, radios);
    if !ok then
      var (w1, _) := RollbackTo(e, w, snap, current, radios);
      (Emit(s.(world := w1, marker := None), st.version, Failed, Results(st.ssids)), false)
    else
      var p := Pending(st.version, radios, current, GatedBridges(st.ssids), Results(st.ssids),
                       now + Window(st.timeoutSecs), snap, st);
      (Emit(s.(world := w, marker := Some(MarkerText(MarkerOf(p))), pending := Some(p)), st.version, AppliedPending,
            p.results), true)
  }

  ghost function StepSet(e: Env, cfg: Config, s: Engine, st: State, now: int): (Engine, bool) {
    if !Valid(st) || !RadiosAllowed(st, cfg.protected) || s.pending.Some? then (s, false)
    else
      match TakeSnapshot(e, s.world)
      case (w, None) => (s.(world := w), false)
      case (w, Some(snap)) => ApplyPush(e, cfg, s.(world := w), st, now, snap)
  }

  /** A confirm of the pending version commits it, at any time while it is pending. */
  function StepConfirm(s: Engine, version: string): (Engine, bool) {
    if s.pending.Some? && s.pending.value.version == version then
      var p := s.pending.value;
      (Emit(s.(pending := None, marker := None, committedGated := Some(Join(p.gated, ',')),
               lastCommitted := Some(p.desired)), version, Committed, p.results), true)
    else (s, false)
  }

  function StepWatchdog(e: Env, s: Engine): Engine {
    match s.pending
    case None => s
    case Some(p) => Resolve(e, s.(pending := None), p.version, p.results, p.snap, p.current, p.radios)
  }

  /** The armed watchdog looks at the clock. */
  function StepTick(e: Env, s: Engine, now: int): Engine {
    if s.pending.Some? && s.pending.value.deadline <= now then StepWatchdog(e, s) else s
  }

  /** The process dies and starts again: its memory is gone, the router and the tmpfs files are not; a leftover
      marker past its deadline is rolled back, one within its window is resumed. */
  function StepRestart(e: Env, s: Engine, now: int): Engine {
    var s1 := s.(pending := None, lastCommitted := None);
    if s.marker.None? then s1
    else
      match ReadMarker(s.marker.value)
      case None => s1
      case Some(m) =>
        if m.deadline <= now then Resolve(e, s1, m.version, [], m.snap, m.current, m.radios)
        else
          s1.(pending := Some(Pending(m.version, m.radios, m.current, m.gated, [], now + (m.deadline - now), m.snap,
                                      NO_STATE)))
  }

  datatype Event = SetWireless(st: State, now: int) | Confirm(version: string) | Tick(now: int) | Crash(now: int)

  ghost function Step(e: Env, cfg: Config, s: Engine, ev: Event): Engine {
    match ev
    case SetWireless(st, now) => StepSet(e, cfg, s, st, now).0
    case Confirm(v) => StepConfirm(s, v).0
    case Tick(now) => StepTick(e, s, now)
    case Crash(now) => StepRestart(e, s, now)
  }

  ghost function RunAll(e: Env, cfg: Config, s: Engine, evs: seq<Event>): Engine {
    if evs == [] then s else Step(e, cfg, RunAll(e, cfg, s, evs[..|evs| - 1]), evs[|evs| - 1])
  }
}
