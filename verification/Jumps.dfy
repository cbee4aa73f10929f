/** The iptables form of the gate: chains filled once, and interface-scoped jumps changed command by command while
    commands may fail. */
module Jumps {
  import opened Text
  import opened Gate

  // --- one chain and the jumps into it -------------------------------------

  datatype Test = SrcIn(name: SetName) | DstIn(name: SetName) | Established | TcpTo(port: nat)

  datatype Target = Return | DropPacket | RedirectTo(port: nat)

  datatype Rule = Rule(tests: seq<Test>, target: Target)

  /** Our chain, once created, and the interfaces of the hook's jumps into it, first to last. */
  datatype Place = Place(chain: Option<seq<Rule>>, jumps: seq<string>)

  datatype Slot = Slot(family: Family, hook: Hook)

  /** The four places the backend programs: `iptables` and `ip6tables`, `PREROUTING` and `FORWARD`. */
  datatype Kernel = Kernel(pre4: Place, fwd4: Place, pre6: Place, fwd6: Place)

  function At(k: Kernel, s: Slot): Place {
    match s
    case Slot(V4, Prerouting) => k.pre4
    case Slot(V4, Forward) => k.fwd4
    case Slot(V6, Prerouting) => k.pre6
    case Slot(V6, Forward) => k.fwd6
  }

  function Put(k: Kernel, s: Slot, pl: Place): (r: Kernel)
    ensures At(r, s) == pl && forall t :: t != s ==> At(r, t) == At(k, t)
  {
    match s
    case Slot(V4, Prerouting) => k.(pre4 := pl)
    case Slot(V4, Forward) => k.(fwd4 := pl)
    case Slot(V6, Prerouting) => k.(pre6 := pl)
    case Slot(V6, Forward) => k.(fwd6 := pl)
  }

  function GardenOf(f: Family): SetName {
    match f case V4 => Garden4 case V6 => Garden6
  }

  /** What `ensure_base` fills the chain of a slot with. */
  function RulesOf(s: Slot, port: nat): seq<Rule> {
    match s.hook
    case Prerouting =>
      [Rule([SrcIn(Auth)], Return), Rule([DstIn(GardenOf(s.family))], Return), Rule([TcpTo(80)], RedirectTo(port))]
    case Forward =>
      [Rule([Established], Return), Rule([SrcIn(Auth)], Return), Rule([DstIn(GardenOf(s.family))], Return),
       Rule([], DropPacket)]
  }

  // --- a packet ------------------------------------------------------------

  predicate Passes(s: Sets, p: Packet, t: Test) {
    match t
    case SrcIn(n) => p.mac in Members(s, n)
    case DstIn(n) => p.dst in Members(s, n)
    case Established => p.established
    case TcpTo(d) => p.tcp && p.dport == d
  }

  /** What the chain does with a packet; `None` when it returns to the hook. */
  function RunChain(s: Sets, p: Packet, rules: seq<Rule>): Option<Target> {
    if rules == [] then None
    else if forall t :: t in rules[0].tests ==> Passes(s, p, t) then
      if rules[0].target.Return? then None else Some(rules[0].target)
    else RunChain(s, p, rules[1..])
  }

  /** The hook's jumps in order: each that names the ingress runs the chain. */
  function RunHook(s: Sets, p: Packet, chain: seq<Rule>, jumps: seq<string>): Option<Target> {
    if jumps == [] then None
    else if jumps[0] == p.ingress && RunChain(s, p, chain).Some? then RunChain(s, p, chain)
    else RunHook(s, p, chain, jumps[1..])
  }

  function Decide(k: Kernel, s: Sets, p: Packet, hook: Hook): Option<Target> {
    var pl := At(k, Slot(p.family, hook));
    if pl.chain.None? then None else RunHook(s, p, pl.chain.value, pl.jumps)
  }

  lemma {:induction false} HookDecides(s: Sets, p: Packet, chain: seq<Rule>, jumps: seq<string>)
    ensures RunHook(s, p, chain, jumps) == if p.ingress in jumps then RunChain(s, p, chain) else None
  {
    hide RunChain;
    if jumps != [] {
      HookDecides(s, p, chain, jumps[1..]);
    }
  }

  lemma ChainSkips(s: Sets, p: Packet, t: Test, target: Target, rest: seq<Rule>)
    ensures RunChain(s, p, [Rule([t], target)] + rest)
         == if !Passes(s, p, t) then RunChain(s, p, rest) else if target.Return? then None else Some(target)
  {
    hide Passes;
    assert ([Rule([t], target)] + rest)[1..] == rest;
    assert forall u :: u in [t] <==> u == t;
  }

  lemma GardenDst(s: Sets, p: Packet)
    ensures Passes(s, p, DstIn(GardenOf(p.family))) <==> InGarden(s, p)
    ensures Passes(s, p, SrcIn(Auth)) <==> p.mac in s.auth
  {
  }

  lemma ChainDecides(s: Sets, p: Packet, port: nat)
    ensures RunChain(s, p, RulesOf(Slot(p.family, Prerouting), port))
         == if !Exempt(s, p) && p.tcp && p.dport == 80 then Some(RedirectTo(port)) else None
    ensures RunChain(s, p, RulesOf(Slot(p.family, Forward), port))
         == if !p.established && !Exempt(s, p) then Some(DropPacket) else None
  {
    hide RunChain;
    var auth, garden := [Rule([SrcIn(Auth)], Return)], [Rule([DstIn(GardenOf(p.family))], Return)];
    var red := [Rule([TcpTo(80)], RedirectTo(port))];
    var last := [Rule([], DropPacket)];
    GardenDst(s, p);
    assert RunChain(s, p, []) == None by { EmptyChain(s, p); }
    ChainSkips(s, p, TcpTo(80), RedirectTo(port), []);
    assert red + [] == red;
    ChainSkips(s, p, DstIn(GardenOf(p.family)), Return, red);
    ChainSkips(s, p, SrcIn(Auth), Return, garden + red);
    assert RulesOf(Slot(p.family, Prerouting), port) == auth + (garden + red);
    LastDrop(s, p);
    ChainSkips(s, p, DstIn(GardenOf(p.family)), Return, last);
    ChainSkips(s, p, SrcIn(Auth), Return, garden + last);
    ChainSkips(s, p, Established, Return, auth + (garden + last));
    assert RulesOf(Slot(p.family, Forward), port) == [Rule([Established], Return)] + (auth + (garden + last));
  }

  lemma EmptyChain(s: Sets, p: Packet)
    ensures RunChain(s, p, []) == None
  {
  }

  lemma LastDrop(s: Sets, p: Packet)
    ensures RunChain(s, p, [Rule([], DropPacket)]) == Some(DropPacket)
  {
  }

  // --- backend equivalence -------------------------------------------------

  ghost predicate Filled(k: Kernel, port: nat) {
    forall s :: At(k, s).chain == Some(RulesOf(s, port))
  }

  predicate SameIfaces(a: seq<string>, b: seq<string>) {
    (forall x :: x in a ==> x in b) && forall x :: x in b ==> x in a
  }

  /** The jumps name the interfaces of `scope` and no others, at every hook of both families. */
  ghost predicate Scoped(k: Kernel, scope: seq<string>) {
    forall s :: SameIfaces(At(k, s).jumps, scope)
  }

  /** For every packet, every scope and every contents of the sets, the two backends take the same two decisions; the
      packet is dropped exactly when its ingress is gated and it is neither established, nor authorized, nor on its
      way into the garden. */
  lemma BackendsAgree(k: Kernel, scope: seq<string>, s: Sets, p: Packet)
    requires Filled(k, REDIRECT_PORT) && Scoped(k, scope)
    ensures RunNft(s, p, ForwardRules(scope)) == Drop <==> Decide(k, s, p, Forward) == Some(DropPacket)
    ensures RunNft(s, p, PreroutingRules(scope)) == Redirect(8080)
       <==> Decide(k, s, p, Prerouting) == Some(RedirectTo(8080))
    ensures Decide(k, s, p, Forward) == Some(DropPacket) <==> Drops(scope, s, p)
    ensures Decide(k, s, p, Prerouting) == Some(RedirectTo(8080)) <==> Redirects(scope, s, p)
  {
    hide Exempt, RunChain, RunHook, RulesOf, PreroutingRules, ForwardRules, FirstVerdict;
    PreroutingVerdict(s, p, scope);
    ForwardVerdict(s, p, scope);
    Decides(k, scope, s, p, REDIRECT_PORT);
  }

  lemma Decides(k: Kernel, scope: seq<string>, s: Sets, p: Packet, port: nat)
    requires Filled(k, port) && Scoped(k, scope)
    ensures Decide(k, s, p, Forward) == if Drops(scope, s, p) then Some(DropPacket) else None
    ensures Decide(k, s, p, Prerouting) == if Redirects(scope, s, p) then Some(RedirectTo(port)) else None
  {
    hide Exempt, RunChain, RunHook, RulesOf, At;
    var a, b := Slot(p.family, Prerouting), Slot(p.family, Forward);
    assert At(k, a).chain == Some(RulesOf(a, port)) && At(k, b).chain == Some(RulesOf(b, port));
    assert SameIfaces(At(k, a).jumps, scope) && SameIfaces(At(k, b).jumps, scope);
    HookDecides(s, p, RulesOf(a, port), At(k, a).jumps);
    HookDecides(s, p, RulesOf(b, port), At(k, b).jumps);
    ChainDecides(s, p, port);
  }

  // --- commands under faults -----------------------------------------------

  datatype Cmd =
    | NewChain(slot: Slot)
    | FlushChain(slot: Slot)
    | Append(slot: Slot, rule: Rule)
    | DropJump(slot: Slot, iface: string)
    | EnsureJump(slot: Slot, iface: string)

  /** Which command fails to run, by its number: a `-D`, a `-C` probe, or any other. */
  datatype Faults = Faults(del: nat -> bool, probe: nat -> bool, put: nat -> bool)

  datatype Host = Host(kernel: Kernel, tick: nat)

  function Without(jumps: seq<string>, iface: string): seq<string> {
    if jumps == [] then [] else if jumps[0] == iface then jumps[1..] else [jumps[0]] + Without(jumps[1..], iface)
  }

  function WithJumps(k: Kernel, s: Slot, jumps: seq<string>): Kernel {
    Put(k, s, At(k, s).(jumps := jumps))
  }

  /** One command and whether the sequence goes on. Creating a chain and deleting a jump are best effort; a jump is
      probed for and inserted at the head when the probe does not find it. */
  function StepCmd(f: Faults, h: Host, c: Cmd): (Host, bool) {
    var k, pl := h.kernel, At(h.kernel, c.slot);
    match c
    case NewChain(s) =>
      (Host(if !f.put(h.tick) && pl.chain.None? then Put(k, s, pl.(chain := Some([]))) else k, h.tick + 1), true)
    case FlushChain(s) =>
      if f.put(h.tick) || pl.chain.None? then (Host(k, h.tick + 1), false)
      else (Host(Put(k, s, pl.(chain := Some([]))), h.tick + 1), true)
    case Append(s, r) =>
      if f.put(h.tick) || pl.chain.None? then (Host(k, h.tick + 1), false)
      else (Host(Put(k, s, pl.(chain := Some(pl.chain.value + [r]))), h.tick + 1), true)
    case DropJump(s, i) =>
      (Host(if f.del(h.tick) then k else WithJumps(k, s, Without(pl.jumps, i)), h.tick + 1), true)
    case EnsureJump(s, i) =>
      if !f.probe(h.tick) && i in pl.jumps then (Host(k, h.tick + 1), true)
      else if f.put(h.tick + 1) || pl.chain.None? then (Host(k, h.tick + 2), false)
      else (Host(WithJumps(k, s, [i] + pl.jumps), h.tick + 2), true)
  }

  function RunCmds(f: Faults, h: Host, cmds: seq<Cmd>): (Host, bool)
    decreases cmds
  {
    if cmds == [] then (h, true)
    else
      var (h1, ok) := StepCmd(f, h, cmds[0]);
      if ok then RunCmds(f, h1, cmds[1..]) else (h1, false)
  }

  const PRE4 := Slot(V4, Prerouting)
  const FWD4 := Slot(V4, Forward)
  const PRE6 := Slot(V6, Prerouting)
  const FWD6 := Slot(V6, Forward)

  function DropAll(i: string): seq<Cmd> {
    [DropJump(PRE4, i), DropJump(FWD4, i), DropJump(PRE6, i), DropJump(FWD6, i)]
  }

  function EnsureAll(i: string): seq<Cmd> {
    [EnsureJump(PRE4, i), EnsureJump(FWD4, i), EnsureJump(PRE6, i), EnsureJump(FWD6, i)]
  }

  /** Interfaces of `was` not in `scope`, then interfaces of `scope` not in `was`. */
  function Removals(was: seq<string>, scope: seq<string>): seq<Cmd> {
    if was == [] then [] else (if was[0] in scope then [] else DropAll(was[0])) + Removals(was[1..], scope)
  }

  function Additions(was: seq<string>, scope: seq<string>): seq<Cmd> {
    if scope == [] then [] else (if scope[0] in was then [] else EnsureAll(scope[0])) + Additions(was, scope[1..])
  }

  function RescopeCmds(was: seq<string>, scope: seq<string>): seq<Cmd> {
    Removals(was, scope) + Additions(was, scope)
  }

  datatype Backend = Backend(host: Host, gated: seq<string>)

  /** Re-scope: touch only jumps, and record the new scope after every change applied. */
  function SetGated(f: Faults, b: Backend, ifaces: seq<string>): (Backend, bool) {
    var scope := NonBlank(ifaces);
    var (h, ok) := RunCmds(f, b.host, RescopeCmds(b.gated, scope));
    (Backend(h, if ok then scope else b.gated), ok)
  }

  function JumpCmds(s: Slot, ifaces: seq<string>): seq<Cmd> {
    if ifaces == [] then [] else [EnsureJump(s, ifaces[0])] + JumpCmds(s, ifaces[1..])
  }

  function AppendCmds(s: Slot, rules: seq<Rule>): seq<Cmd> {
    if rules == [] then [] else [Append(s, rules[0])] + AppendCmds(s, rules[1..])
  }

  /** Create and flush the chain, fill it, and only then jump to it. */
  function ChainCmds(s: Slot, port: nat, ifaces: seq<string>): seq<Cmd> {
    [NewChain(s), FlushChain(s)] + AppendCmds(s, RulesOf(s, port)) + JumpCmds(s, ifaces)
  }

  function BaseCmds(port: nat, ifaces: seq<string>): seq<Cmd> {
    ChainCmds(PRE4, port, ifaces) + ChainCmds(FWD4, port, ifaces) + ChainCmds(PRE6, port, ifaces)
    + ChainCmds(FWD6, port, ifaces)
  }
}
