/** The incremental re-scope: every intermediate state, its result, its retry, and what a failure leaves recorded. */
module Rescope {
  import opened Text
  import opened Gate
  import opened Jumps

  function Count(jumps: seq<string>, x: string): nat {
    if jumps == [] then 0 else (if jumps[0] == x then 1 else 0) + Count(jumps[1..], x)
  }

  lemma {:induction false} CountIn(jumps: seq<string>, x: string)
    ensures Count(jumps, x) > 0 <==> x in jumps
  {
    if jumps != [] {
      CountIn(jumps[1..], x);
    }
  }

  lemma {:induction false} CountWithout(jumps: seq<string>, i: string, x: string)
    ensures Count(Without(jumps, i), x) == Count(jumps, x) - (if x == i && x in jumps then 1 else 0)
  {
    if jumps != [] && jumps[0] != i {
      CountWithout(jumps[1..], i, x);
      assert ([jumps[0]] + Without(jumps[1..], i))[1..] == Without(jumps[1..], i);
    }
  }

  lemma CountInsert(jumps: seq<string>, i: string, x: string)
    ensures Count([i] + jumps, x) == Count(jumps, x) + (if x == i then 1 else 0)
  {
    assert ([i] + jumps)[1..] == jumps;
  }

  function JumpsAt(k: Kernel, s: Slot, x: string): nat {
    Count(At(k, s).jumps, x)
  }

  /** Exactly one jump per interface of the scope at every slot, and none for any other interface. */
  ghost predicate Exact(k: Kernel, scope: seq<string>) {
    forall s, x :: JumpsAt(k, s, x) == if x in scope then 1 else 0
  }

  /** Anywhere between two scopes: one jump for what stays, none for what is in neither, at most one otherwise. */
  predicate BetweenAt(n: nat, was: seq<string>, scope: seq<string>, x: string) {
    if x in was && x in scope then n == 1 else if x in was || x in scope then n <= 1 else n == 0
  }

  ghost predicate Between(k: Kernel, was: seq<string>, scope: seq<string>) {
    forall s, x :: BetweenAt(JumpsAt(k, s, x), was, scope, x)
  }

  ghost predicate SameChains(a: Kernel, b: Kernel) {
    forall s :: At(a, s).chain == At(b, s).chain
  }

  /** A `-D` of an existing jump succeeds and a `-C` finds an existing jump. */
  ghost predicate Honest(f: Faults) {
    forall t: nat :: !f.del(t) && !f.probe(t)
  }

  predicate RescopeCmd(c: Cmd, was: seq<string>, scope: seq<string>) {
    || (c.DropJump? && c.iface in was && c.iface !in scope)
    || (c.EnsureJump? && c.iface in scope && c.iface !in was)
  }

  // --- every intermediate state --------------------------------------------

  /** One command under any failures: a delete that fails removes nothing, and a probe that fails adds a second jump. */
  lemma StepAnyJumps(f: Faults, h: Host, c: Cmd, s: Slot, x: string)
    requires c.DropJump? || c.EnsureJump?
    ensures SameChains(StepCmd(f, h, c).0.kernel, h.kernel)
    ensures var n, n1 := JumpsAt(h.kernel, s, x), JumpsAt(StepCmd(f, h, c).0.kernel, s, x);
            && (s != c.slot || x != c.iface ==> n1 == n)
            && (s == c.slot && x == c.iface ==>
                  if c.DropJump? then n1 == (if n > 0 && !f.del(h.tick) then n - 1 else n)
                  else if StepCmd(f, h, c).1 then n1 == n + (if n == 0 || f.probe(h.tick) then 1 else 0)
                  else n1 == n)
  {
    hide Count, Without;
    var pl := At(h.kernel, c.slot);
    CountIn(pl.jumps, x);
    CountWithout(pl.jumps, c.iface, x);
    CountInsert(pl.jumps, c.iface, x);
  }

  lemma StepJumps(f: Faults, h: Host, c: Cmd, s: Slot, x: string)
    requires Honest(f) && (c.DropJump? || c.EnsureJump?)
    ensures SameChains(StepCmd(f, h, c).0.kernel, h.kernel)
    ensures var n, n1 := JumpsAt(h.kernel, s, x), JumpsAt(StepCmd(f, h, c).0.kernel, s, x);
            && (s != c.slot || x != c.iface ==> n1 == n)
            && (s == c.slot && x == c.iface ==>
                  if c.DropJump? then n1 == (if n > 0 then n - 1 else 0)
                  else if StepCmd(f, h, c).1 then n1 == (if n > 0 then n else 1) else n1 == n)
  {
    hide StepCmd, JumpsAt;
    StepAnyJumps(f, h, c, s, x);
  }

  lemma StepBetween(f: Faults, h: Host, c: Cmd, was: seq<string>, scope: seq<string>)
    requires Honest(f) && RescopeCmd(c, was, scope) && Between(h.kernel, was, scope)
    ensures Between(StepCmd(f, h, c).0.kernel, was, scope)
    ensures SameChains(StepCmd(f, h, c).0.kernel, h.kernel)
  {
    hide StepCmd, JumpsAt, SameChains;
    StepJumps(f, h, c, c.slot, c.iface);
    forall s, x ensures BetweenAt(JumpsAt(StepCmd(f, h, c).0.kernel, s, x), was, scope, x) {
      StepJumps(f, h, c, s, x);
      assert BetweenAt(JumpsAt(h.kernel, s, x), was, scope, x);
    }
  }

  lemma {:induction false} RunBetween(f: Faults, h: Host, cmds: seq<Cmd>, was: seq<string>, scope: seq<string>)
    requires Honest(f) && Between(h.kernel, was, scope) && forall c :: c in cmds ==> RescopeCmd(c, was, scope)
    ensures Between(RunCmds(f, h, cmds).0.kernel, was, scope)
    ensures SameChains(RunCmds(f, h, cmds).0.kernel, h.kernel)
    decreases cmds
  {
    hide StepCmd, Between, RescopeCmd;
    if cmds != [] {
      StepBetween(f, h, cmds[0], was, scope);
      if StepCmd(f, h, cmds[0]).1 {
        RunBetween(f, StepCmd(f, h, cmds[0]).0, cmds[1..], was, scope);
      }
    }
  }

  lemma {:induction false} RemovalsOk(was: seq<string>, all: seq<string>, scope: seq<string>)
    requires forall x :: x in was ==> x in all
    ensures forall c :: c in Removals(was, scope) ==> RescopeCmd(c, all, scope) && c.DropJump?
    ensures forall s, x :: x in was && x !in scope ==> DropJump(s, x) in Removals(was, scope)
  {
    if was != [] {
      RemovalsOk(was[1..], all, scope);
      AllSlots(was[0]);
      assert was == [was[0]] + was[1..];
    }
  }

  lemma AllSlots(i: string)
    ensures forall s :: DropJump(s, i) in DropAll(i) && EnsureJump(s, i) in EnsureAll(i)
    ensures forall c :: c in DropAll(i) ==> c.DropJump? && c.iface == i
    ensures forall c :: c in EnsureAll(i) ==> c.EnsureJump? && c.iface == i
  {
    forall s: Slot ensures DropJump(s, i) in DropAll(i) && EnsureJump(s, i) in EnsureAll(i) {
      match s {
        case Slot(V4, Prerouting) => assert DropAll(i)[0] == DropJump(s, i) && EnsureAll(i)[0] == EnsureJump(s, i);
        case Slot(V4, Forward) => assert DropAll(i)[1] == DropJump(s, i) && EnsureAll(i)[1] == EnsureJump(s, i);
        case Slot(V6, Prerouting) => assert DropAll(i)[2] == DropJump(s, i) && EnsureAll(i)[2] == EnsureJump(s, i);
        case Slot(V6, Forward) => assert DropAll(i)[3] == DropJump(s, i) && EnsureAll(i)[3] == EnsureJump(s, i);
      }
    }
  }

  lemma {:induction false} AdditionsOk(was: seq<string>, scope: seq<string>, all: seq<string>)
    requires forall x :: x in scope ==> x in all
    ensures forall c :: c in Additions(was, scope) ==> RescopeCmd(c, was, all) && c.EnsureJump?
    ensures forall s, x :: x in scope && x !in was ==> EnsureJump(s, x) in Additions(was, scope)
  {
    if scope != [] {
      AdditionsOk(was, scope[1..], all);
      AllSlots(scope[0]);
      assert scope == [scope[0]] + scope[1..];
    }
  }

  lemma RescopeOk(was: seq<string>, scope: seq<string>)
    ensures forall c :: c in RescopeCmds(was, scope) ==> RescopeCmd(c, was, scope)
    ensures forall s, x :: x in was && x !in scope ==> DropJump(s, x) in RescopeCmds(was, scope)
    ensures forall s, x :: x in scope && x !in was ==> EnsureJump(s, x) in RescopeCmds(was, scope)
  {
    hide Removals, Additions, RescopeCmd;
    RemovalsOk(was, was, scope);
    AdditionsOk(was, scope, scope);
  }

  /** After every command of a re-scope - however many ran, and wherever one failed - an interface in both scopes has
      its one jump at every slot and the chains are untouched: its packets are decided as if nothing happened. */
  lemma SurvivorsStayGated(f: Faults, h: Host, was: seq<string>, scope: seq<string>, n: nat, s: Sets, p: Packet,
                           port: nat)
    requires Honest(f) && Exact(h.kernel, was) && Filled(h.kernel, port)
    requires n <= |RescopeCmds(was, scope)| && p.ingress in was && p.ingress in scope
    ensures var k := RunCmds(f, h, RescopeCmds(was, scope)[..n]).0.kernel;
            && (forall t :: JumpsAt(k, t, p.ingress) == 1)
            && Decide(k, s, p, Forward) == (if Drops(was, s, p) then Some(DropPacket) else None)
            && Decide(k, s, p, Prerouting) == (if Redirects(was, s, p) then Some(RedirectTo(port)) else None)
  {
    hide RescopeCmds, RunCmds, RescopeCmd, JumpsAt, Decide, Exempt, Between, Filled, RulesOf;
    var cmds := RescopeCmds(was, scope)[..n];
    RescopeOk(was, scope);
    assert forall c :: c in cmds ==> c in RescopeCmds(was, scope);
    ExactIsBetween(h.kernel, was, scope);
    RunBetween(f, h, cmds, was, scope);
    var k := RunCmds(f, h, cmds).0.kernel;
    forall t ensures JumpsAt(k, t, p.ingress) == 1 {
      BetweenStays(k, was, scope, t, p.ingress);
    }
    DecidesFor(k, h.kernel, port, s, p, was);
  }

  lemma BetweenStays(k: Kernel, was: seq<string>, scope: seq<string>, t: Slot, x: string)
    requires Between(k, was, scope) && x in was && x in scope
    ensures JumpsAt(k, t, x) == 1
  {
    hide JumpsAt;
    assert BetweenAt(JumpsAt(k, t, x), was, scope, x);
  }

  lemma ExactIsBetween(k: Kernel, was: seq<string>, scope: seq<string>)
    requires Exact(k, was)
    ensures Between(k, was, scope)
  {
    hide JumpsAt;
  }

  lemma DecidesFor(k: Kernel, k0: Kernel, port: nat, s: Sets, p: Packet, was: seq<string>)
    requires SameChains(k, k0) && Filled(k0, port) && p.ingress in was
    requires forall t :: JumpsAt(k, t, p.ingress) == 1
    ensures Decide(k, s, p, Forward) == if Drops(was, s, p) then Some(DropPacket) else None
    ensures Decide(k, s, p, Prerouting) == if Redirects(was, s, p) then Some(RedirectTo(port)) else None
  {
    hide Exempt, RunChain, RunHook, RulesOf, At, Count;
    var a, b := Slot(p.family, Prerouting), Slot(p.family, Forward);
    assert At(k, a).chain == At(k0, a).chain && At(k, b).chain == At(k0, b).chain;
    assert At(k0, a).chain == Some(RulesOf(a, port)) && At(k0, b).chain == Some(RulesOf(b, port));
    assert JumpsAt(k, a, p.ingress) == 1 && JumpsAt(k, b, p.ingress) == 1;
    CountIn(At(k, a).jumps, p.ingress);
    CountIn(At(k, b).jumps, p.ingress);
    HookDecides(s, p, RulesOf(a, port), At(k, a).jumps);
    HookDecides(s, p, RulesOf(b, port), At(k, b).jumps);
    ChainDecides(s, p, port);
  }

  // --- the result ----------------------------------------------------------

  /** What is not in the new scope stays without jumps, what is not in the old one keeps the jump it got. */
  lemma {:induction false} RunKeeps(f: Faults, h: Host, cmds: seq<Cmd>, was: seq<string>, scope: seq<string>, s: Slot,
                                    x: string)
    requires Honest(f) && forall c :: c in cmds ==> RescopeCmd(c, was, scope)
    ensures x !in scope && JumpsAt(h.kernel, s, x) == 0 ==> JumpsAt(RunCmds(f, h, cmds).0.kernel, s, x) == 0
    ensures x !in was && JumpsAt(h.kernel, s, x) == 1 ==> JumpsAt(RunCmds(f, h, cmds).0.kernel, s, x) == 1
    decreases cmds
  {
    hide StepCmd, JumpsAt;
    if cmds != [] {
      assert RescopeCmd(cmds[0], was, scope);
      StepJumps(f, h, cmds[0], s, x);
      if StepCmd(f, h, cmds[0]).1 {
        RunKeeps(f, StepCmd(f, h, cmds[0]).0, cmds[1..], was, scope, s, x);
      }
    }
  }

  ghost predicate Done(k: Kernel, c: Cmd)
    requires c.DropJump? || c.EnsureJump?
  {
    JumpsAt(k, c.slot, c.iface) == if c.EnsureJump? then 1 else 0
  }

  lemma {:induction false} RunDone(f: Faults, h: Host, cmds: seq<Cmd>, was: seq<string>, scope: seq<string>)
    requires Honest(f) && Between(h.kernel, was, scope) && forall c :: c in cmds ==> RescopeCmd(c, was, scope)
    requires RunCmds(f, h, cmds).1
    ensures forall c :: c in cmds ==> RescopeCmd(c, was, scope) && Done(RunCmds(f, h, cmds).0.kernel, c)
    decreases cmds
  {
    hide StepCmd, JumpsAt, Between, BetweenAt;
    if cmds != [] {
      var c := cmds[0];
      assert RescopeCmd(c, was, scope);
      var h1 := StepCmd(f, h, c).0;
      BetweenAtMost(h.kernel, was, scope, c.slot, c.iface);
      StepJumps(f, h, c, c.slot, c.iface);
      StepBetween(f, h, c, was, scope);
      RunKeeps(f, h1, cmds[1..], was, scope, c.slot, c.iface);
      RunDone(f, h1, cmds[1..], was, scope);
      assert cmds == [c] + cmds[1..];
    }
  }

  lemma BetweenAtMost(k: Kernel, was: seq<string>, scope: seq<string>, s: Slot, x: string)
    requires Between(k, was, scope)
    ensures JumpsAt(k, s, x) <= 1
  {
    hide JumpsAt;
    assert BetweenAt(JumpsAt(k, s, x), was, scope, x);
  }

  /** A successful re-scope, from the old scope or from wherever a failed attempt at the same re-scope stopped, leaves
      exactly one jump per interface of the new scope at every hook of both families. */
  lemma RescopeExact(f: Faults, b: Backend, ifaces: seq<string>)
    requires Honest(f) && Between(b.host.kernel, b.gated, NonBlank(ifaces)) && SetGated(f, b, ifaces).1
    ensures Exact(SetGated(f, b, ifaces).0.host.kernel, NonBlank(ifaces))
    ensures SetGated(f, b, ifaces).0.gated == NonBlank(ifaces)
    ensures SameChains(SetGated(f, b, ifaces).0.host.kernel, b.host.kernel)
  {
    hide NonBlank, RescopeCmds, RescopeCmd, RunCmds, JumpsAt, BetweenAt, Done;
    var was, scope := b.gated, NonBlank(ifaces);
    var k := SetGated(f, b, ifaces).0.host.kernel;
    RescopeOk(was, scope);
    RunBetween(f, b.host, RescopeCmds(was, scope), was, scope);
    RunDone(f, b.host, RescopeCmds(was, scope), was, scope);
    forall s, x ensures JumpsAt(k, s, x) == if x in scope then 1 else 0 {
      ExactAt(k, was, scope, s, x);
    }
  }

  // --- whatever fails ------------------------------------------------------

  lemma {:induction false} RunCovers(f: Faults, h: Host, cmds: seq<Cmd>, was: seq<string>, scope: seq<string>, s: Slot,
                                     x: string)
    requires x in scope && RunCmds(f, h, cmds).1 && forall c :: c in cmds ==> RescopeCmd(c, was, scope)
    requires JumpsAt(h.kernel, s, x) > 0 || EnsureJump(s, x) in cmds
    ensures JumpsAt(RunCmds(f, h, cmds).0.kernel, s, x) > 0
    decreases cmds
  {
    hide StepCmd, JumpsAt;
    if cmds != [] {
      var c := cmds[0];
      assert RescopeCmd(c, was, scope) && cmds == [c] + cmds[1..];
      StepAnyJumps(f, h, c, s, x);
      RunCovers(f, StepCmd(f, h, c).0, cmds[1..], was, scope, s, x);
    }
  }

  /** However the deletes and the probes go, a re-scope that reports success from a scope that was covered leaves every
      interface of the new scope at least one jump at every hook of both families: it never ungates what it should
      gate. */
  lemma ScopeCovered(f: Faults, b: Backend, ifaces: seq<string>, s: Slot, x: string)
    requires SetGated(f, b, ifaces).1 && x in NonBlank(ifaces)
    requires x in b.gated ==> JumpsAt(b.host.kernel, s, x) > 0
    ensures JumpsAt(SetGated(f, b, ifaces).0.host.kernel, s, x) > 0
  {
    hide NonBlank, RescopeCmds, RescopeCmd, RunCmds, JumpsAt;
    RescopeOk(b.gated, NonBlank(ifaces));
    RunCovers(f, b.host, RescopeCmds(b.gated, NonBlank(ifaces)), b.gated, NonBlank(ifaces), s, x);
  }

  lemma ExactAt(k: Kernel, was: seq<string>, scope: seq<string>, s: Slot, x: string)
    requires Between(k, was, scope)
    requires forall c :: c in RescopeCmds(was, scope) ==> RescopeCmd(c, was, scope) && Done(k, c)
    ensures JumpsAt(k, s, x) == if x in scope then 1 else 0
  {
    hide RescopeCmds, JumpsAt;
    RescopeOk(was, scope);
    assert BetweenAt(JumpsAt(k, s, x), was, scope, x);
    assert x in was && x !in scope ==> Done(k, DropJump(s, x));
    assert x in scope && x !in was ==> Done(k, EnsureJump(s, x));
  }

  /** A failed attempt keeps the recorded scope and stops somewhere between the two scopes. */
  lemma FailedBetween(f: Faults, b: Backend, ifaces: seq<string>)
    requires Honest(f) && Between(b.host.kernel, b.gated, NonBlank(ifaces)) && !SetGated(f, b, ifaces).1
    ensures Between(SetGated(f, b, ifaces).0.host.kernel, b.gated, NonBlank(ifaces))
    ensures SetGated(f, b, ifaces).0.gated == b.gated
    ensures SameChains(SetGated(f, b, ifaces).0.host.kernel, b.host.kernel)
  {
    hide NonBlank, RescopeCmds, RescopeCmd, RunCmds, Between;
    RescopeOk(b.gated, NonBlank(ifaces));
    RunBetween(f, b.host, RescopeCmds(b.gated, NonBlank(ifaces)), b.gated, NonBlank(ifaces));
  }

  /** A first attempt that fails and a retry that succeeds end where one successful attempt would have. */
  lemma RetryExact(f: Faults, b: Backend, ifaces: seq<string>)
    requires Honest(f) && Exact(b.host.kernel, b.gated) && !SetGated(f, b, ifaces).1
    requires SetGated(f, SetGated(f, b, ifaces).0, ifaces).1
    ensures var r := SetGated(f, SetGated(f, b, ifaces).0, ifaces).0;
            && Exact(r.host.kernel, NonBlank(ifaces)) && r.gated == NonBlank(ifaces)
            && SameChains(r.host.kernel, b.host.kernel)
  {
    hide NonBlank, SetGated, Exact, Between;
    ExactIsBetween(b.host.kernel, b.gated, NonBlank(ifaces));
    FailedBetween(f, b, ifaces);
    RescopeExact(f, SetGated(f, b, ifaces).0, ifaces);
  }

  /** An exact scope is a scope: a re-scoped table decides every packet as a rebuilt one. */
  lemma ExactIsScoped(k: Kernel, scope: seq<string>)
    requires Exact(k, scope)
    ensures Scoped(k, scope)
  {
    hide Count, At;
    forall s ensures SameIfaces(At(k, s).jumps, scope) {
      forall x ensures x in At(k, s).jumps <==> x in scope {
        CountIn(At(k, s).jumps, x);
        assert JumpsAt(k, s, x) == if x in scope then 1 else 0;
      }
    }
  }

  // --- what a failure leaves recorded --------------------------------------

  lemma {:induction false} RunAppend(f: Faults, h: Host, a: seq<Cmd>, b: seq<Cmd>)
    ensures RunCmds(f, h, a + b) == (if RunCmds(f, h, a).1 then RunCmds(f, RunCmds(f, h, a).0, b) else RunCmds(f, h, a))
    decreases a
  {
    hide StepCmd;
    if a == [] {
      assert a + b == b;
    } else {
      assert (a + b)[1..] == a[1..] + b;
      if StepCmd(f, h, a[0]).1 {
        RunAppend(f, StepCmd(f, h, a[0]).0, a[1..], b);
      }
    }
  }

  lemma {:induction false} RemovalsRun(f: Faults, h: Host, cmds: seq<Cmd>)
    requires forall c :: c in cmds ==> c.DropJump?
    ensures RunCmds(f, h, cmds).1
    decreases cmds
  {
    hide Without, Put;
    if cmds != [] {
      assert cmds[0] in cmds;
      RemovalsRun(f, StepCmd(f, h, cmds[0]).0, cmds[1..]);
    }
  }

  /** An interface a failed re-scope was to remove has lost its jumps everywhere, and is still recorded. */
  lemma RemovedAnyway(f: Faults, b: Backend, ifaces: seq<string>, s: Slot, x: string)
    requires Honest(f) && Exact(b.host.kernel, b.gated) && !SetGated(f, b, ifaces).1
    requires x in b.gated && x !in NonBlank(ifaces)
    ensures JumpsAt(SetGated(f, b, ifaces).0.host.kernel, s, x) == 0
    ensures x in SetGated(f, b, ifaces).0.gated
  {
    hide NonBlank, RescopeCmd, RunCmds, JumpsAt, Removals, Additions, Between, Done;
    var was, scope := b.gated, NonBlank(ifaces);
    var rem, add := Removals(was, scope), Additions(was, scope);
    RemovalsOk(was, was, scope);
    AdditionsOk(was, scope, scope);
    ExactIsBetween(b.host.kernel, was, scope);
    RemovalsRun(f, b.host, rem);
    RunDone(f, b.host, rem, was, scope);
    assert Done(RunCmds(f, b.host, rem).0.kernel, DropJump(s, x));
    DoneDrop(RunCmds(f, b.host, rem).0.kernel, s, x);
    RunAppend(f, b.host, rem, add);
    RunKeeps(f, RunCmds(f, b.host, rem).0, add, was, scope, s, x);
  }

  lemma DoneDrop(k: Kernel, s: Slot, x: string)
    requires Done(k, DropJump(s, x))
    ensures JumpsAt(k, s, x) == 0
  {
    hide JumpsAt;
  }

  lemma {:induction false} NoRemovals(was: seq<string>, scope: seq<string>)
    requires forall x :: x in was ==> x in scope
    ensures Removals(was, scope) == []
  {
    if was != [] {
      NoRemovals(was[1..], scope);
    }
  }

  lemma {:induction false} FirstAddition(was: seq<string>, scope: seq<string>) returns (i: string)
    requires Additions(was, scope) != []
    ensures i in scope && i !in was && Additions(was, scope)[0] == EnsureJump(PRE4, i)
  {
    if scope[0] in was {
      i := FirstAddition(was, scope[1..]);
    } else {
      i := scope[0];
    }
  }

  /** Nothing to remove: the attempt failed at its first insertion and changed nothing, or inserted a jump that the
      recorded scope does not have. */
  lemma FailedAddition(f: Faults, h: Host, was: seq<string>, scope: seq<string>)
    requires Honest(f) && Exact(h.kernel, was) && At(h.kernel, PRE4).chain.Some?
    requires !RunCmds(f, h, Additions(was, scope)).1
    ensures Exact(RunCmds(f, h, Additions(was, scope)).0.kernel, was) <==> f.put(h.tick + 1)
  {
    hide JumpsAt, Additions, RescopeCmd, StepCmd;
    var add := Additions(was, scope);
    AdditionsOk(was, scope, scope);
    var i := FirstAddition(was, scope);
    assert JumpsAt(h.kernel, PRE4, i) == 0;
    FirstEnsure(f, h, i);
    StepJumps(f, h, add[0], PRE4, i);
    if !f.put(h.tick + 1) {
      RunKeeps(f, StepCmd(f, h, add[0]).0, add[1..], was, scope, PRE4, i);
      assert JumpsAt(RunCmds(f, h, add).0.kernel, PRE4, i) == 1;
    }
  }

  lemma FirstEnsure(f: Faults, h: Host, i: string)
    requires At(h.kernel, PRE4).chain.Some? && JumpsAt(h.kernel, PRE4, i) == 0
    ensures StepCmd(f, h, EnsureJump(PRE4, i)).1 <==> !f.put(h.tick + 1)
    ensures f.put(h.tick + 1) ==> StepCmd(f, h, EnsureJump(PRE4, i)).0.kernel == h.kernel
  {
    hide Put;
    CountIn(At(h.kernel, PRE4).jumps, i);
  }

  /** The record matches the kernel after every successful re-scope. After a failed one it does if and only if there
      was no interface to remove and the very first insertion is the one that failed. */
  lemma FailedRecordMatches(f: Faults, b: Backend, ifaces: seq<string>)
    requires Honest(f) && Exact(b.host.kernel, b.gated) && At(b.host.kernel, PRE4).chain.Some?
    requires !SetGated(f, b, ifaces).1
    ensures Exact(SetGated(f, b, ifaces).0.host.kernel, SetGated(f, b, ifaces).0.gated)
       <==> (forall x :: x in b.gated ==> x in NonBlank(ifaces)) && f.put(b.host.tick + 1)
  {
    hide NonBlank, RunCmds, JumpsAt, Removals, Additions;
    var scope := NonBlank(ifaces);
    if x :| x in b.gated && x !in scope {
      RemovedAnyway(f, b, ifaces, PRE4, x);
    } else {
      NoRemovals(b.gated, scope);
      assert [] + Additions(b.gated, scope) == Additions(b.gated, scope);
      FailedAddition(f, b.host, b.gated, scope);
    }
  }

  lemma {:induction false} NoAdditions(was: seq<string>, scope: seq<string>)
    requires forall x :: x in scope ==> x in was
    ensures Additions(was, scope) == []
  {
    if scope != [] {
      NoAdditions(was, scope[1..]);
    }
  }

  /** After such a failure, asking for the old scope again succeeds, issues no command, and leaves the interface that
      was removed - recorded, and answered for - without a jump. */
  lemma OldScopeNotRestored(f: Faults, b: Backend, ifaces: seq<string>, s: Slot, x: string)
    requires Honest(f) && Exact(b.host.kernel, b.gated) && NonBlank(b.gated) == b.gated
    requires !SetGated(f, b, ifaces).1 && x in b.gated && x !in NonBlank(ifaces)
    ensures var b1 := SetGated(f, b, ifaces).0;
            && SetGated(f, b1, b.gated) == (b1, true)
            && x in b1.gated && JumpsAt(b1.host.kernel, s, x) == 0
  {
    hide NonBlank, JumpsAt, RescopeCmds;
    RemovedAnyway(f, b, ifaces, s, x);
    NothingToDo(b.gated);
  }

  lemma NothingToDo(was: seq<string>)
    ensures RescopeCmds(was, was) == []
  {
    NoRemovals(was, was);
    NoAdditions(was, was);
  }

  // --- filling a chain -----------------------------------------------------

  /** The commands of `ensure_chain` before its first jump. */
  function FillCmds(s: Slot, port: nat): seq<Cmd> {
    [NewChain(s), FlushChain(s)] + AppendCmds(s, RulesOf(s, port))
  }

  predicate FillCmd(c: Cmd, s: Slot) {
    c.slot == s && (c.NewChain? || c.FlushChain? || c.Append?)
  }

  lemma {:induction false} RunFill(f: Faults, h: Host, cmds: seq<Cmd>, s: Slot)
    requires forall c :: c in cmds ==> FillCmd(c, s)
    ensures forall t :: At(RunCmds(f, h, cmds).0.kernel, t).jumps == At(h.kernel, t).jumps
    ensures forall t :: t != s ==> At(RunCmds(f, h, cmds).0.kernel, t) == At(h.kernel, t)
    decreases cmds
  {
    hide At, Put;
    if cmds != [] {
      assert FillCmd(cmds[0], s);
      if StepCmd(f, h, cmds[0]).1 {
        RunFill(f, StepCmd(f, h, cmds[0]).0, cmds[1..], s);
      }
    }
  }

  lemma {:induction false} RunAppends(f: Faults, h: Host, s: Slot, rules: seq<Rule>)
    requires At(h.kernel, s).chain.Some? && RunCmds(f, h, AppendCmds(s, rules)).1
    ensures At(RunCmds(f, h, AppendCmds(s, rules)).0.kernel, s).chain == Some(At(h.kernel, s).chain.value + rules)
    decreases rules
  {
    hide At, Put;
    if rules == [] {
      assert At(h.kernel, s).chain.value + rules == At(h.kernel, s).chain.value;
    } else {
      assert AppendCmds(s, rules)[1..] == AppendCmds(s, rules[1..]);
      RunAppends(f, StepCmd(f, h, Append(s, rules[0])).0, s, rules[1..]);
      assert At(h.kernel, s).chain.value + [rules[0]] + rules[1..] == At(h.kernel, s).chain.value + rules;
    }
  }

  lemma {:induction false} AppendsFill(s: Slot, rules: seq<Rule>)
    ensures forall c :: c in AppendCmds(s, rules) ==> FillCmd(c, s)
  {
    if rules != [] {
      AppendsFill(s, rules[1..]);
    }
  }

  lemma HeadRun(f: Faults, h: Host, s: Slot)
    ensures var (h1, ok) := RunCmds(f, h, [NewChain(s), FlushChain(s)]); ok ==> At(h1.kernel, s).chain == Some([])
  {
    hide At, Put;
    var cmds := [NewChain(s), FlushChain(s)];
    assert cmds[1..] == [FlushChain(s)] && cmds[1..][1..] == [];
    var h1 := StepCmd(f, h, NewChain(s)).0;
    assert RunCmds(f, h1, [FlushChain(s)]) == StepCmd(f, h1, FlushChain(s)) by {
      assert RunCmds(f, StepCmd(f, h1, FlushChain(s)).0, []) == (StepCmd(f, h1, FlushChain(s)).0, true);
    }
  }

  lemma FillExact(f: Faults, h: Host, s: Slot, port: nat)
    requires RunCmds(f, h, FillCmds(s, port)).1
    ensures At(RunCmds(f, h, FillCmds(s, port)).0.kernel, s).chain == Some(RulesOf(s, port))
  {
    hide At, RunCmds, AppendCmds, RulesOf;
    var head := [NewChain(s), FlushChain(s)];
    RunAppend(f, h, head, AppendCmds(s, RulesOf(s, port)));
    HeadRun(f, h, s);
    RunAppends(f, RunCmds(f, h, head).0, s, RulesOf(s, port));
    assert [] + RulesOf(s, port) == RulesOf(s, port);
  }

  lemma FillsOnly(s: Slot, port: nat)
    ensures forall c :: c in FillCmds(s, port) ==> FillCmd(c, s)
  {
    hide RulesOf;
    AppendsFill(s, RulesOf(s, port));
  }

  lemma {:induction false} RunJumpCmds(f: Faults, h: Host, s: Slot, ifaces: seq<string>)
    requires Honest(f)
    ensures SameChains(RunCmds(f, h, JumpCmds(s, ifaces)).0.kernel, h.kernel)
    ensures forall t, x :: t != s || x !in ifaces ==>
              JumpsAt(RunCmds(f, h, JumpCmds(s, ifaces)).0.kernel, t, x) == JumpsAt(h.kernel, t, x)
    ensures RunCmds(f, h, JumpCmds(s, ifaces)).1 ==>
              forall x :: x in ifaces && JumpsAt(h.kernel, s, x) <= 1 ==>
                JumpsAt(RunCmds(f, h, JumpCmds(s, ifaces)).0.kernel, s, x) == 1
    decreases ifaces
  {
    hide StepCmd, JumpsAt, SameChains;
    if ifaces != [] {
      var c := EnsureJump(s, ifaces[0]);
      assert JumpCmds(s, ifaces)[1..] == JumpCmds(s, ifaces[1..]);
      var h1 := StepCmd(f, h, c).0;
      StepJumps(f, h, c, s, ifaces[0]);
      forall t, x ensures t != s || x != ifaces[0] ==> JumpsAt(h1.kernel, t, x) == JumpsAt(h.kernel, t, x) {
        StepJumps(f, h, c, t, x);
      }
      if StepCmd(f, h, c).1 {
        RunJumpCmds(f, h1, s, ifaces[1..]);
        ChainsTrans(h.kernel, h1.kernel, RunCmds(f, h1, JumpCmds(s, ifaces[1..])).0.kernel);
      }
    } else {
      ChainsSame(h.kernel);
    }
  }

  lemma ChainsTrans(a: Kernel, b: Kernel, c: Kernel)
    requires SameChains(b, a) && SameChains(c, b)
    ensures SameChains(c, a)
  {
  }

  lemma ChainsSame(a: Kernel)
    ensures SameChains(a, a)
  {
  }

  /** Wherever `ensure_chain` stops on a slot without jumps, a jump into the chain is there only when the chain is
      complete: the first boot opens no window. Other slots are never touched. */
  lemma FirstBootNoWindow(f: Faults, h: Host, s: Slot, port: nat, ifaces: seq<string>, n: nat)
    requires Honest(f) && At(h.kernel, s).jumps == [] && n <= |ChainCmds(s, port, ifaces)|
    ensures var k := RunCmds(f, h, ChainCmds(s, port, ifaces)[..n]).0.kernel;
            && (At(k, s).jumps != [] ==> At(k, s).chain == Some(RulesOf(s, port)))
            && forall t :: t != s ==>
                 At(k, t).chain == At(h.kernel, t).chain && forall x :: JumpsAt(k, t, x) == JumpsAt(h.kernel, t, x)
  {
    hide At, RunCmds, JumpCmds, RulesOf, FillCmds, JumpsAt, FillCmd;
    var fill, jump := FillCmds(s, port), JumpCmds(s, ifaces);
    ChainIsFillJump(s, port, ifaces);
    FillsOnly(s, port);
    if n <= |fill| {
      assert (fill + jump)[..n] == fill[..n];
      assert forall c :: c in fill[..n] ==> c in fill;
      RunFill(f, h, fill[..n], s);
      SameJumps(h.kernel, RunCmds(f, h, fill[..n]).0.kernel);
    } else {
      assert (fill + jump)[..n] == fill + jump[..n - |fill|];
      RunFill(f, h, fill, s);
      SameJumps(h.kernel, RunCmds(f, h, fill).0.kernel);
      RunAppend(f, h, fill, jump[..n - |fill|]);
      if RunCmds(f, h, fill).1 {
        FillExact(f, h, s, port);
        JumpPrefix(s, ifaces, n - |fill|);
        RunJumpCmds(f, RunCmds(f, h, fill).0, s, ifaces[..n - |fill|]);
      }
    }
  }

  lemma SameJumps(a: Kernel, b: Kernel)
    requires forall t :: At(b, t).jumps == At(a, t).jumps
    ensures forall t, x :: JumpsAt(b, t, x) == JumpsAt(a, t, x)
  {
    hide At, Count;
  }

  lemma ChainIsFillJump(s: Slot, port: nat, ifaces: seq<string>)
    ensures ChainCmds(s, port, ifaces) == FillCmds(s, port) + JumpCmds(s, ifaces)
  {
    hide AppendCmds, RulesOf, JumpCmds;
  }

  lemma {:induction false} JumpPrefix(s: Slot, ifaces: seq<string>, n: nat)
    requires n <= |JumpCmds(s, ifaces)|
    ensures |JumpCmds(s, ifaces)| == |ifaces| && JumpCmds(s, ifaces)[..n] == JumpCmds(s, ifaces[..n])
  {
    if ifaces == [] {
    } else if n == 0 {
      JumpPrefix(s, ifaces[1..], 0);
    } else {
      JumpPrefix(s, ifaces[1..], n - 1);
      assert ifaces[..n][1..] == ifaces[1..][..n - 1];
    }
  }

  /** A completed `ensure_chain`, on a slot in any state with at most one jump per interface: the chain is exactly its
      rules, the interfaces asked for have exactly one jump, and no other interface gained or lost one. */
  lemma EnsureChainExact(f: Faults, h: Host, s: Slot, port: nat, ifaces: seq<string>)
    requires Honest(f) && (forall x :: JumpsAt(h.kernel, s, x) <= 1) && RunCmds(f, h, ChainCmds(s, port, ifaces)).1
    ensures var k := RunCmds(f, h, ChainCmds(s, port, ifaces)).0.kernel;
            && At(k, s).chain == Some(RulesOf(s, port))
            && (forall x :: JumpsAt(k, s, x) == if x in ifaces then 1 else JumpsAt(h.kernel, s, x))
            && forall t, x :: t != s ==>
                 At(k, t).chain == At(h.kernel, t).chain && JumpsAt(k, t, x) == JumpsAt(h.kernel, t, x)
  {
    hide At, RunCmds, JumpCmds, RulesOf, FillCmds, JumpsAt, FillCmd;
    var fill, jump := FillCmds(s, port), JumpCmds(s, ifaces);
    ChainIsFillJump(s, port, ifaces);
    FillsOnly(s, port);
    RunFill(f, h, fill, s);
    SameJumps(h.kernel, RunCmds(f, h, fill).0.kernel);
    RunAppend(f, h, fill, jump);
    FillExact(f, h, s, port);
    RunJumpCmds(f, RunCmds(f, h, fill).0, s, ifaces);
  }

  // --- a daemon restart ----------------------------------------------------

  /** At most one jump per interface at every hook: what a run of re-scopes leaves. */
  ghost predicate AtMostOne(k: Kernel) {
    forall s, x :: JumpsAt(k, s, x) <= 1
  }

  /** One slot of `ensure_base` is done, the others are as they were. */
  ghost predicate SlotDone(k: Kernel, k0: Kernel, s: Slot, port: nat, ifaces: seq<string>) {
    && At(k, s).chain == Some(RulesOf(s, port))
    && forall x :: JumpsAt(k, s, x) == if x in ifaces then 1 else JumpsAt(k0, s, x)
  }

  ghost predicate SlotKept(k: Kernel, k0: Kernel, s: Slot) {
    At(k, s).chain == At(k0, s).chain && forall x :: JumpsAt(k, s, x) == JumpsAt(k0, s, x)
  }

  lemma ChainStep(f: Faults, h: Host, s: Slot, port: nat, ifaces: seq<string>)
    requires Honest(f) && AtMostOne(h.kernel) && RunCmds(f, h, ChainCmds(s, port, ifaces)).1
    ensures var k := RunCmds(f, h, ChainCmds(s, port, ifaces)).0.kernel;
            && SlotDone(k, h.kernel, s, port, ifaces) && AtMostOne(k)
            && forall t :: t != s ==> SlotKept(k, h.kernel, t)
  {
    hide At, RunCmds, ChainCmds, JumpsAt, RulesOf;
    EnsureChainExact(f, h, s, port, ifaces);
    var k := RunCmds(f, h, ChainCmds(s, port, ifaces)).0.kernel;
    forall t, x ensures JumpsAt(k, t, x) <= 1 {
      assert JumpsAt(h.kernel, t, x) <= 1;
    }
    forall t | t != s ensures SlotKept(k, h.kernel, t) {
      assert JumpsAt(k, t, "") == JumpsAt(h.kernel, t, "");
    }
  }

  /** A completed `ensure_base` over any table with at most one jump per interface: every chain is exactly its rules,
      every recorded interface has its jump, and no other jump is gone. */
  lemma EnsureBaseFills(f: Faults, h: Host, port: nat, ifaces: seq<string>)
    requires Honest(f) && AtMostOne(h.kernel) && RunCmds(f, h, BaseCmds(port, ifaces)).1
    ensures var k := RunCmds(f, h, BaseCmds(port, ifaces)).0.kernel;
            && Filled(k, port) && AtMostOne(k)
            && forall s, x :: JumpsAt(k, s, x) == if x in ifaces then 1 else JumpsAt(h.kernel, s, x)
  {
    hide At, RunCmds, ChainCmds, JumpsAt, RulesOf;
    var a, b := ChainCmds(PRE4, port, ifaces), ChainCmds(FWD4, port, ifaces);
    var c, d := ChainCmds(PRE6, port, ifaces), ChainCmds(FWD6, port, ifaces);
    RunAppend(f, h, a + b + c, d);
    RunAppend(f, h, a + b, c);
    RunAppend(f, h, a, b);
    var h1 := RunCmds(f, h, a).0;
    var h2 := RunCmds(f, h1, b).0;
    var h3 := RunCmds(f, h2, c).0;
    var h4 := RunCmds(f, h3, d).0;
    ChainStep(f, h, PRE4, port, ifaces);
    ChainStep(f, h1, FWD4, port, ifaces);
    ChainStep(f, h2, PRE6, port, ifaces);
    ChainStep(f, h3, FWD6, port, ifaces);
    forall s ensures SlotDone(h4.kernel, h.kernel, s, port, ifaces) {
      OneOfFour(s);
      assert s != PRE4 ==> SlotKept(h1.kernel, h.kernel, s);
      assert s != FWD4 ==> SlotKept(h2.kernel, h1.kernel, s);
      assert s != PRE6 ==> SlotKept(h3.kernel, h2.kernel, s);
      assert s != FWD6 ==> SlotKept(h4.kernel, h3.kernel, s);
    }
    assert h4 == RunCmds(f, h, BaseCmds(port, ifaces)).0;
    AllSlotsDone(h4.kernel, h.kernel, port, ifaces);
  }

  lemma AllSlotsDone(k: Kernel, k0: Kernel, port: nat, ifaces: seq<string>)
    requires forall s :: SlotDone(k, k0, s, port, ifaces)
    ensures Filled(k, port) && forall s, x :: JumpsAt(k, s, x) == if x in ifaces then 1 else JumpsAt(k0, s, x)
  {
    hide At, JumpsAt, RulesOf;
    forall s ensures At(k, s).chain == Some(RulesOf(s, port)) {
      assert SlotDone(k, k0, s, port, ifaces);
    }
    forall s, x ensures JumpsAt(k, s, x) == if x in ifaces then 1 else JumpsAt(k0, s, x) {
      assert SlotDone(k, k0, s, port, ifaces);
    }
  }

  lemma OneOfFour(s: Slot)
    ensures s == PRE4 || s == FWD4 || s == PRE6 || s == FWD6
    ensures PRE4 != FWD4 && PRE4 != PRE6 && PRE4 != FWD6 && FWD4 != PRE6 && FWD4 != FWD6 && PRE6 != FWD6
  {
    match s {
      case Slot(V4, Prerouting) =>
      case Slot(V4, Forward) =>
      case Slot(V6, Prerouting) =>
      case Slot(V6, Forward) =>
    }
  }

  /** The restarted daemon records `seed` and adopts the table as it finds it: its scope is exact, and the two backends
      agree on it, if and only if every jump it found names a recorded interface. */
  lemma RestartExact(f: Faults, h: Host, port: nat, seed: seq<string>)
    requires Honest(f) && AtMostOne(h.kernel) && RunCmds(f, h, BaseCmds(port, seed)).1
    ensures var k := RunCmds(f, h, BaseCmds(port, seed)).0.kernel;
            Filled(k, port) && (Exact(k, seed) <==> forall s, x :: JumpsAt(h.kernel, s, x) > 0 ==> x in seed)
  {
    hide RunCmds, BaseCmds, JumpsAt, Filled;
    EnsureBaseFills(f, h, port, seed);
    var k := RunCmds(f, h, BaseCmds(port, seed)).0.kernel;
    if Exact(k, seed) {
      forall s, x | JumpsAt(h.kernel, s, x) > 0 ensures x in seed {
        assert JumpsAt(k, s, x) == if x in seed then 1 else 0;
      }
    }
    if forall s, x :: JumpsAt(h.kernel, s, x) > 0 ==> x in seed {
      forall s, x ensures JumpsAt(k, s, x) == if x in seed then 1 else 0 {
        assert x !in seed ==> !(JumpsAt(h.kernel, s, x) > 0);
      }
    }
  }

  lemma {:induction false} RunLeaves(f: Faults, h: Host, cmds: seq<Cmd>, was: seq<string>, scope: seq<string>, s: Slot,
                                     x: string)
    requires Honest(f) && x !in was && x !in scope && forall c :: c in cmds ==> RescopeCmd(c, was, scope)
    ensures JumpsAt(RunCmds(f, h, cmds).0.kernel, s, x) == JumpsAt(h.kernel, s, x)
    decreases cmds
  {
    hide StepCmd, JumpsAt;
    if cmds != [] {
      assert RescopeCmd(cmds[0], was, scope);
      StepJumps(f, h, cmds[0], s, x);
      if StepCmd(f, h, cmds[0]).1 {
        RunLeaves(f, StepCmd(f, h, cmds[0]).0, cmds[1..], was, scope, s, x);
      }
    }
  }

  lemma {:induction false} RunSettles(f: Faults, h: Host, cmds: seq<Cmd>, was: seq<string>, scope: seq<string>)
    requires Honest(f) && AtMostOne(h.kernel) && RunCmds(f, h, cmds).1
    requires forall c :: c in cmds ==> RescopeCmd(c, was, scope)
    ensures forall c :: c in cmds ==> RescopeCmd(c, was, scope) && Done(RunCmds(f, h, cmds).0.kernel, c)
    decreases cmds
  {
    hide StepCmd, JumpsAt;
    if cmds != [] {
      var c := cmds[0];
      assert RescopeCmd(c, was, scope);
      var h1 := StepCmd(f, h, c).0;
      assert JumpsAt(h.kernel, c.slot, c.iface) <= 1;
      StepJumps(f, h, c, c.slot, c.iface);
      assert AtMostOne(h1.kernel) by { StepAtMostOne(f, h, c); }
      RunKeeps(f, h1, cmds[1..], was, scope, c.slot, c.iface);
      RunSettles(f, h1, cmds[1..], was, scope);
      assert cmds == [c] + cmds[1..];
    }
  }

  lemma StepAtMostOne(f: Faults, h: Host, c: Cmd)
    requires Honest(f) && AtMostOne(h.kernel) && (c.DropJump? || c.EnsureJump?)
    ensures AtMostOne(StepCmd(f, h, c).0.kernel)
  {
    hide StepCmd, JumpsAt;
    forall s, x ensures JumpsAt(StepCmd(f, h, c).0.kernel, s, x) <= 1 {
      StepJumps(f, h, c, s, x);
      assert JumpsAt(h.kernel, s, x) <= 1;
    }
  }

  /** A successful re-scope over any table with at most one jump per interface: what is asked for has its jump, what was
      recorded and is not asked for has none, and what is neither is as it was found. */
  lemma RescopeFrom(f: Faults, b: Backend, ifaces: seq<string>, s: Slot, x: string)
    requires Honest(f) && AtMostOne(b.host.kernel) && SetGated(f, b, ifaces).1
    requires forall y, t :: y in b.gated && y in NonBlank(ifaces) ==> JumpsAt(b.host.kernel, t, y) == 1
    ensures JumpsAt(SetGated(f, b, ifaces).0.host.kernel, s, x)
         == if x in NonBlank(ifaces) then 1 else if x in b.gated then 0 else JumpsAt(b.host.kernel, s, x)
  {
    hide NonBlank, RescopeCmds, RescopeCmd, RunCmds, JumpsAt, AtMostOne, Done;
    var was, scope := b.gated, NonBlank(ifaces);
    RescopeOk(was, scope);
    RunSettles(f, b.host, RescopeCmds(was, scope), was, scope);
    var k := RunCmds(f, b.host, RescopeCmds(was, scope)).0.kernel;
    if x in was && x in scope {
      RunStays(f, b.host, RescopeCmds(was, scope), was, scope, s, x);
    } else if x in was {
      assert Done(k, DropJump(s, x));
      DoneDrop(k, s, x);
    } else if x in scope {
      assert Done(k, EnsureJump(s, x));
      DoneEnsure(k, s, x);
    } else {
      RunLeaves(f, b.host, RescopeCmds(was, scope), was, scope, s, x);
    }
  }

  lemma DoneEnsure(k: Kernel, s: Slot, x: string)
    requires Done(k, EnsureJump(s, x))
    ensures JumpsAt(k, s, x) == 1
  {
    hide JumpsAt;
  }

  lemma {:induction false} RunStays(f: Faults, h: Host, cmds: seq<Cmd>, was: seq<string>, scope: seq<string>, s: Slot,
                                    x: string)
    requires Honest(f) && x in was && x in scope && forall c :: c in cmds ==> RescopeCmd(c, was, scope)
    ensures JumpsAt(RunCmds(f, h, cmds).0.kernel, s, x) == JumpsAt(h.kernel, s, x)
    decreases cmds
  {
    hide StepCmd, JumpsAt;
    if cmds != [] {
      assert RescopeCmd(cmds[0], was, scope);
      StepJumps(f, h, cmds[0], s, x);
      if StepCmd(f, h, cmds[0]).1 {
        RunStays(f, StepCmd(f, h, cmds[0]).0, cmds[1..], was, scope, s, x);
      }
    }
  }

  /** The whole start: adopt the table with the seed recorded, then re-scope to the restored set. The scope is exact if
      and only if every jump that was found names an interface of the seed or of the restored set: a jump left by any
      other scope - a change of scope the daemon did not live to apply - stays. */
  lemma RestoredScopeExact(f: Faults, h: Host, port: nat, seed: seq<string>, restored: seq<string>)
    requires Honest(f) && AtMostOne(h.kernel) && RunCmds(f, h, BaseCmds(port, seed)).1
    requires SetGated(f, Backend(RunCmds(f, h, BaseCmds(port, seed)).0, seed), restored).1
    ensures var b := SetGated(f, Backend(RunCmds(f, h, BaseCmds(port, seed)).0, seed), restored).0;
            Exact(b.host.kernel, NonBlank(restored))
            <==> forall s, x :: JumpsAt(h.kernel, s, x) > 0 ==> x in seed || x in NonBlank(restored)
  {
    hide RunCmds, BaseCmds, JumpsAt, Filled, NonBlank, SetGated, AtMostOne;
    EnsureBaseFills(f, h, port, seed);
    var b0 := Backend(RunCmds(f, h, BaseCmds(port, seed)).0, seed);
    var scope, k := NonBlank(restored), SetGated(f, b0, restored).0.host.kernel;
    forall s, x
      ensures JumpsAt(k, s, x) == if x in scope then 1 else if x in seed then 0 else JumpsAt(h.kernel, s, x)
    {
      RescopeFrom(f, b0, restored, s, x);
    }
    if Exact(k, scope) {
      forall s, x | JumpsAt(h.kernel, s, x) > 0 ensures x in seed || x in scope {
        assert JumpsAt(k, s, x) == if x in scope then 1 else 0;
      }
    }
    if forall s, x :: JumpsAt(h.kernel, s, x) > 0 ==> x in seed || x in scope {
      forall s, x ensures JumpsAt(k, s, x) == if x in scope then 1 else 0 {
        assert x !in seed && x !in scope ==> !(JumpsAt(h.kernel, s, x) > 0);
      }
    }
  }

  // --- the window of a restart ---------------------------------------------

  lemma {:induction false} AppendPrefix(s: Slot, rules: seq<Rule>, n: nat)
    requires n <= |AppendCmds(s, rules)|
    ensures |AppendCmds(s, rules)| == |rules| && AppendCmds(s, rules)[..n] == AppendCmds(s, rules[..n])
  {
    if rules == [] {
    } else if n == 0 {
      AppendPrefix(s, rules[1..], 0);
    } else {
      AppendPrefix(s, rules[1..], n - 1);
      assert rules[..n][1..] == rules[1..][..n - 1];
    }
  }

  lemma {:induction false} ReturnsOnly(s: Sets, p: Packet, rules: seq<Rule>)
    requires forall r :: r in rules ==> r.target.Return?
    ensures RunChain(s, p, rules) == None
  {
    if rules != [] {
      assert rules[0] in rules;
      ReturnsOnly(s, p, rules[1..]);
    }
  }

  lemma PrefixReturns(s: Slot, port: nat, n: nat)
    requires n < |RulesOf(s, port)|
    ensures forall r :: r in RulesOf(s, port)[..n] ==> r.target.Return?
  {
  }

  lemma FillCount(s: Slot, port: nat)
    ensures |FillCmds(s, port)| == 2 + |RulesOf(s, port)|
  {
    hide RulesOf;
    AppendPrefix(s, RulesOf(s, port), 0);
  }

  lemma AppendedPrefix(f: Faults, h: Host, s: Slot, port: nat, n: nat)
    requires 2 <= n < |FillCmds(s, port)| && RunCmds(f, h, FillCmds(s, port)[..n]).1
    ensures n - 2 < |RulesOf(s, port)|
    ensures At(RunCmds(f, h, FillCmds(s, port)[..n]).0.kernel, s).chain == Some(RulesOf(s, port)[..n - 2])
  {
    hide At, RunCmds, AppendCmds, RulesOf;
    var head := [NewChain(s), FlushChain(s)];
    FillCount(s, port);
    AppendPrefix(s, RulesOf(s, port), 0);
    AppendPrefix(s, RulesOf(s, port), n - 2);
    assert FillCmds(s, port)[..n] == head + AppendCmds(s, RulesOf(s, port))[..n - 2];
    RunAppend(f, h, head, AppendCmds(s, RulesOf(s, port)[..n - 2]));
    HeadRun(f, h, s);
    RunAppends(f, RunCmds(f, h, head).0, s, RulesOf(s, port)[..n - 2]);
    assert [] + RulesOf(s, port)[..n - 2] == RulesOf(s, port)[..n - 2];
  }

  /** On a slot that has jumps, as at a restart, `ensure_chain` opens a window: from its flush until the last rule is
      appended again, no packet of any interface is dropped or redirected there. */
  lemma RestartWindow(f: Faults, h: Host, s: Slot, port: nat, n: nat, sets: Sets, p: Packet)
    requires 2 <= n < |FillCmds(s, port)| && RunCmds(f, h, FillCmds(s, port)[..n]).1 && p.family == s.family
    ensures var k := RunCmds(f, h, FillCmds(s, port)[..n]).0.kernel;
            At(k, s).jumps == At(h.kernel, s).jumps && Decide(k, sets, p, s.hook) == None
  {
    hide At, RunCmds, FillCmds, RulesOf, RunChain, RunHook, FillCmd;
    AppendedPrefix(f, h, s, port, n);
    FillsOnly(s, port);
    var cmds := FillCmds(s, port)[..n];
    assert forall c :: c in cmds ==> c in FillCmds(s, port);
    RunFill(f, h, cmds, s);
    PrefixReturns(s, port, n - 2);
    ReturnsOnly(sets, p, RulesOf(s, port)[..n - 2]);
    var k := RunCmds(f, h, cmds).0.kernel;
    HookDecides(sets, p, RulesOf(s, port)[..n - 2], At(k, s).jumps);
    assert Slot(p.family, s.hook) == s;
  }
}
