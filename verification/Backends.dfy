/** The two backends as they change the kernel: the iptables one command by command, the nft one by documents; both
    record a new scope only after it applied. */
module Backends {
  import opened Text
  import opened Gate
  import opened Jumps
  import opened Rescope

  class IpsetBackend {
    const faults: Faults
    const port: nat
    var kernel: Kernel
    var tick: nat
    var gated: seq<string>

    constructor (faults: Faults, port: nat, kernel: Kernel, ifaces: seq<string>)
      ensures this.faults == faults && this.port == port
      ensures State() == Backend(Host(kernel, 0), NonBlank(ifaces))
    {
      this.faults, this.port, this.kernel, tick := faults, port, kernel, 0;
      new;
      gated := Filter(ifaces);
    }

    function Now(): Host
      reads this
    {
      Host(kernel, tick)
    }

    function State(): Backend
      reads this
    {
      Backend(Now(), gated)
    }

    /** One `iptables` command other than a guarded insertion. */
    method Command(c: Cmd) returns (ok: bool)
      requires !c.EnsureJump?
      modifies this`kernel, this`tick
      ensures (Now(), ok) == StepCmd(faults, old(Now()), c)
    {
      var (h, done) := StepCmd(faults, Now(), c);
      kernel, tick, ok := h.kernel, h.tick, done;
    }

    /** `-C`, and `-I` at position 1 when it does not find the jump. */
    method EnsureJumpFor(s: Slot, iface: string) returns (ok: bool)
      modifies this`kernel, this`tick
      ensures (Now(), ok) == StepCmd(faults, old(Now()), EnsureJump(s, iface))
    {
      var found := !faults.probe(tick) && iface in At(kernel, s).jumps;
      tick := tick + 1;
      if found {
        return true;
      }
      ok := !faults.put(tick) && At(kernel, s).chain.Some?;
      if ok {
        kernel := WithJumps(kernel, s, [iface] + At(kernel, s).jumps);
      }
      tick := tick + 1;
    }

    method AppendRules(s: Slot, rules: seq<Rule>, ghost tail: seq<Cmd>) returns (ok: bool)
      modifies this`kernel, this`tick
      ensures ok ==> RunCmds(faults, Now(), tail) == RunCmds(faults, old(Now()), AppendCmds(s, rules) + tail)
      ensures !ok ==> (Now(), false) == RunCmds(faults, old(Now()), AppendCmds(s, rules) + tail)
    {
      hide StepCmd;
      for i := 0 to |rules|
        invariant RunCmds(faults, Now(), AppendCmds(s, rules[i..]) + tail)
               == RunCmds(faults, old(Now()), AppendCmds(s, rules) + tail)
      {
        assert rules[i..][1..] == rules[i + 1..];
        assert (AppendCmds(s, rules[i..]) + tail)[1..] == AppendCmds(s, rules[i + 1..]) + tail;
        ok := Command(Append(s, rules[i]));
        if !ok { return; }
      }
      assert AppendCmds(s, rules[|rules|..]) + tail == tail;
      ok := true;
    }

    method JumpEach(s: Slot, ifaces: seq<string>) returns (ok: bool)
      modifies this`kernel, this`tick
      ensures (Now(), ok) == RunCmds(faults, old(Now()), JumpCmds(s, ifaces))
    {
      hide StepCmd;
      for i := 0 to |ifaces|
        invariant RunCmds(faults, Now(), JumpCmds(s, ifaces[i..])) == RunCmds(faults, old(Now()), JumpCmds(s, ifaces))
      {
        assert ifaces[i..][1..] == ifaces[i + 1..];
        assert JumpCmds(s, ifaces[i..])[1..] == JumpCmds(s, ifaces[i + 1..]);
        ok := EnsureJumpFor(s, ifaces[i]);
        if !ok { return; }
      }
      ok := true;
    }

    /** Create the chain, flush it, fill it, and only then jump to it. */
    method EnsureChain(s: Slot, ifaces: seq<string>) returns (ok: bool)
      modifies this`kernel, this`tick
      ensures (Now(), ok) == RunCmds(faults, old(Now()), ChainCmds(s, port, ifaces))
    {
      hide StepCmd, RulesOf, AppendCmds, JumpCmds;
      ghost var h0 := Now();
      ghost var tail := AppendCmds(s, RulesOf(s, port)) + JumpCmds(s, ifaces);
      assert ChainCmds(s, port, ifaces) == [NewChain(s)] + ([FlushChain(s)] + tail);
      assert ([NewChain(s)] + ([FlushChain(s)] + tail))[1..] == [FlushChain(s)] + tail;
      assert ([FlushChain(s)] + tail)[1..] == tail;
      NewChainGoesOn(faults, h0, s);
      var _ := Command(NewChain(s));
      ok := Command(FlushChain(s));
      if !ok { return; }
      ok := AppendRules(s, RulesOf(s, port), JumpCmds(s, ifaces));
      if !ok { return; }
      ok := JumpEach(s, ifaces);
    }

    /** Both chains of both families, in order, for the recorded scope. */
    method EnsureBase() returns (ok: bool)
      modifies this`kernel, this`tick
      ensures (Now(), ok) == RunCmds(faults, old(Now()), BaseCmds(port, gated))
    {
      hide RunCmds, ChainCmds;
      ghost var h0 := Now();
      ghost var a, b := ChainCmds(PRE4, port, gated), ChainCmds(FWD4, port, gated);
      ghost var c, d := ChainCmds(PRE6, port, gated), ChainCmds(FWD6, port, gated);
      RunAppend(faults, h0, a, b);
      RunAppend(faults, h0, a + b, c);
      RunAppend(faults, h0, a + b + c, d);
      ok := EnsureChain(PRE4, gated);
      if !ok { return; }
      ok := EnsureChain(FWD4, gated);
      if !ok { return; }
      ok := EnsureChain(PRE6, gated);
      if !ok { return; }
      ok := EnsureChain(FWD6, gated);
    }

    method RemoveJumps(scope: seq<string>, ghost rest: seq<Cmd>)
      modifies this`kernel, this`tick
      ensures RunCmds(faults, Now(), rest) == RunCmds(faults, old(Now()), Removals(gated, scope) + rest)
    {
      hide StepCmd, RunCmds, Removals, DropAll;
      ghost var h0 := Now();
      assert gated[0..] == gated;
      for i := 0 to |gated|
        invariant RunCmds(faults, Now(), Removals(gated[i..], scope) + rest)
               == RunCmds(faults, h0, Removals(gated, scope) + rest)
      {
        ghost var tail := Removals(gated[i + 1..], scope) + rest;
        NextRemoval(gated, i, scope, rest);
        if gated[i] !in scope {
          DropEach(gated[i], tail);
        }
      }
      NoRemoval(gated[|gated|..], scope, rest);
    }

    method DropEach(i: string, ghost tail: seq<Cmd>)
      modifies this`kernel, this`tick
      ensures RunCmds(faults, Now(), tail) == RunCmds(faults, old(Now()), DropAll(i) + tail)
    {
      hide StepCmd;
      ghost var h0 := Now();
      var slots := [PRE4, FWD4, PRE6, FWD6];
      assert DropAll(i)[0..] + tail == DropAll(i) + tail;
      for j := 0 to 4
        invariant RunCmds(faults, Now(), DropAll(i)[j..] + tail) == RunCmds(faults, h0, DropAll(i) + tail)
      {
        assert (DropAll(i)[j..] + tail)[1..] == DropAll(i)[j + 1..] + tail;
        DropGoesOn(faults, Now(), slots[j], i);
        var _ := Command(DropJump(slots[j], i));
      }
      assert DropAll(i)[4..] + tail == tail;
    }

    method EnsureEach(i: string, ghost tail: seq<Cmd>) returns (ok: bool)
      modifies this`kernel, this`tick
      ensures ok ==> RunCmds(faults, Now(), tail) == RunCmds(faults, old(Now()), EnsureAll(i) + tail)
      ensures !ok ==> (Now(), false) == RunCmds(faults, old(Now()), EnsureAll(i) + tail)
    {
      hide StepCmd;
      ghost var h0 := Now();
      var slots := [PRE4, FWD4, PRE6, FWD6];
      assert EnsureAll(i)[0..] + tail == EnsureAll(i) + tail;
      for j := 0 to 4
        invariant RunCmds(faults, Now(), EnsureAll(i)[j..] + tail) == RunCmds(faults, h0, EnsureAll(i) + tail)
      {
        assert (EnsureAll(i)[j..] + tail)[1..] == EnsureAll(i)[j + 1..] + tail;
        ok := EnsureJumpFor(slots[j], i);
        if !ok { return; }
      }
      assert EnsureAll(i)[4..] + tail == tail;
      ok := true;
    }

    /** Remove what is no longer gated, add what is newly gated, and only then record the new scope. */
    method SetGatedIfaces(ifaces: seq<string>) returns (ok: bool)
      modifies this
      ensures (State(), ok) == SetGated(faults, old(State()), ifaces)
    {
      hide RunCmds, Removals, EnsureAll;
      var scope := Filter(ifaces);
      var was := gated;
      ghost var h0 := Now();
      RemoveJumps(scope, Additions(was, scope));
      for i := 0 to |scope|
        invariant gated == was
        invariant RunCmds(faults, Now(), Additions(was, scope[i..])) == RunCmds(faults, h0, RescopeCmds(was, scope))
      {
        assert scope[i..][1..] == scope[i + 1..];
        ghost var tail := Additions(was, scope[i + 1..]);
        if scope[i] !in was {
          ok := EnsureEach(scope[i], tail);
          if !ok { return; }
        } else {
          assert [] + tail == tail;
        }
      }
      NoneLeft(faults, Now());
      gated := scope;
      ok := true;
    }
  }

  lemma NewChainGoesOn(f: Faults, h: Host, s: Slot)
    ensures StepCmd(f, h, NewChain(s)).1
  {
    hide Put;
  }

  lemma NextRemoval(was: seq<string>, i: nat, scope: seq<string>, rest: seq<Cmd>)
    requires i < |was|
    ensures var tail := Removals(was[i + 1..], scope) + rest;
            Removals(was[i..], scope) + rest == if was[i] in scope then tail else DropAll(was[i]) + tail
  {
    hide DropAll;
    assert was[i..][1..] == was[i + 1..];
  }

  lemma NoRemoval(was: seq<string>, scope: seq<string>, rest: seq<Cmd>)
    requires was == []
    ensures Removals(was, scope) + rest == rest
  {
  }

  lemma DropGoesOn(f: Faults, h: Host, s: Slot, i: string)
    ensures StepCmd(f, h, DropJump(s, i)).1
  {
    hide Put, Without;
  }

  lemma NoneLeft(f: Faults, h: Host)
    ensures RunCmds(f, h, []) == (h, true)
  {
  }

  class NftBackend {
    const fails: nat -> bool
    var table: Nft
    var tick: nat
    var gated: seq<string>

    constructor (fails: nat -> bool, table: Nft, ifaces: seq<string>)
      ensures this.fails == fails && this.table == table && gated == NonBlank(ifaces) && tick == 0
    {
      this.fails, this.table, tick := fails, table, 0;
      new;
      gated := Filter(ifaces);
    }

    /** One transaction: on any failure the table is as it was. */
    method ApplyJson(doc: seq<NftOp>) returns (ok: bool)
      modifies this`table, this`tick
      ensures ok <==> !fails(old(tick)) && ApplyDoc(old(table), doc).Some?
      ensures table == if ok then ApplyDoc(old(table), doc).value else old(table)
    {
      var done := ApplyDoc(table, doc);
      ok := !fails(tick) && done.Some?;
      if ok {
        table := done.value;
      }
      tick := tick + 1;
    }

    method EnsureBase() returns (ok: bool)
      modifies this`table, this`tick
      ensures ok && old(table).pre.Some? && old(table).fwd.Some? && old(table).sets.Some? ==>
                && table.sets == old(table).sets
                && table.pre == Some(old(table).pre.value + PreroutingRules(NonBlank(gated)))
                && table.fwd == Some(old(table).fwd.value + ForwardRules(NonBlank(gated)))
      ensures !ok ==> table == old(table)
    {
      hide BaseDoc, ApplyDoc, PreroutingRules, ForwardRules;
      var doc := BuildBase(gated);
      BaseApplies(table, gated);
      ok := ApplyJson(doc);
    }

    /** Apply, then publish: after a success the chains are those of a rebuild for the recorded scope and the sets are
        untouched; after a failure nothing changed. */
    method SetGatedIfaces(ifaces: seq<string>) returns (ok: bool)
      requires table.pre.Some? && table.fwd.Some?
      modifies this
      ensures ok <==> !fails(old(tick))
      ensures ok ==> gated == NonBlank(ifaces) && table.sets == old(table).sets
      ensures ok ==> table.pre == Some(PreroutingRules(gated)) && table.fwd == Some(ForwardRules(gated))
      ensures !ok ==> table == old(table) && gated == old(gated)
    {
      hide BaseDoc, RescopeDoc, ApplyDoc, PreroutingRules, ForwardRules;
      var scope := Filter(ifaces);
      var doc := BuildRescope(scope);
      RescopeRefinesRebuild(table, scope);
      BaseApplies(table, scope);
      NonBlankTwice(ifaces);
      ok := ApplyJson(doc);
      if ok {
        gated := scope;
      }
    }
  }

  lemma {:induction false} NonBlankTwice(ifaces: seq<string>)
    ensures NonBlank(NonBlank(ifaces)) == NonBlank(ifaces)
  {
    hide Trim;
    if ifaces != [] {
      var init := NonBlank(ifaces[..|ifaces| - 1]);
      NonBlankTwice(ifaces[..|ifaces| - 1]);
      var one := if Trim(ifaces[|ifaces| - 1]) == "" then [] else [ifaces[|ifaces| - 1]];
      assert one != [] ==> (init + one)[..|init + one| - 1] == init;
      assert one == [] ==> init + one == init;
    }
  }
}
