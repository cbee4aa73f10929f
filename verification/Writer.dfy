/** The writer actor: one owner of the backend, one request at a time in channel order, every failing operation tried
    once more. */
module Writer {
  import opened Text
  import opened Gate
  import opened Jumps
  import opened Rescope

  datatype Mutation =
    | EnsureBase
    | AddAuth(mac: string, ttl: nat)
    | DelAuth(mac: string)
    | SetScope(ifaces: seq<string>)
    | AddGarden(ips: seq<string>)

  datatype Request = Do(m: Mutation) | ListAuth | GetScope

  datatype Reply = Done | Elements(auth: map<string, nat>) | Scope(ifaces: seq<string>) | Refused

  /** What an all-or-nothing backend holds. */
  datatype Held = Held(ready: bool, auth: map<string, nat>, scope: seq<string>, garden: set<string>)

  function Effect(h: Held, m: Mutation): Held {
    match m
    case EnsureBase => h.(ready := true)
    case AddAuth(mac, ttl) => h.(auth := h.auth[mac := ttl])
    case DelAuth(mac) => h.(auth := h.auth - {mac})
    case SetScope(ifaces) => h.(scope := NonBlank(ifaces))
    case AddGarden(ips) => h.(garden := h.garden + set i | i in ips)
  }

  /** The backend, how often an operation was attempted on it, and the error counter. */
  datatype Owner = Owner(held: Held, attempts: nat, errors: nat)

  /** One attempt; `fails` tells which attempts the backend refuses, by their number. */
  function Attempt(fails: nat -> bool, o: Owner, m: Mutation): (Owner, bool) {
    var o1 := o.(attempts := o.attempts + 1);
    if fails(o.attempts) then (o1, false) else (o1.(held := Effect(o.held, m)), true)
  }

  function Mutate(fails: nat -> bool, o: Owner, m: Mutation): (Owner, Reply) {
    var (o1, ok1) := Attempt(fails, o, m);
    if ok1 then (o1, Done)
    else
      var (o2, ok2) := Attempt(fails, o1, m);
      if ok2 then (o2, Done) else (o2.(errors := o2.errors + 1), Refused)
  }

  function List(fails: nat -> bool, o: Owner): (Owner, Reply) {
    if !fails(o.attempts) then (o.(attempts := o.attempts + 1), Elements(o.held.auth))
    else if !fails(o.attempts + 1) then (o.(attempts := o.attempts + 2), Elements(o.held.auth))
    else (o.(attempts := o.attempts + 2, errors := o.errors + 1), Refused)
  }

  function Handle(fails: nat -> bool, o: Owner, r: Request): (Owner, Reply) {
    match r
    case Do(m) => Mutate(fails, o, m)
    case ListAuth => List(fails, o)
    case GetScope => (o, Scope(o.held.scope))
  }

  function Serve(fails: nat -> bool, o: Owner, rs: seq<Request>): (r: (Owner, seq<Reply>))
    ensures |r.1| == |rs|
  {
    if rs == [] then (o, [])
    else
      var (o1, replies) := Serve(fails, o, rs[..|rs| - 1]);
      var (o2, reply) := Handle(fails, o1, rs[|rs| - 1]);
      (o2, replies + [reply])
  }

  class WriterActor {
    const fails: nat -> bool
    var held: Held
    var attempts: nat
    var errors: nat

    constructor (fails: nat -> bool, held: Held)
      ensures this.fails == fails && Now() == Owner(held, 0, 0)
    {
      this.fails, this.held, attempts, errors := fails, held, 0, 0;
    }

    function Now(): Owner
      reads this
    {
      Owner(held, attempts, errors)
    }

    method Try(m: Mutation) returns (ok: bool)
      modifies this`held, this`attempts
      ensures (Now(), ok) == Attempt(fails, old(Now()), m)
    {
      ok := !fails(attempts);
      attempts := attempts + 1;
      if ok {
        held := Effect(held, m);
      }
    }

    /** Run once; on an error run exactly once more; count what is still an error. */
    method RetryOnce(m: Mutation) returns (reply: Reply)
      modifies this
      ensures (Now(), reply) == Mutate(fails, old(Now()), m)
    {
      var ok := Try(m);
      if !ok {
        ok := Try(m);
      }
      if !ok {
        errors := errors + 1;
      }
      reply := if ok then Done else Refused;
    }

    method ReadAuth() returns (reply: Reply)
      modifies this
      ensures (Now(), reply) == List(fails, old(Now()))
    {
      var ok := !fails(attempts);
      attempts := attempts + 1;
      if !ok {
        ok := !fails(attempts);
        attempts := attempts + 1;
      }
      if !ok {
        errors := errors + 1;
      }
      reply := if ok then Elements(held.auth) else Refused;
    }

    /** The owner's loop over the channel. */
    method Run(rs: seq<Request>) returns (replies: seq<Reply>)
      modifies this
      ensures (Now(), replies) == Serve(fails, old(Now()), rs)
    {
      hide Mutate, List;
      ghost var o := Now();
      replies := [];
      for i := 0 to |rs|
        invariant (Now(), replies) == Serve(fails, o, rs[..i])
      {
        assert rs[..i + 1][..i] == rs[..i];
        var reply: Reply;
        match rs[i] {
          case Do(m) => reply := RetryOnce(m);
          case ListAuth => reply := ReadAuth();
          case GetScope => reply := Scope(held.scope);
        }
        replies := replies + [reply];
      }
      assert rs[..|rs|] == rs;
    }
  }

  // --- linearization -------------------------------------------------------

  /** The mutations answered with success, applied in channel order. */
  function Fold(h: Held, rs: seq<Request>, replies: seq<Reply>): Held
    requires |rs| == |replies|
  {
    if rs == [] then h
    else
      var h1 := Fold(h, rs[..|rs| - 1], replies[..|rs| - 1]);
      if rs[|rs| - 1].Do? && replies[|rs| - 1] == Done then Effect(h1, rs[|rs| - 1].m) else h1
  }

  function Refusals(replies: seq<Reply>): nat {
    if replies == [] then 0
    else Refusals(replies[..|replies| - 1]) + (if replies[|replies| - 1] == Refused then 1 else 0)
  }

  /** For any requests in any channel order and any failures: what the backend holds is the fold of exactly the
      mutations answered with success, and every refusal was counted once. */
  lemma {:induction false} Linearizes(fails: nat -> bool, o: Owner, rs: seq<Request>)
    ensures var (o1, replies) := Serve(fails, o, rs);
            && o1.held == Fold(o.held, rs, replies)
            && o1.errors == o.errors + Refusals(replies)
  {
    hide Effect;
    if rs != [] {
      Linearizes(fails, o, rs[..|rs| - 1]);
      var (o1, replies) := Serve(fails, o, rs);
      assert replies[..|rs| - 1] == Serve(fails, o, rs[..|rs| - 1]).1;
    }
  }

  lemma {:induction false} ServePrefix(fails: nat -> bool, o: Owner, rs: seq<Request>, n: nat)
    requires n <= |rs|
    ensures Serve(fails, o, rs).1[..n] == Serve(fails, o, rs[..n]).1
  {
    hide Handle;
    if n < |rs| {
      ServePrefix(fails, o, rs[..|rs| - 1], n);
      assert rs[..|rs| - 1][..n] == rs[..n];
      assert Serve(fails, o, rs).1[..n] == Serve(fails, o, rs[..|rs| - 1]).1[..n];
    } else {
      assert rs[..n] == rs;
    }
  }

  /** Request `i`, seen from the state its predecessors left. A mutation is refused exactly when two attempts in a row
      failed, and then it changed nothing; answered with success it took one attempt, or two if the first failed, and
      had its effect once; a read returns the fold of the answered mutations before it. */
  lemma EachRequest(fails: nat -> bool, o: Owner, rs: seq<Request>, i: nat)
    requires i < |rs|
    ensures var before, after := Serve(fails, o, rs[..i]).0, Serve(fails, o, rs[..i + 1]).0;
            var (t, reply) := (before.attempts, Serve(fails, o, rs).1[i]);
            && (rs[i] != GetScope ==>
                  && (reply == Refused <==> fails(t) && fails(t + 1))
                  && after.attempts == t + (if fails(t) then 2 else 1)
                  && after.errors == before.errors + (if reply == Refused then 1 else 0))
            && after.held == (if rs[i].Do? && reply != Refused then Effect(before.held, rs[i].m) else before.held)
            && (rs[i] == ListAuth && reply != Refused ==>
                  reply == Elements(Fold(o.held, rs[..i], Serve(fails, o, rs).1[..i]).auth))
            && (rs[i] == GetScope ==>
                  after == before && reply == Scope(Fold(o.held, rs[..i], Serve(fails, o, rs).1[..i]).scope))
  {
    hide Effect, Fold, Refusals;
    ServePrefix(fails, o, rs, i);
    ServePrefix(fails, o, rs, i + 1);
    Linearizes(fails, o, rs[..i]);
    assert rs[..i + 1][..i] == rs[..i];
    assert Serve(fails, o, rs).1[i] == Serve(fails, o, rs).1[..i + 1][i];
  }

  // --- what the backend holds, on requests and replies alone ---------------

  const NOTHING := Held(false, map[], [], {})

  /** Request `i` is a mutation of `mac` that was answered with success. */
  predicate Touched(rs: seq<Request>, replies: seq<Reply>, i: nat, mac: string)
    requires i < |rs| == |replies|
  {
    && rs[i].Do? && replies[i] == Done
    && ((rs[i].m.AddAuth? && rs[i].m.mac == mac) || (rs[i].m.DelAuth? && rs[i].m.mac == mac))
  }

  /** The last such request is an addition with this time to live. */
  ghost predicate LastAdds(rs: seq<Request>, replies: seq<Reply>, mac: string, ttl: nat)
    requires |rs| == |replies|
  {
    exists i ::
      && 0 <= i < |rs| && Touched(rs, replies, i, mac) && rs[i] == Do(AddAuth(mac, ttl))
      && forall j :: i < j < |rs| ==> !Touched(rs, replies, j, mac)
  }

  predicate Rescoped(rs: seq<Request>, replies: seq<Reply>, i: nat)
    requires i < |rs| == |replies|
  {
    rs[i].Do? && rs[i].m.SetScope? && replies[i] == Done
  }

  /** `scope` is the non-blank part of the last scope set, or nothing when none was. */
  ghost predicate LastScope(rs: seq<Request>, replies: seq<Reply>, scope: seq<string>)
    requires |rs| == |replies|
  {
    || (scope == [] && forall i :: 0 <= i < |rs| ==> !Rescoped(rs, replies, i))
    || exists i ::
         && 0 <= i < |rs| && Rescoped(rs, replies, i) && scope == NonBlank(rs[i].m.ifaces)
         && forall j :: i < j < |rs| ==> !Rescoped(rs, replies, j)
  }

  ghost predicate Gardened(rs: seq<Request>, replies: seq<Reply>, ip: string)
    requires |rs| == |replies|
  {
    exists i :: 0 <= i < |rs| && rs[i].Do? && rs[i].m.AddGarden? && replies[i] == Done && ip in rs[i].m.ips
  }

  ghost predicate Bootstrapped(rs: seq<Request>, replies: seq<Reply>)
    requires |rs| == |replies|
  {
    exists i :: 0 <= i < |rs| && rs[i] == Do(EnsureBase) && replies[i] == Done
  }

  lemma FoldSnoc(h: Held, rs: seq<Request>, replies: seq<Reply>)
    requires |rs| == |replies| > 0
    ensures var (n, h1) := (|rs| - 1, Fold(h, rs[..|rs| - 1], replies[..|rs| - 1]));
            Fold(h, rs, replies) == if rs[n].Do? && replies[n] == Done then Effect(h1, rs[n].m) else h1
  {
    hide Effect;
  }

  lemma {:induction false} FoldAuth(rs: seq<Request>, replies: seq<Reply>, mac: string, ttl: nat)
    requires |rs| == |replies|
    ensures var auth := Fold(NOTHING, rs, replies).auth;
            (mac in auth && auth[mac] == ttl) <==> LastAdds(rs, replies, mac, ttl)
  {
    hide Fold;
    if rs == [] {
      FoldNothing();
    } else {
      var n := |rs| - 1;
      FoldSnoc(NOTHING, rs, replies);
      FoldAuth(rs[..n], replies[..n], mac, ttl);
      var auth := Fold(NOTHING, rs, replies).auth;
      if Touched(rs, replies, n, mac) {
        assert mac in auth && auth[mac] == ttl <==> rs[n] == Do(AddAuth(mac, ttl));
        if LastAdds(rs, replies, mac, ttl) {
          var i :| && 0 <= i < |rs| && Touched(rs, replies, i, mac) && rs[i] == Do(AddAuth(mac, ttl))
                   && forall j :: i < j < |rs| ==> !Touched(rs, replies, j, mac);
          assert i == n;
        }
      } else {
        PrefixAdds(rs, replies, mac, ttl);
      }
    }
  }

  lemma PrefixAdds(rs: seq<Request>, replies: seq<Reply>, mac: string, ttl: nat)
    requires |rs| == |replies| > 0 && !Touched(rs, replies, |rs| - 1, mac)
    ensures LastAdds(rs, replies, mac, ttl) <==> LastAdds(rs[..|rs| - 1], replies[..|rs| - 1], mac, ttl)
  {
    var n := |rs| - 1;
    var init, heads := rs[..n], replies[..n];
    forall i | 0 <= i < n ensures Touched(rs, replies, i, mac) <==> Touched(init, heads, i, mac) {
    }
    if LastAdds(rs, replies, mac, ttl) {
      var i :| && 0 <= i < |rs| && Touched(rs, replies, i, mac) && rs[i] == Do(AddAuth(mac, ttl))
               && forall j :: i < j < |rs| ==> !Touched(rs, replies, j, mac);
      assert i < n && init[i] == rs[i];
    }
    if LastAdds(init, heads, mac, ttl) {
      var i :| && 0 <= i < n && Touched(init, heads, i, mac) && init[i] == Do(AddAuth(mac, ttl))
               && forall j :: i < j < n ==> !Touched(init, heads, j, mac);
      assert rs[i] == Do(AddAuth(mac, ttl)) && Touched(rs, replies, i, mac);
    }
  }

  lemma FoldNothing()
    ensures Fold(NOTHING, [], []) == NOTHING
  {
  }

  lemma {:induction false} FoldScope(rs: seq<Request>, replies: seq<Reply>)
    requires |rs| == |replies|
    ensures LastScope(rs, replies, Fold(NOTHING, rs, replies).scope)
  {
    hide Fold, NonBlank;
    if rs == [] {
      FoldNothing();
    } else {
      var n := |rs| - 1;
      var init, heads := rs[..n], replies[..n];
      FoldSnoc(NOTHING, rs, replies);
      FoldScope(init, heads);
      var scope := Fold(NOTHING, rs, replies).scope;
      if !Rescoped(rs, replies, n) {
        assert scope == Fold(NOTHING, init, heads).scope;
        forall i | 0 <= i < n ensures Rescoped(rs, replies, i) <==> Rescoped(init, heads, i) {
        }
        if i :| && 0 <= i < n && Rescoped(init, heads, i) && scope == NonBlank(init[i].m.ifaces)
                && forall j :: i < j < n ==> !Rescoped(init, heads, j) {
          assert Rescoped(rs, replies, i) && scope == NonBlank(rs[i].m.ifaces);
        }
      }
    }
  }

  lemma {:induction false} FoldGarden(rs: seq<Request>, replies: seq<Reply>, ip: string)
    requires |rs| == |replies|
    ensures ip in Fold(NOTHING, rs, replies).garden <==> Gardened(rs, replies, ip)
    ensures Fold(NOTHING, rs, replies).ready <==> Bootstrapped(rs, replies)
  {
    hide Fold;
    if rs == [] {
      FoldNothing();
    } else {
      var n := |rs| - 1;
      FoldSnoc(NOTHING, rs, replies);
      FoldGarden(rs[..n], replies[..n], ip);
    }
  }

  /** What an owner that started empty holds after any requests, whichever attempts failed, told by the requests and
      their replies alone: an address is authorized, with that time to live, exactly when the last mutation of it
      answered with success is its addition; the scope is the non-blank part of the last one set; the garden is
      everything added to it; and the base is there once ensured. */
  lemma ServeHolds(fails: nat -> bool, rs: seq<Request>, mac: string, ttl: nat, ip: string)
    ensures var (o, replies) := Serve(fails, Owner(NOTHING, 0, 0), rs);
            && ((mac in o.held.auth && o.held.auth[mac] == ttl) <==> LastAdds(rs, replies, mac, ttl))
            && LastScope(rs, replies, o.held.scope)
            && (ip in o.held.garden <==> Gardened(rs, replies, ip))
            && (o.held.ready <==> Bootstrapped(rs, replies))
  {
    hide Serve, Fold, LastAdds, LastScope, Gardened, Bootstrapped;
    var replies := Serve(fails, Owner(NOTHING, 0, 0), rs).1;
    Linearizes(fails, Owner(NOTHING, 0, 0), rs);
    FoldAuth(rs, replies, mac, ttl);
    FoldScope(rs, replies);
    FoldGarden(rs, replies, ip);
  }

  /** What each read answers: exactly the addresses whose last successful mutation before it is their addition, and the
      last scope set before it. */
  lemma ReadsAnswer(fails: nat -> bool, rs: seq<Request>, i: nat, mac: string, ttl: nat)
    requires i < |rs|
    ensures var replies := Serve(fails, Owner(NOTHING, 0, 0), rs).1;
            && (rs[i] == ListAuth && replies[i] != Refused ==>
                  && replies[i].Elements?
                  && ((mac in replies[i].auth && replies[i].auth[mac] == ttl)
                      <==> LastAdds(rs[..i], replies[..i], mac, ttl)))
            && (rs[i] == GetScope ==> replies[i].Scope? && LastScope(rs[..i], replies[..i], replies[i].ifaces))
  {
    hide Serve, Fold, LastAdds, LastScope, Effect;
    var replies := Serve(fails, Owner(NOTHING, 0, 0), rs).1;
    EachRequest(fails, Owner(NOTHING, 0, 0), rs, i);
    FoldAuth(rs[..i], replies[..i], mac, ttl);
    FoldScope(rs[..i], replies[..i]);
  }

  // --- the same with the iptables backend, which is not all-or-nothing -----

  /** `retry_once` around a re-scope that may stop half way. */
  function Retried(f: Faults, b: Backend, ifaces: seq<string>): (Backend, bool) {
    var (b1, ok) := SetGated(f, b, ifaces);
    if ok then (b1, true) else SetGated(f, b1, ifaces)
  }

  function ServeScopes(f: Faults, b: Backend, reqs: seq<seq<string>>): (Backend, bool) {
    if reqs == [] then (b, true)
    else
      var (b1, ok) := ServeScopes(f, b, reqs[..|reqs| - 1]);
      var (b2, ok2) := Retried(f, b1, reqs[|reqs| - 1]);
      (b2, ok && ok2)
  }

  lemma RetriedExact(f: Faults, b: Backend, ifaces: seq<string>)
    requires Honest(f) && Exact(b.host.kernel, b.gated) && Retried(f, b, ifaces).1
    ensures var r := Retried(f, b, ifaces).0;
            Exact(r.host.kernel, r.gated) && r.gated == NonBlank(ifaces) && SameChains(r.host.kernel, b.host.kernel)
  {
    hide SetGated, Exact, SameChains, NonBlank;
    if SetGated(f, b, ifaces).1 {
      ExactIsBetween(b.host.kernel, b.gated, NonBlank(ifaces));
      RescopeExact(f, b, ifaces);
    } else {
      RetryExact(f, b, ifaces);
    }
  }

  /** Over any sequence of re-scopes all answered with success - first attempts failing wherever they did - the kernel
      ends with exactly the recorded scope, which is the last one asked for, and every packet is decided for it. */
  lemma {:induction false} ScopesFollow(f: Faults, b: Backend, reqs: seq<seq<string>>, port: nat, s: Sets, p: Packet)
    requires Honest(f) && Exact(b.host.kernel, b.gated) && Filled(b.host.kernel, port) && ServeScopes(f, b, reqs).1
    ensures var r := ServeScopes(f, b, reqs).0;
            && Exact(r.host.kernel, r.gated) && Filled(r.host.kernel, port)
            && r.gated == (if reqs == [] then b.gated else NonBlank(reqs[|reqs| - 1]))
            && (Decide(r.host.kernel, s, p, Forward) == Some(DropPacket) <==> Drops(r.gated, s, p))
            && (Decide(r.host.kernel, s, p, Prerouting) == Some(RedirectTo(port)) <==> Redirects(r.gated, s, p))
  {
    hide Retried, Exact, SameChains, NonBlank, Decide, Exempt, Filled, Scoped;
    if reqs == [] {
      ExactDecides(b.host.kernel, b.gated, s, p, port);
    } else {
      ScopesFollow(f, b, reqs[..|reqs| - 1], port, s, p);
      var b1 := ServeScopes(f, b, reqs[..|reqs| - 1]).0;
      RetriedExact(f, b1, reqs[|reqs| - 1]);
      var r := ServeScopes(f, b, reqs).0;
      StillFilled(r.host.kernel, b1.host.kernel, port);
      ExactDecides(r.host.kernel, r.gated, s, p, port);
    }
  }

  lemma StillFilled(a: Kernel, b: Kernel, port: nat)
    requires SameChains(a, b) && Filled(b, port)
    ensures Filled(a, port)
  {
    hide RulesOf, At;
  }

  lemma ExactDecides(k: Kernel, scope: seq<string>, s: Sets, p: Packet, port: nat)
    requires Exact(k, scope) && Filled(k, port)
    ensures Decide(k, s, p, Forward) == Some(DropPacket) <==> Drops(scope, s, p)
    ensures Decide(k, s, p, Prerouting) == Some(RedirectTo(port)) <==> Redirects(scope, s, p)
  {
    hide Exact, Filled, Decide, Exempt, Scoped;
    ExactIsScoped(k, scope);
    Decides(k, scope, s, p, port);
  }
}
