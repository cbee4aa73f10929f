/** Per-device byte metering: documents that are re-applied every poll, folded over the kernel's counters and rules. */
module DeviceMeter {
  import opened Text

  datatype Direction = Saddr | Daddr

  datatype MeterRule = MeterRule(dir: Direction, ip: string, counter: string)

  /** The metering chain and the named counter objects of the owned table. */
  datatype Meter = Meter(chain: Option<seq<MeterRule>>, counters: map<string, nat>)

  datatype Op = AddChain | FlushChain | AddCounter(name: string) | AddRule(rule: MeterRule) | DelCounter(name: string)

  const UL_PREFIX := "pc_dev_ul_"
  const DL_PREFIX := "pc_dev_dl_"

  function Sanitize(ip: string): string {
    if ip == "" then "" else [if IsAlphaNum(ip[0]) then ip[0] else '_'] + Sanitize(ip[1..])
  }

  function Up(ip: string): string { UL_PREFIX + Sanitize(ip) }

  function Down(ip: string): string { DL_PREFIX + Sanitize(ip) }

  lemma {:induction false} SanitizeIs(ip: string)
    ensures |Sanitize(ip)| == |ip|
    ensures forall i :: 0 <= i < |ip| ==> Sanitize(ip)[i] == if IsAlphaNum(ip[i]) then ip[i] else '_'
    decreases ip
  {
    hide IsAlphaNum;
    if ip != "" {
      SanitizeIs(ip[1..]);
    }
  }

  /** A counter's name: its prefix, then the address with every character but letters and digits made an underscore. */
  lemma NameIs(ip: string)
    ensures |Up(ip)| == 10 + |ip| && Up(ip)[..10] == "pc_dev_ul_"
    ensures |Down(ip)| == 10 + |ip| && Down(ip)[..10] == "pc_dev_dl_"
    ensures Up(ip)[10..] == Down(ip)[10..]
    ensures forall i :: 0 <= i < |ip| ==> Up(ip)[10..][i] == if IsAlphaNum(ip[i]) then ip[i] else '_'
  {
    hide IsAlphaNum, Sanitize;
    SanitizeIs(ip);
    assert Up(ip)[10..] == Sanitize(ip) && Down(ip)[10..] == Sanitize(ip);
  }

  predicate Refers(rules: seq<MeterRule>, name: string) {
    exists i :: 0 <= i < |rules| && rules[i].counter == name
  }

  /** A flush needs its chain, a rule its chain and its counter; a counter that a rule still refers to cannot be
      deleted, and neither can one that is not there. */
  function ApplyOp(m: Meter, op: Op): Option<Meter> {
    match op
    case AddChain => Some(if m.chain.Some? then m else m.(chain := Some([])))
    case FlushChain => if m.chain.Some? then Some(m.(chain := Some([]))) else None
    case AddCounter(n) => Some(if n in m.counters then m else m.(counters := m.counters[n := 0]))
    case AddRule(r) =>
      if m.chain.Some? && r.counter in m.counters then Some(m.(chain := Some(m.chain.value + [r]))) else None
    case DelCounter(n) =>
      if n in m.counters && (m.chain.Some? ==> !Refers(m.chain.value, n)) then Some(m.(counters := m.counters - {n}))
      else None
  }

  /** One transaction. */
  function Apply(m: Meter, doc: seq<Op>): Option<Meter>
    decreases doc
  {
    if doc == [] then Some(m)
    else match ApplyOp(m, doc[0]) case None => None case Some(m1) => Apply(m1, doc[1..])
  }

  // --- the documents -------------------------------------------------------

  function IpOps(raw: string): seq<Op> {
    var ip := Trim(raw);
    if ip == "" then []
    else
      [AddCounter(Up(ip)), AddCounter(Down(ip)), AddRule(MeterRule(Saddr, ip, Up(ip))),
       AddRule(MeterRule(Daddr, ip, Down(ip)))]
  }

  function AllIpOps(ips: seq<string>): seq<Op> {
    if ips == [] then [] else AllIpOps(ips[..|ips| - 1]) + IpOps(ips[|ips| - 1])
  }

  function ReconcileDoc(ips: seq<string>): seq<Op> {
    [AddChain, FlushChain] + AllIpOps(ips)
  }

  function DelOps(raw: string): seq<Op> {
    var ip := Trim(raw);
    if ip == "" then [] else [DelCounter(Up(ip)), DelCounter(Down(ip))]
  }

  function PruneDoc(ips: seq<string>): seq<Op> {
    if ips == [] then [] else PruneDoc(ips[..|ips| - 1]) + DelOps(ips[|ips| - 1])
  }

  method BuildReconcile(ips: seq<string>) returns (doc: seq<Op>)
    ensures doc == ReconcileDoc(ips)
  {
    hide Trim, Sanitize;
    doc := [AddChain, FlushChain];
    for i := 0 to |ips|
      invariant doc == ReconcileDoc(ips[..i])
    {
      assert ips[..i + 1][..i] == ips[..i];
      var ip := Trim(ips[i]);
      if ip != "" {
        doc := doc + [AddCounter(Up(ip)), AddCounter(Down(ip)), AddRule(MeterRule(Saddr, ip, Up(ip))),
                      AddRule(MeterRule(Daddr, ip, Down(ip)))];
      }
    }
    assert ips[..|ips|] == ips;
  }

  /** `None` when there is nothing to delete. */
  method BuildPrune(ips: seq<string>) returns (doc: Option<seq<Op>>)
    ensures doc == if PruneDoc(ips) == [] then None else Some(PruneDoc(ips))
  {
    hide Trim, Sanitize;
    var ops := [];
    for i := 0 to |ips|
      invariant ops == PruneDoc(ips[..i])
    {
      assert ips[..i + 1][..i] == ips[..i];
      var ip := Trim(ips[i]);
      if ip != "" {
        ops := ops + [DelCounter(Up(ip)), DelCounter(Down(ip))];
      }
    }
    assert ips[..|ips|] == ips;
    doc := if ops == [] then None else Some(ops);
  }

  /** The current addresses: trimmed, not empty, sorted, each once. */
  method CollectIps(raws: seq<string>) returns (ips: seq<string>)
    ensures Ascending(ips)
    ensures forall x :: x in ips <==> x != "" && exists i :: 0 <= i < |raws| && Trim(raws[i]) == x
  {
    hide Trim, Ascending;
    ips := [];
    assert Ascending([]) by { NoneAscending(); }
    for i := 0 to |raws|
      invariant Ascending(ips)
      invariant forall x :: x in ips <==> x != "" && exists j :: 0 <= j < i && Trim(raws[j]) == x
    {
      var ip := Trim(raws[i]);
      if ip != "" && ip !in ips {
        ips := InsertAscending(ips, ip);
      }
    }
  }

  lemma NoneAscending()
    ensures Ascending([])
  {
  }

  // --- counter names -------------------------------------------------------

  /** An address made of digits and dots. */
  predicate Dotted(ip: string) {
    ip != "" && forall c :: c in ip ==> IsDigit(c) || c == '.'
  }

  lemma {:induction false} SanitizeInjective(a: string, b: string)
    requires forall c :: c in a || c in b ==> IsDigit(c) || c == '.'
    requires Sanitize(a) == Sanitize(b)
    ensures a == b
  {
    if a != "" && b != "" {
      assert Sanitize(a)[0] == Sanitize(b)[0] && a[0] in a && b[0] in b;
      assert Sanitize(a)[1..] == Sanitize(a[1..]) && Sanitize(b)[1..] == Sanitize(b[1..]);
      SanitizeInjective(a[1..], b[1..]);
      assert a == [a[0]] + a[1..] && b == [b[0]] + b[1..];
    }
  }

  /** On dotted addresses the names tell addresses and directions apart. */
  lemma NamesApart(a: string, b: string)
    requires Dotted(a) && Dotted(b)
    ensures (Up(a) == Up(b) <==> a == b) && (Down(a) == Down(b) <==> a == b) && Up(a) != Down(b)
  {
    hide Sanitize;
    assert Up(a)[7] == 'u' && Down(b)[7] == 'd';
    assert Up(a)[10..] == Sanitize(a) && Up(b)[10..] == Sanitize(b);
    assert Down(a)[10..] == Sanitize(a) && Down(b)[10..] == Sanitize(b);
    if Sanitize(a) == Sanitize(b) {
      SanitizeInjective(a, b);
    }
  }

  /** Off them they do not: these two share both counters. */
  lemma NamesClash()
    ensures Up("10.0.0.1") == Up("10_0_0.1") && Down("10.0.0.1") == Down("10_0_0.1")
  {
    SanitizeEqual("10.0.0.1", "10_0_0.1");
  }

  lemma {:induction false} SanitizeEqual(a: string, b: string)
    requires |a| == |b| && forall i :: 0 <= i < |a| ==> a[i] == b[i] || (!IsAlphaNum(a[i]) && !IsAlphaNum(b[i]))
    ensures Sanitize(a) == Sanitize(b)
  {
    if a != "" {
      SanitizeEqual(a[1..], b[1..]);
    }
  }

  lemma DottedTrim(ip: string)
    requires Dotted(ip)
    ensures Trim(ip) == ip
  {
    assert ip[0] in ip && ip[|ip| - 1] in ip;
  }

  predicate AllDotted(ips: seq<string>) {
    forall ip :: ip in ips ==> Dotted(ip)
  }

  predicate Once(ips: seq<string>) {
    forall i, j :: 0 <= i < j < |ips| ==> ips[i] != ips[j]
  }

  lemma AscendingOnce(ips: seq<string>)
    requires Ascending(ips)
    ensures Once(ips)
  {
    hide Before;
    forall i, j | 0 <= i < j < |ips| ensures ips[i] != ips[j] {
      BeforeIrreflexive(ips[i]);
    }
  }

  // --- what the documents leave --------------------------------------------

  function RulesOf(ip: string): seq<MeterRule> {
    [MeterRule(Saddr, ip, Up(ip)), MeterRule(Daddr, ip, Down(ip))]
  }

  /** Two rules per address. */
  function RulesFor(ips: seq<string>): seq<MeterRule> {
    if ips == [] then [] else RulesFor(ips[..|ips| - 1]) + RulesOf(ips[|ips| - 1])
  }

  function AddName(c: map<string, nat>, n: string): map<string, nat> {
    if n in c then c else c[n := 0]
  }

  function WithNames(c: map<string, nat>, ips: seq<string>): map<string, nat> {
    if ips == [] then c
    else AddName(AddName(WithNames(c, ips[..|ips| - 1]), Up(ips[|ips| - 1])), Down(ips[|ips| - 1]))
  }

  lemma {:induction false} ApplyAppend(m: Meter, a: seq<Op>, b: seq<Op>)
    requires Apply(m, a).Some?
    ensures Apply(m, a + b) == Apply(Apply(m, a).value, b)
    decreases a
  {
    hide ApplyOp;
    if a == [] {
      assert a + b == b;
    } else {
      assert (a + b)[1..] == a[1..] + b;
      ApplyAppend(ApplyOp(m, a[0]).value, a[1..], b);
    }
  }

  lemma Apply2(m: Meter, x: Op, y: Op)
    ensures Apply(m, [x, y]) == match ApplyOp(m, x) case None => None case Some(m1) => ApplyOp(m1, y)
  {
    hide ApplyOp;
    assert [x, y][1..] == [y];
    if ApplyOp(m, x).Some? {
      ApplyOne(ApplyOp(m, x).value, y);
    }
  }

  lemma ApplyOne(m: Meter, y: Op)
    ensures Apply(m, [y]) == ApplyOp(m, y)
  {
    hide ApplyOp;
    assert [y][1..] == [];
  }

  lemma IpApplies(rs: seq<MeterRule>, c: map<string, nat>, ip: string)
    requires Dotted(ip)
    ensures Apply(Meter(Some(rs), c), IpOps(ip))
         == Some(Meter(Some(rs + RulesOf(ip)), AddName(AddName(c, Up(ip)), Down(ip))))
  {
    hide Apply, Trim, Up, Down;
    DottedTrim(ip);
    var c2 := AddName(AddName(c, Up(ip)), Down(ip));
    var a := [AddCounter(Up(ip)), AddCounter(Down(ip))];
    var b := [AddRule(MeterRule(Saddr, ip, Up(ip))), AddRule(MeterRule(Daddr, ip, Down(ip)))];
    Apply2(Meter(Some(rs), c), a[0], a[1]);
    Apply2(Meter(Some(rs), c2), b[0], b[1]);
    ApplyAppend(Meter(Some(rs), c), a, b);
    assert IpOps(ip) == a + b;
    assert rs + [MeterRule(Saddr, ip, Up(ip))] + [MeterRule(Daddr, ip, Down(ip))] == rs + RulesOf(ip);
  }

  lemma {:induction false} IpsApply(c: map<string, nat>, ips: seq<string>)
    requires AllDotted(ips)
    ensures Apply(Meter(Some([]), c), AllIpOps(ips)) == Some(Meter(Some(RulesFor(ips)), WithNames(c, ips)))
  {
    hide IpOps, RulesOf, AddName, Dotted;
    if ips != [] {
      var init, ip := ips[..|ips| - 1], ips[|ips| - 1];
      assert ip in ips;
      IpsApply(c, init);
      ApplyAppend(Meter(Some([]), c), AllIpOps(init), IpOps(ip));
      IpApplies(RulesFor(init), WithNames(c, init), ip);
    }
  }

  /** Re-applied to any table: exactly two rules per current address, every counter kept as it was, a new one only
      where there was none. */
  lemma ReconcileApplies(m: Meter, ips: seq<string>)
    requires AllDotted(ips)
    ensures Apply(m, ReconcileDoc(ips)) == Some(Meter(Some(RulesFor(ips)), WithNames(m.counters, ips)))
  {
    hide AllIpOps, RulesFor, WithNames;
    Apply2(m, AddChain, FlushChain);
    ApplyAppend(m, [AddChain, FlushChain], AllIpOps(ips));
    IpsApply(m.counters, ips);
  }

  ghost predicate NamedBy(ips: seq<string>, n: string) {
    exists ip :: ip in ips && (n == Up(ip) || n == Down(ip))
  }

  lemma {:induction false} WithNamesAt(c: map<string, nat>, ips: seq<string>, n: string)
    ensures n in WithNames(c, ips) <==> n in c || NamedBy(ips, n)
    ensures n in WithNames(c, ips) ==> WithNames(c, ips)[n] == if n in c then c[n] else 0
  {
    hide Up, Down;
    if ips != [] {
      var init, ip := ips[..|ips| - 1], ips[|ips| - 1];
      assert ips == init + [ip];
      WithNamesAt(c, init, n);
      assert NamedBy(ips, n) <==> NamedBy(init, n) || n == Up(ip) || n == Down(ip) by {
        NamedSnoc(init, ip, n);
      }
    }
  }

  lemma NamedSnoc(init: seq<string>, ip: string, n: string)
    ensures NamedBy(init + [ip], n) <==> NamedBy(init, n) || n == Up(ip) || n == Down(ip)
  {
    hide Up, Down;
    if NamedBy(init, n) {
      var x :| x in init && (n == Up(x) || n == Down(x));
      assert x in init + [ip];
    }
    if n == Up(ip) || n == Down(ip) {
      assert ip in init + [ip];
    }
  }

  lemma {:induction false} RulesRefer(ips: seq<string>, n: string)
    ensures Refers(RulesFor(ips), n) <==> NamedBy(ips, n)
  {
    hide Up, Down;
    if ips != [] {
      var init, ip := ips[..|ips| - 1], ips[|ips| - 1];
      assert ips == init + [ip];
      RulesRefer(init, n);
      NamedSnoc(init, ip, n);
      RefersAppend(RulesFor(init), ip, n);
    }
  }

  lemma RefersAppend(rs: seq<MeterRule>, ip: string, n: string)
    ensures Refers(rs + RulesOf(ip), n) <==> Refers(rs, n) || n == Up(ip) || n == Down(ip)
  {
    hide Up, Down;
    var all := rs + RulesOf(ip);
    assert all[|rs|].counter == Up(ip) && all[|rs| + 1].counter == Down(ip);
    if Refers(rs, n) {
      var i :| 0 <= i < |rs| && rs[i].counter == n;
      assert all[i].counter == n;
    }
  }

  /** Neither named nor referenced: free to go. */
  ghost predicate Prunable(m: Meter, ips: seq<string>) {
    && m.chain.Some?
    && forall ip :: ip in ips ==>
         && Up(ip) in m.counters && Down(ip) in m.counters
         && !Refers(m.chain.value, Up(ip)) && !Refers(m.chain.value, Down(ip))
  }

  function WithoutNames(c: map<string, nat>, ips: seq<string>): map<string, nat> {
    if ips == [] then c else WithoutNames(c, ips[..|ips| - 1]) - {Up(ips[|ips| - 1])} - {Down(ips[|ips| - 1])}
  }

  lemma {:induction false} WithoutNamesAt(c: map<string, nat>, ips: seq<string>, n: string)
    ensures n in WithoutNames(c, ips) <==> n in c && !NamedBy(ips, n)
    ensures n in WithoutNames(c, ips) ==> WithoutNames(c, ips)[n] == c[n]
  {
    hide Up, Down;
    if ips != [] {
      var init, ip := ips[..|ips| - 1], ips[|ips| - 1];
      assert ips == init + [ip];
      WithoutNamesAt(c, init, n);
      NamedSnoc(init, ip, n);
    }
  }

  lemma {:induction false} PruneApplies(m: Meter, ips: seq<string>)
    requires AllDotted(ips) && Once(ips) && Prunable(m, ips)
    ensures Apply(m, PruneDoc(ips)) == Some(m.(counters := WithoutNames(m.counters, ips)))
  {
    hide DelOps, Dotted, Up, Down, Refers;
    if ips != [] {
      var init, ip := ips[..|ips| - 1], ips[|ips| - 1];
      assert ip in ips && AllDotted(init) && Once(init);
      assert Prunable(m, init) by { assert forall x :: x in init ==> x in ips; }
      PruneApplies(m, init);
      ApplyAppend(m, PruneDoc(init), DelOps(ip));
      NotNamed(ips);
      WithoutNamesAt(m.counters, init, Up(ip));
      WithoutNamesAt(m.counters, init, Down(ip));
      DelApplies(m.(counters := WithoutNames(m.counters, init)), ip);
    }
  }

  lemma NotNamed(ips: seq<string>)
    requires ips != [] && AllDotted(ips) && Once(ips)
    ensures !NamedBy(ips[..|ips| - 1], Up(ips[|ips| - 1])) && !NamedBy(ips[..|ips| - 1], Down(ips[|ips| - 1]))
  {
    hide Up, Down, Dotted;
    var init, ip := ips[..|ips| - 1], ips[|ips| - 1];
    forall x | x in init ensures Up(ip) != Up(x) && Up(ip) != Down(x) && Down(ip) != Up(x) && Down(ip) != Down(x) {
      assert x in ips && ip in ips && x != ip;
      NamesApart(x, ip);
      NamesApart(ip, x);
    }
  }

  lemma DelApplies(m: Meter, ip: string)
    requires Dotted(ip) && Up(ip) in m.counters && Down(ip) in m.counters && m.chain.Some?
    requires !Refers(m.chain.value, Up(ip)) && !Refers(m.chain.value, Down(ip))
    ensures Apply(m, DelOps(ip)) == Some(m.(counters := m.counters - {Up(ip)} - {Down(ip)}))
  {
    hide Apply, Trim, Up, Down, Refers;
    DottedTrim(ip);
    NamesApart(ip, ip);
    Apply2(m, DelCounter(Up(ip)), DelCounter(Down(ip)));
  }

  // --- polling -------------------------------------------------------------

  /** The table, and the addresses the poller remembers from the previous tick. */
  datatype Poller = Poller(meter: Meter, known: seq<string>)

  const START := Poller(Meter(None, map[]), [])

  function Stale(known: seq<string>, current: seq<string>): seq<string> {
    if known == [] then []
    else Stale(known[..|known| - 1], current) + (if known[|known| - 1] in current then [] else [known[|known| - 1]])
  }

  function ApplyOr(m: Meter, doc: seq<Op>): Meter {
    match Apply(m, doc) case Some(m1) => m1 case None => m
  }

  /** A document that is not run at all is a document that changes nothing. */
  function ApplyIf(m: Meter, doc: seq<Op>, runs: bool): Meter {
    if runs then ApplyOr(m, doc) else m
  }

  /** Reconcile to the current addresses, then prune those of the previous tick that are gone; either run of `nft` may
      fail, and neither failure stops the poll. */
  function Reconciled(m: Meter, known: seq<string>, current: seq<string>, reconciles: bool, prunes: bool): Meter {
    ApplyIf(ApplyIf(m, ReconcileDoc(current), reconciles), PruneDoc(Stale(known, current)), prunes)
  }

  /** Bytes of one packet, counted by every rule that matches it. */
  function CountAll(c: map<string, nat>, rules: seq<MeterRule>, src: string, dst: string, bytes: nat)
    : map<string, nat>
  {
    if rules == [] then c
    else
      var c1, r := CountAll(c, rules[..|rules| - 1], src, dst, bytes), rules[|rules| - 1];
      if r.counter in c1 && r.ip == (if r.dir == Saddr then src else dst) then c1[r.counter := c1[r.counter] + bytes]
      else c1
  }

  function Carried(m: Meter, src: string, dst: string, bytes: nat): Meter {
    if m.chain.None? then m else m.(counters := CountAll(m.counters, m.chain.value, src, dst, bytes))
  }

  /** A poll, with which of its two documents `nft` runs; a restart of the daemon, which forgets what the table still
      holds; a forwarded packet. */
  datatype Event =
    | Poll(current: seq<string>, reconciles: bool, prunes: bool)
    | Restart
    | Traffic(src: string, dst: string, bytes: nat)

  function Step(p: Poller, ev: Event): Poller {
    match ev
    case Poll(current, reconciles, prunes) =>
      Poller(Reconciled(p.meter, p.known, current, reconciles, prunes), current)
    case Restart => p.(known := [])
    case Traffic(src, dst, bytes) => p.(meter := Carried(p.meter, src, dst, bytes))
  }

  function Run(p: Poller, evs: seq<Event>): Poller {
    if evs == [] then p else Step(Run(p, evs[..|evs| - 1]), evs[|evs| - 1])
  }

  class DevicePoller {
    var meter: Meter
    var known: seq<string>

    constructor ()
      ensures State() == START
    {
      meter, known := Meter(None, map[]), [];
    }

    function State(): Poller
      reads this
    {
      Poller(meter, known)
    }

    method ReconcileCounters(current: seq<string>, reconciles: bool, prunes: bool)
      modifies this`meter
      ensures meter == Reconciled(old(meter), known, current, reconciles, prunes)
    {
      hide ReconcileDoc, PruneDoc, Apply;
      var doc := BuildReconcile(current);
      meter := ApplyIf(meter, doc, reconciles);
      var stale := [];
      for i := 0 to |known|
        invariant stale == Stale(known[..i], current)
        invariant meter == ApplyIf(old(meter), ReconcileDoc(current), reconciles)
      {
        assert known[..i + 1][..i] == known[..i];
        if known[i] !in current {
          stale := stale + [known[i]];
        }
      }
      assert known[..|known|] == known;
      var prune := BuildPrune(stale);
      if prune.Some? {
        meter := ApplyIf(meter, prune.value, prunes);
      } else {
        NothingApplied(meter);
      }
    }

    /** One tick over the addresses of the committed reservations. They cannot be read only when the provisioner is
        gone; the memory is then empty, as after a restart. */
    method PollOnce(reservations: Option<seq<string>>, reconciles: bool, prunes: bool) returns (current: seq<string>)
      modifies this
      ensures reservations.None? ==> State() == Step(old(State()), Restart)
      ensures reservations.Some? ==> State() == Step(old(State()), Poll(current, reconciles, prunes))
      ensures reservations.Some? ==> Ascending(current) && Once(current)
      ensures reservations.Some? ==>
                forall x :: x in current <==>
                  x != "" && exists i :: 0 <= i < |reservations.value| && Trim(reservations.value[i]) == x
    {
      hide Reconciled, Trim, Ascending;
      current := [];
      if reservations.None? {
        known := [];
        return;
      }
      current := CollectIps(reservations.value);
      AscendingOnce(current);
      ReconcileCounters(current, reconciles, prunes);
      known := current;
    }
  }

  lemma NothingApplied(m: Meter)
    ensures ApplyOr(m, []) == m
  {
  }

  // --- what every run keeps ------------------------------------------------

  /** Exactly the rules and exactly the counters of the remembered addresses. */
  ghost predicate Tracks(p: Poller) {
    && AllDotted(p.known) && Once(p.known)
    && (p.meter.chain == Some(RulesFor(p.known)) || (p.meter.chain == None && p.known == []))
    && forall n :: n in p.meter.counters <==> NamedBy(p.known, n)
  }

  /** The two totals a report shows for an address. */
  function BytesForIp(c: map<string, nat>, ip: string): (nat, nat) {
    (if Up(ip) in c then c[Up(ip)] else 0, if Down(ip) in c then c[Down(ip)] else 0)
  }

  lemma {:induction false} StaleIs(known: seq<string>, current: seq<string>)
    requires Once(known)
    ensures forall ip :: ip in Stale(known, current) <==> ip in known && ip !in current
    ensures Once(Stale(known, current))
  {
    if known != [] {
      var init, x := known[..|known| - 1], known[|known| - 1];
      assert known == init + [x];
      StaleIs(init, current);
    }
  }

  lemma DottedNamed(ips: seq<string>, ip: string)
    requires AllDotted(ips) && Dotted(ip)
    ensures (NamedBy(ips, Up(ip)) <==> ip in ips) && (NamedBy(ips, Down(ip)) <==> ip in ips)
  {
    hide Up, Down, Dotted;
    forall x | x in ips
      ensures (Up(x) == Up(ip) <==> x == ip) && (Down(x) == Down(ip) <==> x == ip)
      ensures Up(x) != Down(ip) && Down(x) != Up(ip)
    {
      NamesApart(x, ip);
      NamesApart(ip, x);
    }
  }

  /** The prune of a tick applies: what it deletes is there and no rule refers to it. */
  lemma StalePrunable(p: Poller, current: seq<string>)
    requires Tracks(p) && AllDotted(current)
    ensures Prunable(Meter(Some(RulesFor(current)), WithNames(p.meter.counters, current)), Stale(p.known, current))
    ensures AllDotted(Stale(p.known, current)) && Once(Stale(p.known, current))
  {
    hide Up, Down, Dotted, WithNames, RulesFor, Stale, Refers, NamedBy;
    StaleIs(p.known, current);
    forall ip | ip in Stale(p.known, current)
      ensures Up(ip) in WithNames(p.meter.counters, current) && Down(ip) in WithNames(p.meter.counters, current)
      ensures !Refers(RulesFor(current), Up(ip)) && !Refers(RulesFor(current), Down(ip))
    {
      DottedNamed(p.known, ip);
      DottedNamed(current, ip);
      WithNamesAt(p.meter.counters, current, Up(ip));
      WithNamesAt(p.meter.counters, current, Down(ip));
      RulesRefer(current, Up(ip));
      RulesRefer(current, Down(ip));
    }
  }

  lemma PollLeaves(p: Poller, current: seq<string>)
    requires Tracks(p) && AllDotted(current)
    ensures Reconciled(p.meter, p.known, current, true, true)
         == Meter(Some(RulesFor(current)), WithoutNames(WithNames(p.meter.counters, current), Stale(p.known, current)))
  {
    hide Tracks, AllDotted, RulesFor, WithNames, WithoutNames, Stale, ReconcileDoc, PruneDoc, Prunable, Once;
    ReconcileApplies(p.meter, current);
    StalePrunable(p, current);
    PruneApplies(Meter(Some(RulesFor(current)), WithNames(p.meter.counters, current)), Stale(p.known, current));
  }

  lemma StaleNames(known: seq<string>, current: seq<string>, n: string)
    requires AllDotted(known) && AllDotted(current) && Once(known)
    ensures NamedBy(current, n) ==> !NamedBy(Stale(known, current), n)
    ensures NamedBy(known, n) ==> NamedBy(current, n) || NamedBy(Stale(known, current), n)
  {
    hide Up, Down, Dotted, Stale;
    StaleIs(known, current);
    if x :| x in current && (n == Up(x) || n == Down(x)) {
      DottedNamed(Stale(known, current), x);
    }
  }

  /** An address that stays keeps its totals; one that is new starts at zero. */
  lemma PollKeepsTotals(p: Poller, current: seq<string>, ip: string)
    requires Tracks(p) && AllDotted(current) && Once(current) && ip in current
    ensures BytesForIp(Step(p, Poll(current, true, true)).meter.counters, ip)
         == if ip in p.known then BytesForIp(p.meter.counters, ip) else (0, 0)
  {
    hide Up, Down, Once, Reconciled, RulesFor, WithNames, WithoutNames, Stale, NamedBy, Dotted;
    PollLeaves(p, current);
    var c := WithNames(p.meter.counters, current);
    forall n | n == Up(ip) || n == Down(ip)
      ensures n in WithoutNames(c, Stale(p.known, current))
      ensures WithoutNames(c, Stale(p.known, current))[n] == if n in p.meter.counters then p.meter.counters[n] else 0
      ensures n in p.meter.counters <==> ip in p.known
    {
      WithoutNamesAt(c, Stale(p.known, current), n);
      WithNamesAt(p.meter.counters, current, n);
      StaleNames(p.known, current, n);
      DottedNamed(current, ip);
      DottedNamed(p.known, ip);
    }
  }

  // --- traffic -------------------------------------------------------------

  lemma {:induction false} CountKeys(c: map<string, nat>, rules: seq<MeterRule>, src: string, dst: string, bytes: nat)
    ensures CountAll(c, rules, src, dst, bytes).Keys == c.Keys
  {
    if rules != [] {
      CountKeys(c, rules[..|rules| - 1], src, dst, bytes);
    }
  }

  lemma CountSnoc(c: map<string, nat>, rs: seq<MeterRule>, r: MeterRule, src: string, dst: string, bytes: nat)
    ensures var c1, c2 := CountAll(c, rs, src, dst, bytes), CountAll(c, rs + [r], src, dst, bytes);
            var hit := r.counter in c1 && r.ip == (if r.dir == Saddr then src else dst);
            c2 == if hit then c1[r.counter := c1[r.counter] + bytes] else c1
  {
    assert (rs + [r])[..|rs|] == rs;
  }

  lemma CountTwo(c: map<string, nat>, rs: seq<MeterRule>, ip: string, src: string, dst: string, bytes: nat)
    requires Dotted(ip)
    requires Up(ip) in c && Down(ip) in c
    ensures var c1, c2 := CountAll(c, rs, src, dst, bytes), CountAll(c, rs + RulesOf(ip), src, dst, bytes);
            && c1.Keys == c.Keys && c2.Keys == c.Keys
            && c2[Up(ip)] == c1[Up(ip)] + (if ip == src then bytes else 0)
            && c2[Down(ip)] == c1[Down(ip)] + (if ip == dst then bytes else 0)
            && forall n :: n in c && n != Up(ip) && n != Down(ip) ==> c2[n] == c1[n]
  {
    hide Up, Down, Dotted, CountAll;
    NamesApart(ip, ip);
    CountKeys(c, rs, src, dst, bytes);
    CountSnoc(c, rs, MeterRule(Saddr, ip, Up(ip)), src, dst, bytes);
    CountSnoc(c, rs + [MeterRule(Saddr, ip, Up(ip))], MeterRule(Daddr, ip, Down(ip)), src, dst, bytes);
    assert rs + [MeterRule(Saddr, ip, Up(ip))] + [MeterRule(Daddr, ip, Down(ip))] == rs + RulesOf(ip);
  }

  /** Each metered address counts each of its packets once in each direction; no other counter moves. */
  lemma {:induction false} CountFor(c: map<string, nat>, ips: seq<string>, src: string, dst: string, bytes: nat)
    requires AllDotted(ips) && Once(ips) && forall ip :: ip in ips ==> Up(ip) in c && Down(ip) in c
    ensures CountAll(c, RulesFor(ips), src, dst, bytes).Keys == c.Keys
    ensures forall ip :: ip in ips ==>
              && CountAll(c, RulesFor(ips), src, dst, bytes)[Up(ip)] == c[Up(ip)] + (if ip == src then bytes else 0)
              && CountAll(c, RulesFor(ips), src, dst, bytes)[Down(ip)] == c[Down(ip)] + (if ip == dst then bytes else 0)
    ensures forall n :: n in c && !NamedBy(ips, n) ==> CountAll(c, RulesFor(ips), src, dst, bytes)[n] == c[n]
  {
    hide Up, Down, Dotted, RulesOf, CountAll, NamedBy;
    CountKeys(c, RulesFor(ips), src, dst, bytes);
    if ips == [] {
      NoRules(c, src, dst, bytes);
    } else {
      var init, ip := ips[..|ips| - 1], ips[|ips| - 1];
      assert ips == init + [ip];
      CountFor(c, init, src, dst, bytes);
      CountTwo(c, RulesFor(init), ip, src, dst, bytes);
      NotNamed(ips);
      forall n ensures NamedBy(ips, n) <==> NamedBy(init, n) || n == Up(ip) || n == Down(ip) {
        NamedSnoc(init, ip, n);
      }
      forall x | x in init ensures Up(x) != Up(ip) && Up(x) != Down(ip) && Down(x) != Up(ip) && Down(x) != Down(ip) {
        NamesApart(x, ip);
        NamesApart(ip, x);
      }
    }
  }

  lemma NoRules(c: map<string, nat>, src: string, dst: string, bytes: nat)
    ensures CountAll(c, RulesFor([]), src, dst, bytes) == c
  {
  }

  // --- every run, failures and restarts included ---------------------------

  /** Per address, the bytes sent and received. */
  type Account = map<string, (nat, nat)>

  /** What the table amounts to: the addresses metered now, the totals of every address that has counters, and what the
      poller remembers. */
  datatype Books = Books(live: seq<string>, totals: Account, known: seq<string>)

  const NO_BOOKS := Books([], map[], [])

  function WithZeros(t: Account, current: seq<string>): Account {
    map ip | ip in t.Keys + (set x | x in current) :: if ip in t then t[ip] else (0, 0)
  }

  function Without(t: Account, stale: seq<string>): Account {
    map ip | ip in t && ip !in stale :: t[ip]
  }

  /** A prune goes through when all it deletes is there and none of it is metered. */
  predicate MayPrune(b: Books, stale: seq<string>) {
    forall ip :: ip in stale ==> ip in b.totals && ip !in b.live
  }

  function BooksStep(b: Books, ev: Event): Books {
    match ev
    case Poll(current, reconciles, prunes) =>
      var b1 := if reconciles then Books(current, WithZeros(b.totals, current), b.known) else b;
      var stale := Stale(b.known, current);
      if prunes && MayPrune(b1, stale) then Books(b1.live, Without(b1.totals, stale), current)
      else b1.(known := current)
    case Restart => b.(known := [])
    case Traffic(src, dst, bytes) =>
      b.(totals := map ip | ip in b.totals ::
                     if ip in b.live then
                       (b.totals[ip].0 + (if ip == src then bytes else 0),
                        b.totals[ip].1 + (if ip == dst then bytes else 0))
                     else b.totals[ip])
  }

  function BooksRun(b: Books, evs: seq<Event>): Books {
    if evs == [] then b else BooksStep(BooksRun(b, evs[..|evs| - 1]), evs[|evs| - 1])
  }

  ghost predicate NamedIn(t: Account, n: string) {
    exists ip :: ip in t && (n == Up(ip) || n == Down(ip))
  }

  /** Exactly the counters of the addresses, holding exactly their totals. */
  ghost predicate Counted(c: map<string, nat>, t: Account) {
    && (forall ip :: ip in t ==> Dotted(ip) && BytesForIp(c, ip) == t[ip])
    && forall n :: n in c <==> NamedIn(t, n)
  }

  ghost predicate Shows(p: Poller, b: Books) {
    && p.known == b.known && AllDotted(b.known) && Once(b.known) && AllDotted(b.live) && Once(b.live)
    && (forall ip :: ip in b.live ==> ip in b.totals)
    && (p.meter.chain == Some(RulesFor(b.live)) || (p.meter.chain == None && b == NO_BOOKS.(known := b.known)))
    && Counted(p.meter.counters, b.totals)
  }

  lemma DottedNamedIn(t: Account, ip: string)
    requires Dotted(ip) && forall x :: x in t ==> Dotted(x)
    ensures (NamedIn(t, Up(ip)) <==> ip in t) && (NamedIn(t, Down(ip)) <==> ip in t)
  {
    hide Up, Down, Dotted;
    forall x | x in t
      ensures (Up(x) == Up(ip) <==> x == ip) && (Down(x) == Down(ip) <==> x == ip)
      ensures Up(x) != Down(ip) && Down(x) != Up(ip)
    {
      NamesApart(x, ip);
      NamesApart(ip, x);
    }
  }

  lemma CountersOf(c: map<string, nat>, t: Account, ip: string)
    requires Counted(c, t) && Dotted(ip)
    ensures (Up(ip) in c <==> ip in t) && (Down(ip) in c <==> ip in t)
  {
    hide Up, Down, Dotted, NamedIn;
    DottedNamedIn(t, ip);
  }

  lemma ZerosNamed(t: Account, current: seq<string>, n: string)
    ensures NamedIn(WithZeros(t, current), n) <==> NamedIn(t, n) || NamedBy(current, n)
  {
    hide Up, Down;
    var t1 := WithZeros(t, current);
    assert forall ip :: ip in t1 <==> ip in t || ip in current;
  }

  lemma OpenedBytes(c: map<string, nat>, t: Account, current: seq<string>, ip: string)
    requires Counted(c, t) && Dotted(ip) && (ip in t || ip in current)
    ensures BytesForIp(WithNames(c, current), ip) == if ip in t then t[ip] else (0, 0)
  {
    hide Up, Down, Dotted, WithNames, NamedIn, NamedBy;
    CountersOf(c, t, ip);
    WithNamesAt(c, current, Up(ip));
    WithNamesAt(c, current, Down(ip));
  }

  lemma OpensCounted(c: map<string, nat>, t: Account, current: seq<string>)
    requires Counted(c, t) && AllDotted(current)
    ensures Counted(WithNames(c, current), WithZeros(t, current))
  {
    hide Up, Down, Dotted, WithNames, NamedIn, NamedBy, BytesForIp;
    var t1 := WithZeros(t, current);
    forall n ensures n in WithNames(c, current) <==> NamedIn(t1, n) {
      WithNamesAt(c, current, n);
      ZerosNamed(t, current, n);
    }
    forall ip | ip in t1 ensures Dotted(ip) && BytesForIp(WithNames(c, current), ip) == t1[ip] {
      assert Dotted(ip);
      OpenedBytes(c, t, current, ip);
    }
  }

  lemma ClosesCounted(c: map<string, nat>, t: Account, stale: seq<string>)
    requires Counted(c, t) && AllDotted(stale) && forall ip :: ip in stale ==> ip in t
    ensures Counted(WithoutNames(c, stale), Without(t, stale))
  {
    hide Up, Down, Dotted, WithoutNames;
    var t1 := Without(t, stale);
    forall n ensures n in WithoutNames(c, stale) <==> NamedIn(t1, n) {
      WithoutNamesAt(c, stale, n);
      LeftNamed(t, stale, n);
    }
    forall ip | ip in t1 ensures Dotted(ip) && BytesForIp(WithoutNames(c, stale), ip) == t1[ip] {
      DottedNamed(stale, ip);
      WithoutNamesAt(c, stale, Up(ip));
      WithoutNamesAt(c, stale, Down(ip));
      CountersOf(c, t, ip);
    }
  }

  lemma LeftNamed(t: Account, stale: seq<string>, n: string)
    requires AllDotted(stale) && forall ip :: ip in t ==> Dotted(ip)
    ensures NamedIn(Without(t, stale), n) <==> NamedIn(t, n) && !NamedBy(stale, n)
  {
    hide Up, Down, Dotted;
    if x :| x in t && (n == Up(x) || n == Down(x)) {
      DottedNamed(stale, x);
      if NamedIn(Without(t, stale), n) {
        var y :| y in Without(t, stale) && (n == Up(y) || n == Down(y));
        DottedNamed(stale, y);
      }
    }
  }

  // --- a prune that does not go through ------------------------------------

  /** Not there, or still referred to. */
  ghost predicate Held(m: Meter, ip: string) {
    Up(ip) !in m.counters || (m.chain.Some? && Refers(m.chain.value, Up(ip)))
  }

  lemma {:induction false} ApplyStops(m: Meter, a: seq<Op>, b: seq<Op>)
    ensures Apply(m, a + b) == match Apply(m, a) case None => None case Some(m1) => Apply(m1, b)
    decreases a
  {
    hide ApplyOp;
    if a == [] {
      assert a + b == b;
    } else {
      assert (a + b)[1..] == a[1..] + b;
      if ApplyOp(m, a[0]).Some? {
        ApplyStops(ApplyOp(m, a[0]).value, a[1..], b);
      }
    }
  }

  lemma DelStays(m: Meter, ip: string, x: string)
    requires Dotted(ip)
    ensures Held(m, ip) ==> Apply(m, DelOps(ip)) == None
    ensures Apply(m, DelOps(ip)).Some? && Held(m, x) ==> Held(Apply(m, DelOps(ip)).value, x)
  {
    hide Apply, Trim, Up, Down, Refers;
    DottedTrim(ip);
    Apply2(m, DelCounter(Up(ip)), DelCounter(Down(ip)));
  }

  /** One address that is held stops the whole prune. */
  lemma {:induction false} PruneStops(m: Meter, ips: seq<string>, x: string)
    requires AllDotted(ips) && Held(m, x)
    ensures x in ips ==> Apply(m, PruneDoc(ips)) == None
    ensures Apply(m, PruneDoc(ips)).Some? ==> Held(Apply(m, PruneDoc(ips)).value, x)
  {
    hide Up, Dotted, DelOps, Held;
    if ips != [] {
      var init, ip := ips[..|ips| - 1], ips[|ips| - 1];
      assert ips == init + [ip] && ip in ips;
      PruneStops(m, init, x);
      ApplyStops(m, PruneDoc(init), DelOps(ip));
      if Apply(m, PruneDoc(init)).Some? {
        DelStays(Apply(m, PruneDoc(init)).value, ip, x);
      }
    }
  }

  lemma PruneShows(m: Meter, b: Books, stale: seq<string>)
    requires Shows(Poller(m, b.known), b) && AllDotted(stale) && Once(stale)
    ensures Apply(m, PruneDoc(stale))
         == if MayPrune(b, stale) then Some(m.(counters := WithoutNames(m.counters, stale))) else None
  {
    hide Up, Down, Dotted, RulesFor, WithoutNames, NamedIn, Refers, PruneDoc, Apply, BytesForIp;
    forall ip | ip in stale
      ensures (Up(ip) in m.counters <==> ip in b.totals) && (Down(ip) in m.counters <==> ip in b.totals)
      ensures Refers(RulesFor(b.live), Up(ip)) <==> ip in b.live
      ensures Refers(RulesFor(b.live), Down(ip)) <==> ip in b.live
    {
      CountersOf(m.counters, b.totals, ip);
      RulesRefer(b.live, Up(ip));
      RulesRefer(b.live, Down(ip));
      DottedNamed(b.live, ip);
    }
    if stale == [] {
      NoPrune(m);
    } else if MayPrune(b, stale) {
      assert stale[0] in stale;
      PruneApplies(m, stale);
    } else {
      var x :| x in stale && !(x in b.totals && x !in b.live);
      PruneStops(m, stale, x);
    }
  }

  lemma NoPrune(m: Meter)
    ensures Apply(m, PruneDoc([])) == Some(m.(counters := WithoutNames(m.counters, [])))
  {
  }

  // --- each event ----------------------------------------------------------

  lemma ReconcileShows(p: Poller, b: Books, current: seq<string>)
    requires Shows(p, b) && AllDotted(current) && Once(current)
    ensures Shows(Poller(ApplyOr(p.meter, ReconcileDoc(current)), p.known),
                  Books(current, WithZeros(b.totals, current), b.known))
  {
    hide Up, Down, Dotted, RulesFor, WithNames, ReconcileDoc, Counted, Once;
    ReconcileApplies(p.meter, current);
    OpensCounted(p.meter.counters, b.totals, current);
  }

  lemma PruneStep(p: Poller, b: Books, stale: seq<string>)
    requires Shows(p, b) && AllDotted(stale) && Once(stale)
    ensures Shows(Poller(ApplyOr(p.meter, PruneDoc(stale)), p.known),
                  if MayPrune(b, stale) then b.(totals := Without(b.totals, stale)) else b)
  {
    hide Up, Down, Dotted, RulesFor, WithoutNames, PruneDoc, Counted, Once;
    PruneShows(p.meter, b, stale);
    if MayPrune(b, stale) {
      CountedDotted(p.meter.counters, b.totals);
      ClosesCounted(p.meter.counters, b.totals, stale);
    }
  }

  lemma CountedDotted(c: map<string, nat>, t: Account)
    requires Counted(c, t)
    ensures forall ip :: ip in t ==> Dotted(ip)
  {
  }

  lemma Remembers(p: Poller, b: Books, current: seq<string>)
    requires Shows(p, b) && AllDotted(current) && Once(current)
    ensures Shows(p.(known := current), b.(known := current))
  {
    hide Counted, RulesFor, Dotted;
  }

  lemma PollShows(p: Poller, b: Books, current: seq<string>, reconciles: bool, prunes: bool)
    requires Shows(p, b) && AllDotted(current) && Once(current)
    ensures Shows(Step(p, Poll(current, reconciles, prunes)), BooksStep(b, Poll(current, reconciles, prunes)))
  {
    hide Shows, ReconcileDoc, PruneDoc, Stale, AllDotted, Once, WithZeros, Without, MayPrune, ApplyOr;
    var m1 := ApplyIf(p.meter, ReconcileDoc(current), reconciles);
    var b1 := if reconciles then Books(current, WithZeros(b.totals, current), b.known) else b;
    var stale := Stale(b.known, current);
    ShownKnown(p, b);
    StaleDotted(b.known, current);
    if reconciles {
      ReconcileShows(p, b, current);
    }
    assert Shows(Poller(m1, p.known), b1);
    if prunes {
      PruneStep(Poller(m1, p.known), b1, stale);
      Remembers(Poller(ApplyOr(m1, PruneDoc(stale)), p.known),
                if MayPrune(b1, stale) then b1.(totals := Without(b1.totals, stale)) else b1, current);
    } else {
      Remembers(Poller(m1, p.known), b1, current);
    }
  }

  lemma ShownKnown(p: Poller, b: Books)
    requires Shows(p, b)
    ensures p.known == b.known && AllDotted(b.known) && Once(b.known)
  {
  }

  lemma StaleDotted(known: seq<string>, current: seq<string>)
    requires AllDotted(known) && Once(known)
    ensures AllDotted(Stale(known, current)) && Once(Stale(known, current))
  {
    hide Dotted;
    StaleIs(known, current);
  }

  lemma TrafficShows(p: Poller, b: Books, src: string, dst: string, bytes: nat)
    requires Shows(p, b)
    ensures Shows(Step(p, Traffic(src, dst, bytes)), BooksStep(b, Traffic(src, dst, bytes)))
  {
    hide Up, Down, Dotted, RulesFor, CountAll, NamedBy, NamedIn;
    if p.meter.chain.Some? {
      var c, t := p.meter.counters, b.totals;
      var c1, t1 := CountAll(c, RulesFor(b.live), src, dst, bytes), BooksStep(b, Traffic(src, dst, bytes)).totals;
      forall ip | ip in b.totals ensures Up(ip) in c && Down(ip) in c {
        CountersOf(c, t, ip);
      }
      CountFor(c, b.live, src, dst, bytes);
      forall n ensures NamedIn(t, n) <==> NamedIn(t1, n) {
        SameNamed(t, t1, n);
      }
      forall ip | ip in t1 ensures BytesForIp(c1, ip) == t1[ip] {
        DottedNamed(b.live, ip);
      }
      assert Counted(c1, t1);
    }
  }

  lemma SameNamed(t: Account, t1: Account, n: string)
    requires t.Keys == t1.Keys
    ensures NamedIn(t, n) <==> NamedIn(t1, n)
  {
    hide Up, Down;
  }

  /** Polls of dotted addresses, each once, as `CollectIps` yields them. */
  ghost predicate GoodEvent(ev: Event) {
    ev.Poll? ==> AllDotted(ev.current) && Once(ev.current)
  }

  ghost predicate GoodEvents(evs: seq<Event>) {
    forall ev :: ev in evs ==> GoodEvent(ev)
  }

  lemma EventShows(p: Poller, b: Books, ev: Event)
    requires Shows(p, b) && GoodEvent(ev)
    ensures Shows(Step(p, ev), BooksStep(b, ev))
  {
    hide AllDotted, Once, RulesFor, Counted, Reconciled, Carried;
    match ev {
      case Poll(current, reconciles, prunes) => PollShows(p, b, current, reconciles, prunes);
      case Restart => NothingRemembered();
      case Traffic(src, dst, bytes) => TrafficShows(p, b, src, dst, bytes);
    }
  }

  lemma NothingRemembered()
    ensures AllDotted([]) && Once([])
  {
  }

  lemma StartShows()
    ensures Shows(START, NO_BOOKS)
  {
    hide Up, Down;
  }

  /** Over any run of polls, restarts and traffic, whichever documents fail, the table is what the books say: two rules
      for each address of the last reconcile that went through, the two counters of every address that was added and
      not pruned since, each byte of a metered packet counted once, and no total ever reset. */
  lemma {:induction false} RunAgrees(evs: seq<Event>)
    requires GoodEvents(evs)
    ensures Shows(Run(START, evs), BooksRun(NO_BOOKS, evs))
  {
    hide Shows, Step, BooksStep, GoodEvent;
    if evs == [] {
      StartShows();
    } else {
      var init, ev := evs[..|evs| - 1], evs[|evs| - 1];
      assert ev in evs && GoodEvents(init);
      RunAgrees(init);
      EventShows(Run(START, init), BooksRun(NO_BOOKS, init), ev);
    }
  }

  // --- when the table is exact ---------------------------------------------

  /** The addresses metered, those that have counters and those remembered are the same. */
  ghost predicate Balanced(b: Books) {
    b.live == b.known && forall ip :: ip in b.totals <==> ip in b.known
  }

  lemma {:induction false} RulesCount(ips: seq<string>)
    ensures |RulesFor(ips)| == 2 * |ips|
  {
    hide Up, Down;
    if ips != [] {
      RulesCount(ips[..|ips| - 1]);
    }
  }

  lemma {:induction false} RulesInjective(a: seq<string>, b: seq<string>)
    requires RulesFor(a) == RulesFor(b)
    ensures a == b
    decreases |a|
  {
    hide Up, Down;
    RulesCount(a);
    RulesCount(b);
    if a != [] {
      var x, y := a[..|a| - 1], b[..|b| - 1];
      assert RulesFor(a)[|RulesFor(a)| - 1].ip == a[|a| - 1] && RulesFor(b)[|RulesFor(b)| - 1].ip == b[|b| - 1];
      assert RulesFor(x) == RulesFor(a)[..|RulesFor(a)| - 2] && RulesFor(y) == RulesFor(b)[..|RulesFor(b)| - 2];
      RulesInjective(x, y);
      assert a == x + [a[|a| - 1]] && b == y + [b[|b| - 1]];
    }
  }

  lemma TracksIff(p: Poller, b: Books)
    requires Shows(p, b)
    ensures Tracks(p) <==> Balanced(b)
  {
    hide Up, Down, Dotted, RulesFor, NamedBy, NamedIn;
    forall ip | ip in b.totals || ip in b.known
      ensures (Up(ip) in p.meter.counters <==> ip in b.totals) && (NamedBy(b.known, Up(ip)) <==> ip in b.known)
    {
      assert Dotted(ip);
      CountersOf(p.meter.counters, b.totals, ip);
      DottedNamed(b.known, ip);
    }
    if Tracks(p) {
      if p.meter.chain.Some? {
        RulesInjective(b.live, b.known);
      }
    }
    if Balanced(b) {
      forall n ensures NamedIn(b.totals, n) <==> NamedBy(b.known, n) {
        SameNames(b.totals, b.known, n);
      }
    }
  }

  lemma SameNames(t: Account, ips: seq<string>, n: string)
    requires forall ip :: ip in t <==> ip in ips
    ensures NamedIn(t, n) <==> NamedBy(ips, n)
  {
    hide Up, Down;
  }

  predicate NoFault(ev: Event) {
    !ev.Restart? && (ev.Poll? ==> ev.reconciles && ev.prunes)
  }

  /** As long as nothing fails and the daemon runs, the table holds exactly the rules and counters of the addresses of
      the last poll. */
  lemma {:induction false} QuietRunTracks(evs: seq<Event>)
    requires GoodEvents(evs) && forall ev :: ev in evs ==> NoFault(ev)
    ensures Balanced(BooksRun(NO_BOOKS, evs)) && Tracks(Run(START, evs))
  {
    hide GoodEvent, BooksStep, Tracks, Step, Shows, NoFault;
    RunAgrees(evs);
    TracksIff(Run(START, evs), BooksRun(NO_BOOKS, evs));
    if evs != [] {
      var init, ev := evs[..|evs| - 1], evs[|evs| - 1];
      assert ev in evs && GoodEvents(init);
      QuietRunTracks(init);
      RunAgrees(init);
      ShownKnown(Run(START, init), BooksRun(NO_BOOKS, init));
      BalancedStep(BooksRun(NO_BOOKS, init), ev);
    }
  }

  lemma BalancedStep(b: Books, ev: Event)
    requires Balanced(b) && NoFault(ev) && Once(b.known)
    ensures Balanced(BooksStep(b, ev))
  {
    if ev.Poll? {
      StaleIs(b.known, ev.current);
    }
  }

  /** The books of a table that is exact. */
  function BooksOf(p: Poller): Books {
    Books(p.known, map ip | ip in p.known :: BytesForIp(p.meter.counters, ip), p.known)
  }

  lemma TrackedShows(p: Poller)
    requires Tracks(p)
    ensures Shows(p, BooksOf(p)) && Balanced(BooksOf(p))
  {
    hide Up, Down, Dotted, RulesFor;
    forall n ensures NamedIn(BooksOf(p).totals, n) <==> NamedBy(p.known, n) {
      SameNames(BooksOf(p).totals, p.known, n);
    }
  }

  lemma StepTracksIff(p: Poller, b: Books, ev: Event)
    requires Shows(p, b) && GoodEvent(ev)
    ensures Tracks(Step(p, ev)) <==> Balanced(BooksStep(b, ev))
  {
    hide Shows, Tracks, Balanced, GoodEvent, Step, BooksStep;
    EventShows(p, b, ev);
    TracksIff(Step(p, ev), BooksStep(b, ev));
  }

  /** A poll whose prune fails leaves the table exact if and only if there was nothing to prune. */
  lemma PruneFailsExact(p: Poller, current: seq<string>)
    requires Tracks(p) && AllDotted(current) && Once(current)
    ensures Tracks(Step(p, Poll(current, true, false))) <==> forall ip :: ip in p.known ==> ip in current
  {
    hide Tracks, Shows, Step, AllDotted, Once, BytesForIp;
    TrackedShows(p);
    StepTracksIff(p, BooksOf(p), Poll(current, true, false));
  }

  /** A poll whose reconcile fails changes nothing in the table - the prune of an address still metered is refused - and
      leaves it exact if and only if the addresses are those of the poll before. */
  lemma ReconcileFailsExact(p: Poller, current: seq<string>, prunes: bool)
    requires Tracks(p) && AllDotted(current) && Once(current)
    ensures Step(p, Poll(current, false, prunes)).meter == p.meter
    ensures Tracks(Step(p, Poll(current, false, prunes))) <==> current == p.known
  {
    hide Tracks, Shows, Step, AllDotted, Once, BytesForIp;
    TrackedShows(p);
    StepTracksIff(p, BooksOf(p), Poll(current, false, prunes));
    RefusedPrune(p, current, prunes);
  }

  lemma RefusedPrune(p: Poller, current: seq<string>, prunes: bool)
    requires Tracks(p) && Shows(p, BooksOf(p))
    ensures Step(p, Poll(current, false, prunes)).meter == p.meter
  {
    hide Tracks, Shows, Apply, PruneDoc, BytesForIp;
    ShownKnown(p, BooksOf(p));
    StaleIs(p.known, current);
    StaleDotted(p.known, current);
    PruneShows(p.meter, BooksOf(p), Stale(p.known, current));
    if Stale(p.known, current) == [] {
      NoPrune(p.meter);
      NoNames(p.meter);
    } else {
      assert Stale(p.known, current)[0] in Stale(p.known, current);
    }
  }

  lemma NoNames(m: Meter)
    ensures m.(counters := WithoutNames(m.counters, [])) == m
  {
  }

  /** The first poll after a daemon restart leaves the table exact if and only if no address went away meanwhile. The
      restarted provisioner has no committed state to tell, so that poll reads no address at all. */
  lemma RestartExact(p: Poller, current: seq<string>)
    requires Tracks(p) && AllDotted(current) && Once(current)
    ensures Tracks(Step(Step(p, Restart), Poll(current, true, true))) <==> forall ip :: ip in p.known ==> ip in current
    ensures Tracks(Step(Step(p, Restart), Poll([], true, true))) <==> p.known == []
  {
    hide Tracks, Shows, Step, AllDotted, Once, BytesForIp;
    TrackedShows(p);
    EventShows(p, BooksOf(p), Restart);
    var q, b := Step(p, Restart), BooksStep(BooksOf(p), Restart);
    NothingRemembered();
    StepTracksIff(q, b, Poll(current, true, true));
    StepTracksIff(q, b, Poll([], true, true));
    assert p.known != [] ==> p.known[0] in p.known;
  }

  /** An address with counters that nothing remembers - after a restart, or a failed prune - keeps them through any
      events, failures included, for as long as no poll names it. */
  lemma {:induction false} ForgottenLeaks(b: Books, ip: string, later: seq<Event>)
    requires ip in b.totals && ip !in b.known && Once(b.known)
    requires forall ev :: ev in later && ev.Poll? ==> ip !in ev.current && Once(ev.current)
    ensures ip in BooksRun(b, later).totals && ip !in BooksRun(b, later).known && Once(BooksRun(b, later).known)
  {
    hide WithZeros, Without, MayPrune, Once;
    if later != [] {
      var init, ev := later[..|later| - 1], later[|later| - 1];
      assert ev in later;
      ForgottenLeaks(b, ip, init);
      ForgottenStep(BooksRun(b, init), ip, ev);
    }
  }

  lemma ForgottenStep(b: Books, ip: string, ev: Event)
    requires ip in b.totals && ip !in b.known && Once(b.known) && (ev.Poll? ==> ip !in ev.current && Once(ev.current))
    ensures ip in BooksStep(b, ev).totals && ip !in BooksStep(b, ev).known && Once(BooksStep(b, ev).known)
  {
    if ev.Poll? {
      StaleIs(b.known, ev.current);
    }
  }
}
