/** The packet gate: what the nft chains and the iptables chains do to a packet, and that they do the same. */
module Gate {
  import opened Text

  datatype Family = V4 | V6

  datatype Packet = Packet(ingress: string, family: Family, tcp: bool, dport: nat, established: bool, mac: string,
                           dst: string)

  datatype SetName = Auth | Garden4 | Garden6

  /** The kernel sets both backends match against. */
  datatype Sets = Sets(auth: set<string>, garden4: set<string>, garden6: set<string>)

  function Members(s: Sets, name: SetName): set<string> {
    match name
    case Auth => s.auth
    case Garden4 => s.garden4
    case Garden6 => s.garden6
  }

  datatype Hook = Prerouting | Forward

  const REDIRECT_PORT := 8080

  /** Blank entries of a scope are dropped before anything is built from it. */
  function NonBlank(ifaces: seq<string>): seq<string> {
    if ifaces == [] then []
    else
      var last := ifaces[|ifaces| - 1];
      NonBlank(ifaces[..|ifaces| - 1]) + (if Trim(last) == "" then [] else [last])
  }

  /** What is kept of a scope: its interfaces that are more than white space. */
  lemma {:induction false} NonBlankIs(ifaces: seq<string>, i: string)
    ensures i in NonBlank(ifaces) <==> i in ifaces && exists c :: c in i && !IsWhite(c)
  {
    hide Trim;
    if ifaces != [] {
      var init, last := ifaces[..|ifaces| - 1], ifaces[|ifaces| - 1];
      assert ifaces == init + [last];
      NonBlankIs(init, i);
      TrimBlank(last);
    }
  }

  // --- what the gate is for ------------------------------------------------

  predicate InGarden(s: Sets, p: Packet) {
    match p.family
    case V4 => p.dst in s.garden4
    case V6 => p.dst in s.garden6
  }

  /** Traffic of a client that is authorized or on its way into the walled garden. */
  predicate Exempt(s: Sets, p: Packet) {
    p.mac in s.auth || InGarden(s, p)
  }

  predicate Drops(scope: seq<string>, s: Sets, p: Packet) {
    p.ingress in scope && !p.established && !Exempt(s, p)
  }

  predicate Redirects(scope: seq<string>, s: Sets, p: Packet) {
    p.ingress in scope && !Exempt(s, p) && p.tcp && p.dport == 80
  }

  // --- nft -----------------------------------------------------------------

  datatype Field = EtherSaddr | IpDaddr | Ip6Daddr

  datatype Stmt =
    | InSet(field: Field, name: SetName)
    | CtEstablished
    | Iifname(iface: string)
    | TcpDport(port: nat)
    | Accept
    | Drop
    | Redirect(to: nat)

  type NftRule = seq<Stmt>

  /** The value a payload field has in a packet; a field of the other address family has none. */
  function FieldOf(p: Packet, f: Field): Option<string> {
    match f
    case EtherSaddr => Some(p.mac)
    case IpDaddr => if p.family == V4 then Some(p.dst) else None
    case Ip6Daddr => if p.family == V6 then Some(p.dst) else None
  }

  predicate Holds(s: Sets, p: Packet, m: Stmt) {
    match m
    case InSet(f, n) => FieldOf(p, f).Some? && FieldOf(p, f).value in Members(s, n)
    case CtEstablished => p.established
    case Iifname(i) => p.ingress == i
    case TcpDport(d) => p.tcp && p.dport == d
    case _ => true
  }

  /** A rule's verdict, or none when one of its matches fails. */
  function RunRule(s: Sets, p: Packet, r: NftRule): Option<Stmt> {
    if r == [] then None
    else if r[0].Accept? || r[0].Drop? || r[0].Redirect? then Some(r[0])
    else if Holds(s, p, r[0]) then RunRule(s, p, r[1..])
    else None
  }

  /** The first verdict of a list of rules. */
  function FirstVerdict(s: Sets, p: Packet, rules: seq<NftRule>): Option<Stmt> {
    if rules == [] then None
    else match RunRule(s, p, rules[0]) case Some(v) => Some(v) case None => FirstVerdict(s, p, rules[1..])
  }

  /** A base chain whose policy is accept. */
  function RunNft(s: Sets, p: Packet, rules: seq<NftRule>): Stmt {
    match FirstVerdict(s, p, rules) case Some(v) => v case None => Accept
  }

  function Exemptions(): seq<NftRule> {
    [[InSet(EtherSaddr, Auth), Accept], [InSet(IpDaddr, Garden4), Accept], [InSet(Ip6Daddr, Garden6), Accept]]
  }

  function RedirectRule(iface: string): NftRule {
    [Iifname(iface), TcpDport(80), Redirect(REDIRECT_PORT)]
  }

  function DropRule(iface: string): NftRule {
    [Iifname(iface), Drop]
  }

  function RedirectRules(ifaces: seq<string>): seq<NftRule> {
    if ifaces == [] then [] else RedirectRules(ifaces[..|ifaces| - 1]) + [RedirectRule(ifaces[|ifaces| - 1])]
  }

  function DropRules(ifaces: seq<string>): seq<NftRule> {
    if ifaces == [] then [] else DropRules(ifaces[..|ifaces| - 1]) + [DropRule(ifaces[|ifaces| - 1])]
  }

  function PreroutingRules(ifaces: seq<string>): seq<NftRule> {
    Exemptions() + RedirectRules(ifaces)
  }

  function ForwardRules(ifaces: seq<string>): seq<NftRule> {
    [[CtEstablished, Accept]] + Exemptions() + DropRules(ifaces)
  }

  /** The table the engine owns. */
  datatype Nft = Nft(sets: Option<Sets>, pre: Option<seq<NftRule>>, fwd: Option<seq<NftRule>>)

  datatype NftOp = AddSets | AddChain(hook: Hook) | AddRule(hook: Hook, rule: NftRule) | Flush(hook: Hook)

  function ChainOf(k: Nft, h: Hook): Option<seq<NftRule>> {
    match h case Prerouting => k.pre case Forward => k.fwd
  }

  function WithChain(k: Nft, h: Hook, rs: seq<NftRule>): Nft {
    match h case Prerouting => k.(pre := Some(rs)) case Forward => k.(fwd := Some(rs))
  }

  /** One command: adding what is there changes nothing, and a rule or a flush needs its chain. */
  function ApplyOp(k: Nft, op: NftOp): Option<Nft> {
    match op
    case AddSets => Some(if k.sets.Some? then k else k.(sets := Some(Sets({}, {}, {}))))
    case AddChain(h) => Some(if ChainOf(k, h).Some? then k else WithChain(k, h, []))
    case AddRule(h, r) => if ChainOf(k, h).Some? then Some(WithChain(k, h, ChainOf(k, h).value + [r])) else None
    case Flush(h) => if ChainOf(k, h).Some? then Some(WithChain(k, h, [])) else None
  }

  /** A document is one transaction: all of it or nothing. */
  function ApplyDoc(k: Nft, doc: seq<NftOp>): Option<Nft>
    decreases doc
  {
    if doc == [] then Some(k)
    else match ApplyOp(k, doc[0]) case None => None case Some(k1) => ApplyDoc(k1, doc[1..])
  }

  function AddRules(h: Hook, rs: seq<NftRule>): seq<NftOp> {
    if rs == [] then [] else AddRules(h, rs[..|rs| - 1]) + [AddRule(h, rs[|rs| - 1])]
  }

  function ScopeOps(ifaces: seq<string>): seq<NftOp> {
    AddRules(Prerouting, PreroutingRules(NonBlank(ifaces))) + AddRules(Forward, ForwardRules(NonBlank(ifaces)))
  }

  function BaseDoc(ifaces: seq<string>): seq<NftOp> {
    [AddSets, AddChain(Prerouting), AddChain(Forward)] + ScopeOps(ifaces)
  }

  function RescopeDoc(ifaces: seq<string>): seq<NftOp> {
    [Flush(Prerouting), Flush(Forward)] + ScopeOps(ifaces)
  }

  // --- the builders, pushing rule by rule ----------------------------------

  method Filter(ifaces: seq<string>) returns (r: seq<string>)
    ensures r == NonBlank(ifaces)
  {
    hide Trim;
    r := [];
    for i := 0 to |ifaces|
      invariant r == NonBlank(ifaces[..i])
    {
      assert ifaces[..i + 1][..i] == ifaces[..i];
      if Trim(ifaces[i]) != "" {
        r := r + [ifaces[i]];
      }
    }
    assert ifaces[..|ifaces|] == ifaces;
  }

  method BuildPrerouting(ifaces: seq<string>) returns (r: seq<NftRule>)
    ensures r == PreroutingRules(ifaces)
  {
    r := [[InSet(EtherSaddr, Auth), Accept], [InSet(IpDaddr, Garden4), Accept], [InSet(Ip6Daddr, Garden6), Accept]];
    for i := 0 to |ifaces|
      invariant r == PreroutingRules(ifaces[..i])
    {
      assert ifaces[..i + 1][..i] == ifaces[..i];
      r := r + [[Iifname(ifaces[i]), TcpDport(80), Redirect(REDIRECT_PORT)]];
    }
    assert ifaces[..|ifaces|] == ifaces;
  }

  method BuildForward(ifaces: seq<string>) returns (r: seq<NftRule>)
    ensures r == ForwardRules(ifaces)
  {
    r := [[CtEstablished, Accept], [InSet(EtherSaddr, Auth), Accept], [InSet(IpDaddr, Garden4), Accept],
          [InSet(Ip6Daddr, Garden6), Accept]];
    for i := 0 to |ifaces|
      invariant r == ForwardRules(ifaces[..i])
    {
      assert ifaces[..i + 1][..i] == ifaces[..i];
      r := r + [[Iifname(ifaces[i]), Drop]];
    }
    assert ifaces[..|ifaces|] == ifaces;
  }

  method BuildScope(ifaces: seq<string>, head: seq<NftOp>) returns (doc: seq<NftOp>)
    ensures doc == head + ScopeOps(ifaces)
  {
    hide PreroutingRules, ForwardRules, NonBlank;
    var scope := Filter(ifaces);
    var pre := BuildPrerouting(scope);
    var fwd := BuildForward(scope);
    doc := head;
    for i := 0 to |pre|
      invariant doc == head + AddRules(Prerouting, pre[..i])
    {
      assert pre[..i + 1][..i] == pre[..i];
      doc := doc + [AddRule(Prerouting, pre[i])];
    }
    assert pre[..|pre|] == pre;
    ghost var mid := doc;
    for i := 0 to |fwd|
      invariant doc == mid + AddRules(Forward, fwd[..i])
    {
      assert fwd[..i + 1][..i] == fwd[..i];
      doc := doc + [AddRule(Forward, fwd[i])];
    }
    assert fwd[..|fwd|] == fwd;
  }

  method BuildBase(ifaces: seq<string>) returns (doc: seq<NftOp>)
    ensures doc == BaseDoc(ifaces)
  {
    doc := BuildScope(ifaces, [AddSets, AddChain(Prerouting), AddChain(Forward)]);
  }

  method BuildRescope(ifaces: seq<string>) returns (doc: seq<NftOp>)
    ensures doc == RescopeDoc(ifaces)
  {
    doc := BuildScope(ifaces, [Flush(Prerouting), Flush(Forward)]);
  }

  // --- what a document leaves ----------------------------------------------

  lemma {:induction false} ApplyAppend(k: Nft, a: seq<NftOp>, b: seq<NftOp>)
    requires ApplyDoc(k, a).Some?
    ensures ApplyDoc(k, a + b) == ApplyDoc(ApplyDoc(k, a).value, b)
    decreases a
  {
    hide ApplyOp;
    if a == [] {
      assert a + b == b;
    } else {
      assert (a + b)[1..] == a[1..] + b;
      ApplyAppend(ApplyOp(k, a[0]).value, a[1..], b);
    }
  }

  lemma {:induction false} ApplyAddRules(k: Nft, h: Hook, rs: seq<NftRule>)
    requires ChainOf(k, h).Some?
    ensures ApplyDoc(k, AddRules(h, rs)) == Some(WithChain(k, h, ChainOf(k, h).value + rs))
  {
    if rs == [] {
      assert ChainOf(k, h).value + rs == ChainOf(k, h).value;
    } else {
      var init, r := rs[..|rs| - 1], rs[|rs| - 1];
      ApplyAddRules(k, h, init);
      ApplyAppend(k, AddRules(h, init), [AddRule(h, r)]);
      assert ChainOf(k, h).value + init + [r] == ChainOf(k, h).value + rs;
      assert [AddRule(h, r)][1..] == [];
    }
  }

  lemma ApplyScope(k: Nft, ifaces: seq<string>)
    requires k.pre.Some? && k.fwd.Some?
    ensures ApplyDoc(k, ScopeOps(ifaces))
         == Some(k.(pre := Some(k.pre.value + PreroutingRules(NonBlank(ifaces))),
                    fwd := Some(k.fwd.value + ForwardRules(NonBlank(ifaces)))))
  {
    hide PreroutingRules, ForwardRules, NonBlank;
    var pre, fwd := PreroutingRules(NonBlank(ifaces)), ForwardRules(NonBlank(ifaces));
    ApplyAddRules(k, Prerouting, pre);
    ApplyAddRules(WithChain(k, Prerouting, k.pre.value + pre), Forward, fwd);
    ApplyAppend(k, AddRules(Prerouting, pre), AddRules(Forward, fwd));
  }

  /** Applied to nothing, the base document leaves exactly the rules of the scope and empty sets; applied again it
      keeps every set as it is and appends the rules of its scope once more. */
  lemma BaseApplies(k: Nft, ifaces: seq<string>)
    ensures ApplyDoc(Nft(None, None, None), BaseDoc(ifaces))
         == Some(Nft(Some(Sets({}, {}, {})), Some(PreroutingRules(NonBlank(ifaces))),
                     Some(ForwardRules(NonBlank(ifaces)))))
    ensures k.sets.Some? && k.pre.Some? && k.fwd.Some? ==>
              ApplyDoc(k, BaseDoc(ifaces)) == Some(Nft(k.sets, Some(k.pre.value + PreroutingRules(NonBlank(ifaces))),
                                                       Some(k.fwd.value + ForwardRules(NonBlank(ifaces)))))
  {
    hide PreroutingRules, ForwardRules, NonBlank, ScopeOps;
    var built := Nft(Some(Sets({}, {}, {})), Some([]), Some([]));
    HeadOfBase(Nft(None, None, None), built, ifaces);
    ApplyScope(built, ifaces);
    assert [] + PreroutingRules(NonBlank(ifaces)) == PreroutingRules(NonBlank(ifaces));
    assert [] + ForwardRules(NonBlank(ifaces)) == ForwardRules(NonBlank(ifaces));
    if k.sets.Some? && k.pre.Some? && k.fwd.Some? {
      HeadOfBase(k, k, ifaces);
      ApplyScope(k, ifaces);
    }
  }

  lemma HeadOfBase(k: Nft, k1: Nft, ifaces: seq<string>)
    requires var a := ApplyOp(k, AddSets).value; var b := ApplyOp(a, AddChain(Prerouting)).value;
             k1 == ApplyOp(b, AddChain(Forward)).value
    ensures ApplyDoc(k, BaseDoc(ifaces)) == ApplyDoc(k1, ScopeOps(ifaces))
  {
    hide ScopeOps;
    var rest := ScopeOps(ifaces);
    var head := [AddSets, AddChain(Prerouting), AddChain(Forward)];
    assert head[1..] == [AddChain(Prerouting), AddChain(Forward)];
    assert head[1..][1..] == [AddChain(Forward)] && head[1..][1..][1..] == [];
    assert ApplyDoc(k, head) == Some(k1);
    ApplyAppend(k, head, rest);
  }

  /** Re-scoping a table that has its chains leaves the very rules a rebuild for the new scope would, and no set
      touched. */
  lemma RescopeRefinesRebuild(k: Nft, ifaces: seq<string>)
    requires k.pre.Some? && k.fwd.Some?
    ensures var built := ApplyDoc(Nft(None, None, None), BaseDoc(ifaces));
            built.Some? && ApplyDoc(k, RescopeDoc(ifaces)) == Some(built.value.(sets := k.sets))
  {
    hide PreroutingRules, ForwardRules, NonBlank, ScopeOps;
    BaseApplies(k, ifaces);
    var k1 := k.(pre := Some([]), fwd := Some([]));
    var head := [Flush(Prerouting), Flush(Forward)];
    assert head[1..] == [Flush(Forward)] && head[1..][1..] == [];
    assert ApplyDoc(k, head) == Some(k1);
    ApplyAppend(k, head, ScopeOps(ifaces));
    ApplyScope(k1, ifaces);
    assert [] + PreroutingRules(NonBlank(ifaces)) == PreroutingRules(NonBlank(ifaces));
    assert [] + ForwardRules(NonBlank(ifaces)) == ForwardRules(NonBlank(ifaces));
  }

  // --- the decision of the nft chains --------------------------------------

  lemma {:induction false} VerdictAppend(s: Sets, p: Packet, a: seq<NftRule>, b: seq<NftRule>)
    ensures FirstVerdict(s, p, a + b)
         == if FirstVerdict(s, p, a).Some? then FirstVerdict(s, p, a) else FirstVerdict(s, p, b)
  {
    hide RunRule;
    if a == [] {
      assert a + b == b;
    } else {
      assert (a + b)[1..] == a[1..] + b;
      VerdictAppend(s, p, a[1..], b);
    }
  }

  lemma OneVerdict(s: Sets, p: Packet, r: NftRule)
    ensures FirstVerdict(s, p, [r]) == RunRule(s, p, r)
  {
    hide RunRule;
    assert [r][1..] == [];
  }

  lemma AcceptWhen(s: Sets, p: Packet, m: Stmt)
    requires m.InSet? || m.CtEstablished?
    ensures FirstVerdict(s, p, [[m, Accept]]) == if Holds(s, p, m) then Some(Accept) else None
  {
    OneVerdict(s, p, [m, Accept]);
    assert [m, Accept][1..] == [Accept];
  }

  lemma ExemptVerdict(s: Sets, p: Packet)
    ensures FirstVerdict(s, p, Exemptions()) == if Exempt(s, p) then Some(Accept) else None
  {
    hide FirstVerdict;
    var a, b := [[InSet(EtherSaddr, Auth), Accept]], [[InSet(IpDaddr, Garden4), Accept]];
    var c := [[InSet(Ip6Daddr, Garden6), Accept]];
    AcceptWhen(s, p, InSet(EtherSaddr, Auth));
    AcceptWhen(s, p, InSet(IpDaddr, Garden4));
    AcceptWhen(s, p, InSet(Ip6Daddr, Garden6));
    VerdictAppend(s, p, a, b);
    VerdictAppend(s, p, a + b, c);
    assert Exemptions() == a + b + c;
  }

  lemma {:induction false} RedirectVerdict(s: Sets, p: Packet, ifaces: seq<string>)
    ensures FirstVerdict(s, p, RedirectRules(ifaces))
         == if p.ingress in ifaces && p.tcp && p.dport == 80 then Some(Redirect(REDIRECT_PORT)) else None
  {
    if ifaces != [] {
      var init, i := ifaces[..|ifaces| - 1], ifaces[|ifaces| - 1];
      assert ifaces == init + [i];
      RedirectVerdict(s, p, init);
      OneRedirect(s, p, i);
      VerdictAppend(s, p, RedirectRules(init), [RedirectRule(i)]);
    }
  }

  lemma OneRedirect(s: Sets, p: Packet, i: string)
    ensures FirstVerdict(s, p, [RedirectRule(i)])
         == if p.ingress == i && p.tcp && p.dport == 80 then Some(Redirect(REDIRECT_PORT)) else None
  {
    OneVerdict(s, p, RedirectRule(i));
    assert RedirectRule(i)[1..] == [TcpDport(80), Redirect(REDIRECT_PORT)];
    assert RedirectRule(i)[1..][1..] == [Redirect(REDIRECT_PORT)];
    assert RunRule(s, p, [Redirect(REDIRECT_PORT)]) == Some(Redirect(REDIRECT_PORT));
  }

  lemma OneDrop(s: Sets, p: Packet, i: string)
    ensures FirstVerdict(s, p, [DropRule(i)]) == if p.ingress == i then Some(Drop) else None
  {
    OneVerdict(s, p, DropRule(i));
    assert DropRule(i)[1..] == [Drop];
  }

  lemma {:induction false} DropVerdict(s: Sets, p: Packet, ifaces: seq<string>)
    ensures FirstVerdict(s, p, DropRules(ifaces)) == if p.ingress in ifaces then Some(Drop) else None
  {
    if ifaces != [] {
      var init, i := ifaces[..|ifaces| - 1], ifaces[|ifaces| - 1];
      assert ifaces == init + [i];
      DropVerdict(s, p, init);
      OneDrop(s, p, i);
      VerdictAppend(s, p, DropRules(init), [DropRule(i)]);
    }
  }

  lemma PreroutingVerdict(s: Sets, p: Packet, scope: seq<string>)
    ensures FirstVerdict(s, p, PreroutingRules(scope))
         == if Exempt(s, p) then Some(Accept)
            else if Redirects(scope, s, p) then Some(Redirect(REDIRECT_PORT))
            else None
  {
    hide FirstVerdict, Exempt, Exemptions;
    ExemptVerdict(s, p);
    RedirectVerdict(s, p, scope);
    VerdictAppend(s, p, Exemptions(), RedirectRules(scope));
  }

  lemma ForwardVerdict(s: Sets, p: Packet, scope: seq<string>)
    ensures FirstVerdict(s, p, ForwardRules(scope))
         == if p.established || Exempt(s, p) then Some(Accept)
            else if Drops(scope, s, p) then Some(Drop)
            else None
  {
    hide FirstVerdict, Exempt, Exemptions;
    AcceptWhen(s, p, CtEstablished);
    ExemptVerdict(s, p);
    DropVerdict(s, p, scope);
    VerdictAppend(s, p, [[CtEstablished, Accept]], Exemptions());
    VerdictAppend(s, p, [[CtEstablished, Accept]] + Exemptions(), DropRules(scope));
  }

  /** Appending the rules of a second scope behind those of a first - what a restart of the daemon does to the table
      it adopts - decides every packet as the two scopes together would; for the same scope, as before. */
  lemma AppendedBaseDecides(s: Sets, p: Packet, a: seq<string>, b: seq<string>)
    ensures RunNft(s, p, PreroutingRules(a) + PreroutingRules(b)) == RunNft(s, p, PreroutingRules(a + b))
    ensures RunNft(s, p, ForwardRules(a) + ForwardRules(b)) == RunNft(s, p, ForwardRules(a + b))
    ensures RunNft(s, p, PreroutingRules(a) + PreroutingRules(a)) == RunNft(s, p, PreroutingRules(a))
    ensures RunNft(s, p, ForwardRules(a) + ForwardRules(a)) == RunNft(s, p, ForwardRules(a))
  {
    hide FirstVerdict, Exempt, PreroutingRules, ForwardRules;
    VerdictAppend(s, p, PreroutingRules(a), PreroutingRules(b));
    VerdictAppend(s, p, ForwardRules(a), ForwardRules(b));
    VerdictAppend(s, p, PreroutingRules(a), PreroutingRules(a));
    VerdictAppend(s, p, ForwardRules(a), ForwardRules(a));
    PreroutingVerdict(s, p, a);
    PreroutingVerdict(s, p, b);
    PreroutingVerdict(s, p, a + b);
    ForwardVerdict(s, p, a);
    ForwardVerdict(s, p, b);
    ForwardVerdict(s, p, a + b);
  }
}
