/** Byte accounting: connection-tracking lines folded per source address, then per client, with saturating sums. An
    address is the canonical text of what the parser accepts; the parser itself is a parameter. */
module Conntrack {
  import opened Text

  type Ip = string
  type Mac = string
  type IpParser = string -> Option<Ip>

  datatype Counters = Counters(bytesOut: nat, bytesIn: nat)

  function Cap(n: nat): nat { if n < U64_MAX then n else U64_MAX }

  /** `u64::saturating_add`. */
  function SatAdd(a: nat, b: nat): nat { Cap(a + b) }

  lemma CapAdds(a: nat, b: nat)
    ensures SatAdd(Cap(a), Cap(b)) == Cap(a + b) && SatAdd(Cap(a), b) == Cap(a + b)
  {
  }

  // --- tokens --------------------------------------------------------------

  const SRC := "src="
  const BYTES := "bytes="

  /** The address of a `src=` token that parses. */
  function SrcOf(parse: IpParser, tok: string): Option<Ip> {
    if SRC <= tok then parse(tok[|SRC|..]) else None
  }

  /** The number of a `bytes=` token that parses. */
  function BytesOf(tok: string): (r: Option<nat>)
    ensures r.Some? ==> r.value <= U64_MAX
  {
    if SRC <= tok || !(BYTES <= tok) then None
    else match ParseInt(tok[|BYTES|..], 0, U64_MAX) case Some(n) => Some(n) case None => None
  }

  /** Which tokens count: `src=` before an address, and `bytes=` before a number of 64 bits. */
  lemma TokensRead(parse: IpParser, tok: string, text: string, n: nat)
    ensures SrcOf(parse, "src=" + text) == parse(text) && BytesOf("src=" + text) == None
    ensures !("src=" <= tok) ==> SrcOf(parse, tok) == None
    ensures !("bytes=" <= tok) ==> BytesOf(tok) == None
    ensures BytesOf("bytes=" + PrintNat(n)) == if n <= 0xFFFF_FFFF_FFFF_FFFF then Some(n) else None
  {
    hide PrintNat, ParseInt;
    assert ("src=" + text)[4..] == text && ("bytes=" + PrintNat(n))[6..] == PrintNat(n);
    assert ("bytes=" + PrintNat(n))[0] == 'b';
    PrintedRead(n);
  }

  lemma PrintedRead(n: nat)
    ensures ParseInt(PrintNat(n), 0, U64_MAX) == if n <= U64_MAX then Some(n) else None
  {
    hide PrintNat, DigitsVal;
    PrintNatStart(n);
    PrintNatVal(n);
  }

  /** Where a line stands: the client, how many sources were seen - a byte, which wraps - and the two sums. */
  datatype Line = Line(client: Option<Ip>, seen: nat, sent: nat, received: nat)

  function StepTok(parse: IpParser, l: Line, tok: string): Line {
    match SrcOf(parse, tok)
    case Some(ip) =>
      var seen := (l.seen + 1) % 256;
      l.(seen := seen, client := if seen == 1 then Some(ip) else l.client)
    case None =>
      match BytesOf(tok)
      case None => l
      case Some(n) =>
        if l.seen == 0 then l
        else if l.seen == 1 then l.(sent := SatAdd(l.sent, n))
        else l.(received := SatAdd(l.received, n))
  }

  function RunToks(parse: IpParser, toks: seq<string>): Line {
    if toks == [] then Line(None, 0, 0, 0) else StepTok(parse, RunToks(parse, toks[..|toks| - 1]), toks[|toks| - 1])
  }

  function LineOf(parse: IpParser, line: string): Line {
    RunToks(parse, Words(Trim(line)))
  }

  // --- the reference: whose bytes, and which direction ---------------------

  function Srcs(parse: IpParser, toks: seq<string>): nat {
    if toks == [] then 0
    else Srcs(parse, toks[..|toks| - 1]) + (if SrcOf(parse, toks[|toks| - 1]).Some? then 1 else 0)
  }

  /** The first source address that parses. */
  function FirstSrc(parse: IpParser, toks: seq<string>): Option<Ip> {
    if toks == [] then None
    else if SrcOf(parse, toks[0]).Some? then SrcOf(parse, toks[0])
    else FirstSrc(parse, toks[1..])
  }

  /** Bytes between the first source and the second: what the client sent. */
  function Sent(parse: IpParser, toks: seq<string>): nat {
    if toks == [] then 0
    else
      var init, tok := toks[..|toks| - 1], toks[|toks| - 1];
      Sent(parse, init) + (if Srcs(parse, init) == 1 && BytesOf(tok).Some? then BytesOf(tok).value else 0)
  }

  /** Bytes after the second source: what the client received. */
  function Received(parse: IpParser, toks: seq<string>): nat {
    if toks == [] then 0
    else
      var init, tok := toks[..|toks| - 1], toks[|toks| - 1];
      Received(parse, init) + (if Srcs(parse, init) >= 2 && BytesOf(tok).Some? then BytesOf(tok).value else 0)
  }

  lemma {:induction false} FirstSrcSnoc(parse: IpParser, toks: seq<string>, tok: string)
    ensures FirstSrc(parse, toks + [tok])
         == if FirstSrc(parse, toks).Some? then FirstSrc(parse, toks) else SrcOf(parse, tok)
  {
    hide SrcOf;
    if toks == [] {
      assert toks + [tok] == [tok] && [tok][1..] == [];
    } else {
      assert (toks + [tok])[1..] == toks[1..] + [tok];
      FirstSrcSnoc(parse, toks[1..], tok);
    }
  }

  lemma {:induction false} FirstSrcSome(parse: IpParser, toks: seq<string>)
    ensures FirstSrc(parse, toks).Some? <==> Srcs(parse, toks) > 0
  {
    hide SrcOf;
    if toks != [] {
      var init, tok := toks[..|toks| - 1], toks[|toks| - 1];
      assert toks == init + [tok];
      FirstSrcSnoc(parse, init, tok);
      FirstSrcSome(parse, init);
    }
  }

  // --- what the one-byte counter makes of it -------------------------------

  /** The last source address whose number is 1 modulo 256. */
  function ReadClient(parse: IpParser, toks: seq<string>): Option<Ip> {
    if toks == [] then None
    else
      var init, tok := toks[..|toks| - 1], toks[|toks| - 1];
      if SrcOf(parse, tok).Some? && Srcs(parse, init) % 256 == 0 then SrcOf(parse, tok) else ReadClient(parse, init)
  }

  /** The bytes at which the number of sources satisfies `at`. */
  function BytesWhere(parse: IpParser, toks: seq<string>, at: nat -> bool): nat {
    if toks == [] then 0
    else
      var init, tok := toks[..|toks| - 1], toks[|toks| - 1];
      BytesWhere(parse, init, at) + (if at(Srcs(parse, init)) && BytesOf(tok).Some? then BytesOf(tok).value else 0)
  }

  function ReadSent(parse: IpParser, toks: seq<string>): nat {
    BytesWhere(parse, toks, n => n % 256 == 1)
  }

  function ReadReceived(parse: IpParser, toks: seq<string>): nat {
    BytesWhere(parse, toks, n => n % 256 >= 2)
  }

  /** Bytes received that are counted as sent, and bytes received that are not counted: what comes after the 257th,
      513th, ... source and after the 256th, 512th, ... one. */
  function Swapped(parse: IpParser, toks: seq<string>): nat {
    BytesWhere(parse, toks, n => n >= 256 && n % 256 == 1)
  }

  function Dropped(parse: IpParser, toks: seq<string>): nat {
    BytesWhere(parse, toks, n => n >= 256 && n % 256 == 0)
  }

  lemma SeenWraps(n: nat)
    ensures (n % 256 + 1) % 256 == (n + 1) % 256 && ((n + 1) % 256 == 1 <==> n % 256 == 0)
  {
  }

  /** Every line, however many sources it names: the client is the last source numbered 1 modulo 256, and bytes count as
      sent or received by the number of sources before them, modulo 256. */
  lemma {:induction false} LineExact(parse: IpParser, toks: seq<string>)
    ensures RunToks(parse, toks)
         == Line(ReadClient(parse, toks), Srcs(parse, toks) % 256, Cap(ReadSent(parse, toks)),
                 Cap(ReadReceived(parse, toks)))
  {
    hide SrcOf, BytesOf, Cap;
    if toks == [] {
      CapZero();
    } else {
      var init, tok := toks[..|toks| - 1], toks[|toks| - 1];
      LineExact(parse, init);
      SrcOrBytes(parse, tok);
      SeenWraps(Srcs(parse, init));
      if BytesOf(tok).Some? {
        CapAdds(ReadSent(parse, init), BytesOf(tok).value);
        CapAdds(ReadReceived(parse, init), BytesOf(tok).value);
      }
    }
  }

  /** Nothing but what is swapped or dropped is misread: as many bytes as the reference sees are seen, in the direction
      it says, exactly when no byte follows a source numbered 0 or 1 modulo 256 past the first. */
  lemma {:induction false} MisreadExact(parse: IpParser, toks: seq<string>)
    ensures ReadSent(parse, toks) == Sent(parse, toks) + Swapped(parse, toks)
    ensures ReadReceived(parse, toks) + Swapped(parse, toks) + Dropped(parse, toks) == Received(parse, toks)
    ensures ReadSent(parse, toks) == Sent(parse, toks) && ReadReceived(parse, toks) == Received(parse, toks)
       <==> Swapped(parse, toks) == 0 && Dropped(parse, toks) == 0
  {
    hide SrcOf, BytesOf;
    if toks != [] {
      MisreadExact(parse, toks[..|toks| - 1]);
      Residues(Srcs(parse, toks[..|toks| - 1]));
    }
  }

  lemma Residues(n: nat)
    ensures n % 256 == 1 <==> n == 1 || (n >= 256 && n % 256 == 1)
    ensures n >= 2 <==> n % 256 >= 2 || (n >= 256 && n % 256 == 1) || (n >= 256 && n % 256 == 0)
  {
  }

  /** Up to 256 sources the client is the first; a line of fewer misreads nothing. */
  lemma {:induction false} FewSourcesFine(parse: IpParser, toks: seq<string>)
    ensures Srcs(parse, toks) <= 256 ==> ReadClient(parse, toks) == FirstSrc(parse, toks)
    ensures Srcs(parse, toks) < 256 ==> Swapped(parse, toks) == 0 && Dropped(parse, toks) == 0
  {
    hide SrcOf, BytesOf, FirstSrc;
    if toks == [] {
      NoSrc(parse);
    } else {
      var init, tok := toks[..|toks| - 1], toks[|toks| - 1];
      assert toks == init + [tok];
      FewSourcesFine(parse, init);
      FirstSrcSnoc(parse, init, tok);
      FirstSrcSome(parse, init);
    }
  }

  /** The line is read as the reference says. */
  predicate ReadRight(parse: IpParser, toks: seq<string>) {
    && ReadClient(parse, toks) == FirstSrc(parse, toks)
    && Swapped(parse, toks) == 0 && Dropped(parse, toks) == 0
  }

  lemma NoSrc(parse: IpParser)
    ensures FirstSrc(parse, []) == None
  {
  }

  lemma CapZero()
    ensures Cap(0) == 0
  {
  }

  lemma SrcOrBytes(parse: IpParser, tok: string)
    ensures SrcOf(parse, tok).Some? ==> BytesOf(tok).None?
  {
  }

  function Copies(tok: string, n: nat): seq<string> {
    if n == 0 then [] else Copies(tok, n - 1) + [tok]
  }

  lemma {:induction false} CopiesSrcs(parse: IpParser, tok: string, n: nat)
    requires SrcOf(parse, tok).Some?
    ensures Srcs(parse, Copies(tok, n)) == n && |Copies(tok, n)| == n && (n > 0 ==> Copies(tok, n)[0] == tok)
  {
    hide SrcOf;
    if n > 0 {
      CopiesSrcs(parse, tok, n - 1);
    }
  }

  /** After 256 sources the byte is zero again: bytes that follow are dropped, and a source that follows replaces the
      client. */
  lemma SourcesWrap(parse: IpParser, a: string, b: string)
    requires SrcOf(parse, a).Some?
    ensures BytesOf(b).Some? ==> Dropped(parse, Copies(a, 256) + [b]) >= BytesOf(b).value
    ensures SrcOf(parse, b).Some? ==>
              && RunToks(parse, Copies(a, 256) + [b]).client == SrcOf(parse, b)
              && FirstSrc(parse, Copies(a, 256) + [b]) == SrcOf(parse, a)
  {
    hide SrcOf, BytesOf, Copies;
    CopiesSrcs(parse, a, 256);
    assert (Copies(a, 256) + [b])[..256] == Copies(a, 256);
    FirstSrcSnoc(parse, Copies(a, 256), b);
    LineExact(parse, Copies(a, 256) + [b]);
  }

  // --- the parser ----------------------------------------------------------

  method ParseLine(parse: IpParser, line: string) returns (l: Line)
    ensures l == LineOf(parse, line)
  {
    hide Words, Trim, SrcOf, BytesOf, SatAdd;
    var toks := Words(Trim(line));
    var client: Option<Ip> := None;
    var seen: nat, sent: nat, received: nat := 0, 0, 0;
    for i := 0 to |toks|
      invariant Line(client, seen, sent, received) == RunToks(parse, toks[..i])
    {
      assert toks[..i + 1][..i] == toks[..i];
      var ip, n := SrcOf(parse, toks[i]), BytesOf(toks[i]);
      if ip.Some? {
        seen := (seen + 1) % 256;
        if seen == 1 {
          client := ip;
        }
      } else if n.Some? {
        if seen == 1 {
          sent := SatAdd(sent, n.value);
        } else if seen != 0 {
          received := SatAdd(received, n.value);
        }
      }
    }
    assert toks[..|toks|] == toks;
    l := Line(client, seen, sent, received);
  }

  function Entry<K>(m: map<K, Counters>, k: K): Counters {
    if k in m then m[k] else Counters(0, 0)
  }

  function AddTo<K>(m: map<K, Counters>, k: K, sent: nat, received: nat): map<K, Counters> {
    m[k := Counters(SatAdd(Entry(m, k).bytesOut, sent), SatAdd(Entry(m, k).bytesIn, received))]
  }

  /** Whether the lines' client is `ip`, and how much it sent and received over all of them. */
  predicate Seen(parse: IpParser, lines: seq<string>, ip: Ip) {
    exists i :: 0 <= i < |lines| && LineOf(parse, lines[i]).client == Some(ip)
  }

  function Total(parse: IpParser, lines: seq<string>, sent: bool, ips: set<Ip>): nat {
    if lines == [] then 0
    else
      var l := LineOf(parse, lines[|lines| - 1]);
      Total(parse, lines[..|lines| - 1], sent, ips)
      + (if l.client.Some? && l.client.value in ips then (if sent then l.sent else l.received) else 0)
  }

  ghost predicate PerIp(parse: IpParser, lines: seq<string>, m: map<Ip, Counters>) {
    && (forall ip :: ip in m <==> Seen(parse, lines, ip))
    && forall ip :: ip in m ==>
         m[ip] == Counters(Cap(Total(parse, lines, true, {ip})), Cap(Total(parse, lines, false, {ip})))
  }

  lemma SeenSnoc(parse: IpParser, lines: seq<string>, line: string, ip: Ip)
    ensures Seen(parse, lines + [line], ip) <==> Seen(parse, lines, ip) || LineOf(parse, line).client == Some(ip)
  {
    hide LineOf;
    var all := lines + [line];
    assert all[|lines|] == line && forall i :: 0 <= i < |lines| ==> all[i] == lines[i];
    if Seen(parse, lines, ip) {
      var i :| 0 <= i < |lines| && LineOf(parse, lines[i]).client == Some(ip);
      assert LineOf(parse, all[i]).client == Some(ip);
    }
  }

  lemma {:induction false} UnseenTotal(parse: IpParser, lines: seq<string>, sent: bool, ip: Ip)
    requires !Seen(parse, lines, ip)
    ensures Total(parse, lines, sent, {ip}) == 0
  {
    hide LineOf;
    if lines != [] {
      var init, line := lines[..|lines| - 1], lines[|lines| - 1];
      assert lines == init + [line];
      SeenSnoc(parse, init, line, ip);
      UnseenTotal(parse, init, sent, ip);
    }
  }

  lemma PerIpStep(parse: IpParser, lines: seq<string>, line: string, m: map<Ip, Counters>)
    requires PerIp(parse, lines, m)
    ensures var l := LineOf(parse, line);
            PerIp(parse, lines + [line], if l.client.None? then m else AddTo(m, l.client.value, l.sent, l.received))
  {
    hide LineOf, Seen, Cap, SatAdd;
    var l, all := LineOf(parse, line), lines + [line];
    var m1 := if l.client.None? then m else AddTo(m, l.client.value, l.sent, l.received);
    assert all[..|all| - 1] == lines;
    assert Cap(0) == 0 by { CapZero(); }
    forall ip ensures ip in m1 <==> Seen(parse, all, ip) {
      SeenSnoc(parse, lines, line, ip);
    }
    forall ip | ip in m1
      ensures m1[ip] == Counters(Cap(Total(parse, all, true, {ip})), Cap(Total(parse, all, false, {ip})))
    {
      if ip !in m {
        UnseenTotal(parse, lines, true, ip);
        UnseenTotal(parse, lines, false, ip);
      }
      CapAdds(Total(parse, lines, true, {ip}), l.sent);
      CapAdds(Total(parse, lines, false, {ip}), l.received);
    }
  }

  method ParseConntrack(parse: IpParser, output: string) returns (m: map<Ip, Counters>)
    ensures PerIp(parse, Lines(output), m)
  {
    hide Lines, LineOf, AddTo, PerIp;
    var lines := Lines(output);
    m := map[];
    assert PerIp(parse, [], m) by { PerIpNone(parse); }
    for i := 0 to |lines|
      invariant PerIp(parse, lines[..i], m)
    {
      assert lines[..i + 1] == lines[..i] + [lines[i]];
      var l := ParseLine(parse, lines[i]);
      PerIpStep(parse, lines[..i], lines[i], m);
      if l.client.Some? {
        m := AddTo(m, l.client.value, l.sent, l.received);
      }
    }
    assert lines[..|lines|] == lines;
  }

  lemma PerIpNone(parse: IpParser)
    ensures PerIp(parse, [], map[])
  {
  }

  // --- per client ----------------------------------------------------------

  /** The addresses that resolve to a client. */
  function IpsOf(resolved: map<Ip, Mac>, mac: Mac): set<Ip> {
    set ip | ip in resolved && resolved[ip] == mac
  }

  ghost predicate PerMac(parse: IpParser, lines: seq<string>, resolved: map<Ip, Mac>, done: set<Ip>,
                         m: map<Mac, Counters>) {
    && (forall mac :: mac in m <==> exists ip :: ip in done * IpsOf(resolved, mac))
    && forall mac :: mac in m ==>
         m[mac] == Counters(Cap(Total(parse, lines, true, done * IpsOf(resolved, mac))),
                            Cap(Total(parse, lines, false, done * IpsOf(resolved, mac))))
  }

  lemma {:induction false} TotalAdds(parse: IpParser, lines: seq<string>, sent: bool, ips: set<Ip>, ip: Ip)
    requires ip !in ips
    ensures Total(parse, lines, sent, ips + {ip}) == Total(parse, lines, sent, ips) + Total(parse, lines, sent, {ip})
  {
    hide LineOf;
    if lines != [] {
      TotalAdds(parse, lines[..|lines| - 1], sent, ips, ip);
    }
  }

  lemma {:induction false} TotalNone(parse: IpParser, lines: seq<string>, sent: bool)
    ensures Total(parse, lines, sent, {}) == 0
  {
    hide LineOf;
    if lines != [] {
      TotalNone(parse, lines[..|lines| - 1], sent);
    }
  }

  lemma PerMacStep(parse: IpParser, lines: seq<string>, resolved: map<Ip, Mac>, done: set<Ip>, ip: Ip,
                   m: map<Mac, Counters>)
    requires PerMac(parse, lines, resolved, done, m) && ip !in done
    ensures var sent, received := Cap(Total(parse, lines, true, {ip})), Cap(Total(parse, lines, false, {ip}));
            PerMac(parse, lines, resolved, done + {ip},
                   if ip in resolved then AddTo(m, resolved[ip], sent, received) else m)
  {
    hide Total, Cap, SatAdd;
    var sent, received := Cap(Total(parse, lines, true, {ip})), Cap(Total(parse, lines, false, {ip}));
    var m1 := if ip in resolved then AddTo(m, resolved[ip], sent, received) else m;
    forall mac ensures mac in m1 <==> exists x :: x in (done + {ip}) * IpsOf(resolved, mac) {
      MacSeen(resolved, done, ip, mac);
    }
    forall mac | mac in m1
      ensures m1[mac] == Counters(Cap(Total(parse, lines, true, (done + {ip}) * IpsOf(resolved, mac))),
                                  Cap(Total(parse, lines, false, (done + {ip}) * IpsOf(resolved, mac))))
    {
      MacStep(parse, lines, resolved, done, ip, m, mac);
    }
  }

  lemma MacSeen(resolved: map<Ip, Mac>, done: set<Ip>, ip: Ip, mac: Mac)
    ensures (exists x :: x in (done + {ip}) * IpsOf(resolved, mac))
       <==> (exists x :: x in done * IpsOf(resolved, mac)) || (ip in resolved && resolved[ip] == mac)
  {
    if ip in resolved && resolved[ip] == mac {
      assert ip in (done + {ip}) * IpsOf(resolved, mac);
    }
    if x :| x in done * IpsOf(resolved, mac) {
      assert x in (done + {ip}) * IpsOf(resolved, mac);
    }
    if x :| x in (done + {ip}) * IpsOf(resolved, mac) {
      assert x != ip ==> x in done * IpsOf(resolved, mac);
    }
  }

  lemma MacStep(parse: IpParser, lines: seq<string>, resolved: map<Ip, Mac>, done: set<Ip>, ip: Ip,
                m: map<Mac, Counters>, mac: Mac)
    requires PerMac(parse, lines, resolved, done, m) && ip !in done
    ensures var own := done * IpsOf(resolved, mac);
            var own1 := (done + {ip}) * IpsOf(resolved, mac);
            var (t, r) := (Cap(Total(parse, lines, true, {ip})), Cap(Total(parse, lines, false, {ip})));
            if ip in resolved && resolved[ip] == mac then
              Counters(SatAdd(Entry(m, mac).bytesOut, t), SatAdd(Entry(m, mac).bytesIn, r))
              == Counters(Cap(Total(parse, lines, true, own1)), Cap(Total(parse, lines, false, own1)))
            else own1 == own
  {
    hide Total, Cap, SatAdd;
    var own := done * IpsOf(resolved, mac);
    if ip in resolved && resolved[ip] == mac {
      assert (done + {ip}) * IpsOf(resolved, mac) == own + {ip};
      TotalAdds(parse, lines, true, own, ip);
      TotalAdds(parse, lines, false, own, ip);
      CapAdds(Total(parse, lines, true, own), Total(parse, lines, true, {ip}));
      CapAdds(Total(parse, lines, false, own), Total(parse, lines, false, {ip}));
      if mac !in m {
        assert own == {};
        TotalNone(parse, lines, true);
        TotalNone(parse, lines, false);
        CapZero();
      }
    } else {
      assert (done + {ip}) * IpsOf(resolved, mac) == own;
    }
  }

  /** What a client is reported: the capped sums over all lines whose client resolves to it. */
  ghost predicate Reported(parse: IpParser, lines: seq<string>, resolved: map<Ip, Mac>, m: map<Mac, Counters>) {
    && (forall mac :: mac in m <==> exists ip :: ip in IpsOf(resolved, mac) && Seen(parse, lines, ip))
    && forall mac :: mac in m ==>
         m[mac] == Counters(Cap(Total(parse, lines, true, IpsOf(resolved, mac))),
                            Cap(Total(parse, lines, false, IpsOf(resolved, mac))))
  }

  lemma {:induction false} SeenOnly(parse: IpParser, lines: seq<string>, sent: bool, ips: set<Ip>, seen: set<Ip>)
    requires forall ip :: Seen(parse, lines, ip) ==> ip in seen
    ensures Total(parse, lines, sent, seen * ips) == Total(parse, lines, sent, ips)
  {
    hide LineOf;
    if lines != [] {
      var init, line := lines[..|lines| - 1], lines[|lines| - 1];
      assert lines == init + [line];
      forall ip ensures Seen(parse, lines, ip) <==> Seen(parse, init, ip) || LineOf(parse, line).client == Some(ip) {
        SeenSnoc(parse, init, line, ip);
      }
      SeenOnly(parse, init, sent, ips, seen);
    }
  }

  lemma AllReported(parse: IpParser, lines: seq<string>, resolved: map<Ip, Mac>, perIp: map<Ip, Counters>,
                    m: map<Mac, Counters>)
    requires PerIp(parse, lines, perIp) && PerMac(parse, lines, resolved, perIp.Keys, m)
    ensures Reported(parse, lines, resolved, m)
  {
    hide Total, Seen, Cap;
    forall mac ensures mac in m <==> exists ip :: ip in IpsOf(resolved, mac) && Seen(parse, lines, ip) {
      if ip :| ip in IpsOf(resolved, mac) && Seen(parse, lines, ip) {
        assert ip in perIp.Keys * IpsOf(resolved, mac);
      }
      if ip :| ip in perIp.Keys * IpsOf(resolved, mac) {
        assert ip in perIp && Seen(parse, lines, ip);
      }
    }
    forall mac | mac in m
      ensures m[mac] == Counters(Cap(Total(parse, lines, true, IpsOf(resolved, mac))),
                                 Cap(Total(parse, lines, false, IpsOf(resolved, mac))))
    {
      SeenOnly(parse, lines, true, IpsOf(resolved, mac), perIp.Keys);
      SeenOnly(parse, lines, false, IpsOf(resolved, mac), perIp.Keys);
    }
  }

  /** The snapshot folds the addresses in whatever order the map yields them; every order reports the same: to each
      client the capped sum over all lines whose client resolves to it, and nothing of an address that resolves to no
      one. */
  method Snapshot(parse: IpParser, output: string, resolved: map<Ip, Mac>) returns (m: map<Mac, Counters>)
    ensures Reported(parse, Lines(output), resolved, m)
  {
    hide Lines, AddTo, PerMac, PerIp, Reported, Total, Cap;
    var perIp := ParseConntrack(parse, output);
    var left := perIp.Keys;
    m := map[];
    assert PerMac(parse, Lines(output), resolved, perIp.Keys - left, m) by {
      PerMacNone(parse, Lines(output), resolved, perIp.Keys - left);
    }
    while left != {}
      invariant left <= perIp.Keys && PerMac(parse, Lines(output), resolved, perIp.Keys - left, m)
      decreases |left|
    {
      var ip :| ip in left;
      PerIpAt(parse, Lines(output), perIp, ip);
      PerMacStep(parse, Lines(output), resolved, perIp.Keys - left, ip, m);
      if ip in resolved {
        m := AddTo(m, resolved[ip], perIp[ip].bytesOut, perIp[ip].bytesIn);
      }
      assert perIp.Keys - (left - {ip}) == (perIp.Keys - left) + {ip};
      left := left - {ip};
    }
    assert perIp.Keys - {} == perIp.Keys;
    AllReported(parse, Lines(output), resolved, perIp, m);
  }

  lemma PerMacNone(parse: IpParser, lines: seq<string>, resolved: map<Ip, Mac>, none: set<Ip>)
    requires none == {}
    ensures PerMac(parse, lines, resolved, none, map[])
  {
  }

  lemma PerIpAt(parse: IpParser, lines: seq<string>, m: map<Ip, Counters>, ip: Ip)
    requires PerIp(parse, lines, m) && ip in m
    ensures m[ip] == Counters(Cap(Total(parse, lines, true, {ip})), Cap(Total(parse, lines, false, {ip})))
  {
  }

  // --- conservation --------------------------------------------------------

  /** Every byte of the lines read for a set of addresses, with no cap anywhere: by the reference, or as read. */
  function RawTotal(parse: IpParser, lines: seq<string>, sent: bool, ips: set<Ip>): nat {
    if lines == [] then 0
    else
      var toks := Words(Trim(lines[|lines| - 1]));
      RawTotal(parse, lines[..|lines| - 1], sent, ips)
      + (match FirstSrc(parse, toks)
         case Some(ip) => if ip in ips then (if sent then Sent(parse, toks) else Received(parse, toks)) else 0
         case None => 0)
  }

  function ReadTotal(parse: IpParser, lines: seq<string>, sent: bool, ips: set<Ip>): nat {
    if lines == [] then 0
    else
      var toks := Words(Trim(lines[|lines| - 1]));
      ReadTotal(parse, lines[..|lines| - 1], sent, ips)
      + (match ReadClient(parse, toks)
         case Some(ip) => if ip in ips then (if sent then ReadSent(parse, toks) else ReadReceived(parse, toks)) else 0
         case None => 0)
  }

  predicate AllRight(parse: IpParser, lines: seq<string>) {
    forall i :: 0 <= i < |lines| ==> ReadRight(parse, Words(Trim(lines[i])))
  }

  lemma {:induction false} CapsAgree(parse: IpParser, lines: seq<string>, sent: bool, ips: set<Ip>)
    ensures Cap(Total(parse, lines, sent, ips)) == Cap(ReadTotal(parse, lines, sent, ips))
  {
    hide Words, Trim, ReadClient, ReadSent, ReadReceived, Srcs, RunToks, Cap;
    if lines != [] {
      var init, toks := lines[..|lines| - 1], Words(Trim(lines[|lines| - 1]));
      CapsAgree(parse, init, sent, ips);
      LineExact(parse, toks);
      CapChain(Total(parse, init, sent, ips), ReadTotal(parse, init, sent, ips),
               if sent then ReadSent(parse, toks) else ReadReceived(parse, toks));
    }
  }

  lemma {:induction false} RightTotals(parse: IpParser, lines: seq<string>, sent: bool, ips: set<Ip>)
    requires AllRight(parse, lines)
    ensures ReadTotal(parse, lines, sent, ips) == RawTotal(parse, lines, sent, ips)
  {
    hide Words, Trim, ReadClient, FirstSrc, ReadSent, ReadReceived, Sent, Received, Swapped, Dropped;
    if lines != [] {
      RightTotals(parse, lines[..|lines| - 1], sent, ips);
      MisreadExact(parse, Words(Trim(lines[|lines| - 1])));
    }
  }

  lemma CapChain(a: nat, b: nat, n: nat)
    requires Cap(a) == Cap(b)
    ensures Cap(a + Cap(n)) == Cap(b + n)
  {
  }

  /** The number, or the largest of 64 bits. */
  function Clamped(n: nat): nat {
    if n <= 0xFFFF_FFFF_FFFF_FFFF then n else 0xFFFF_FFFF_FFFF_FFFF
  }

  lemma CapClamps()
    ensures forall n :: Cap(n) == Clamped(n)
  {
  }

  /** Conservation, for every dump: each client's report is the smaller of `u64::MAX` and the sum over the lines whose
      client, as read, resolves to it. When every line is read right - as one of fewer than 256 sources is - that is the
      sum of the bytes before, respectively after, the second source of every line whose first source resolves to the
      client. */
  lemma BytesConserved(parse: IpParser, lines: seq<string>, resolved: map<Ip, Mac>, m: map<Mac, Counters>, mac: Mac)
    requires Reported(parse, lines, resolved, m)
    ensures Entry(m, mac) == Counters(Clamped(ReadTotal(parse, lines, true, IpsOf(resolved, mac))),
                                      Clamped(ReadTotal(parse, lines, false, IpsOf(resolved, mac))))
    ensures AllRight(parse, lines) ==>
              Entry(m, mac) == Counters(Clamped(RawTotal(parse, lines, true, IpsOf(resolved, mac))),
                                        Clamped(RawTotal(parse, lines, false, IpsOf(resolved, mac))))
  {
    hide Cap, Clamped, Total, RawTotal, ReadTotal, AllRight, Seen, IpsOf;
    CapClamps();
    CapsAgree(parse, lines, true, IpsOf(resolved, mac));
    CapsAgree(parse, lines, false, IpsOf(resolved, mac));
    if mac !in m {
      NothingOf(parse, lines, true, IpsOf(resolved, mac));
      NothingOf(parse, lines, false, IpsOf(resolved, mac));
      CapZero();
    }
    if AllRight(parse, lines) {
      RightTotals(parse, lines, true, IpsOf(resolved, mac));
      RightTotals(parse, lines, false, IpsOf(resolved, mac));
    }
  }

  lemma {:induction false} NothingOf(parse: IpParser, lines: seq<string>, sent: bool, ips: set<Ip>)
    requires forall ip :: ip in ips ==> !Seen(parse, lines, ip)
    ensures Total(parse, lines, sent, ips) == 0
  {
    hide LineOf;
    if lines != [] {
      var init, line := lines[..|lines| - 1], lines[|lines| - 1];
      assert lines == init + [line];
      forall ip | ip in ips ensures !Seen(parse, init, ip) && LineOf(parse, line).client != Some(ip) {
        SeenSnoc(parse, init, line, ip);
      }
      NothingOf(parse, init, sent, ips);
    }
  }
}
