/** The redirect URL: percent-encoded query values behind a normalized base, and how they are read back (sections 2.1
    and 2.3 of RFC 3986). A character below 256 stands for one byte of a value. */
module Location {
  import opened Text
  import opened Mac
  import opened Sign

  predicate IsBytes(s: Bytes) {
    forall c :: c in s ==> c as int < 256
  }

  /** Section 2.3 of RFC 3986. */
  predicate Unreserved(c: char) {
    IsAlphaNum(c) || c == '-' || c == '.' || c == '_' || c == '~'
  }

  function HexUpper(n: nat): char {
    if n <= 9 then ('0' as int + n) as char else if n <= 15 then ('A' as int + (n - 10)) as char else '0'
  }

  function EncodeByte(c: char): string {
    if Unreserved(c) then [c] else ['%', HexUpper(c as int / 16), HexUpper(c as int % 16)]
  }

  function Encode(s: Bytes): string {
    if s == "" then "" else Encode(s[..|s| - 1]) + EncodeByte(s[|s| - 1])
  }

  method EncodeQueryValue(s: Bytes) returns (r: string)
    ensures r == Encode(s)
  {
    hide Unreserved, HexUpper;
    r := "";
    for i := 0 to |s|
      invariant r == Encode(s[..i])
    {
      assert s[..i + 1][..i] == s[..i];
      if Unreserved(s[i]) {
        r := r + [s[i]];
      } else {
        r := r + ['%'] + [HexUpper(s[i] as int / 16)] + [HexUpper(s[i] as int % 16)];
      }
    }
    assert s[..|s|] == s;
  }

  function UpperVal(c: char): Option<nat> {
    if 'a' <= c <= 'f' then None else HexVal(c)
  }

  /** The reader of section 2.1: `%HH` is a byte, an unreserved character is itself, nothing else may appear. */
  function Decode(s: string): Option<Bytes>
    decreases |s|
  {
    if s == "" then Some("")
    else if Unreserved(s[0]) then
      match Decode(s[1..]) case None => None case Some(r) => Some([s[0]] + r)
    else if s[0] == '%' && |s| >= 3 then
      match (UpperVal(s[1]), UpperVal(s[2]), Decode(s[3..]))
      case (Some(hi), Some(lo), Some(r)) => Some([(hi * 16 + lo) as char] + r)
      case _ => None
    else None
  }

  lemma HexUpperVal(n: nat)
    requires n < 16
    ensures UpperVal(HexUpper(n)) == Some(n)
  {
  }

  lemma DecodeFirst(c: char, rest: string)
    requires c as int < 256 && Decode(rest).Some?
    ensures Decode(EncodeByte(c) + rest) == Some([c] + Decode(rest).value)
  {
    hide UpperVal, HexUpper;
    var s := EncodeByte(c) + rest;
    if Unreserved(c) {
      assert s[1..] == rest;
    } else {
      HexUpperVal(c as int / 16);
      HexUpperVal(c as int % 16);
      assert !Unreserved('%');
      assert s[3..] == rest;
    }
  }

  lemma {:induction false} EncodeFirst(s: Bytes)
    requires s != ""
    ensures Encode(s) == EncodeByte(s[0]) + Encode(s[1..])
  {
    hide EncodeByte;
    if |s| == 1 {
      assert s[..0] == "" && s[1..] == "";
      assert Encode("") == "";
    } else {
      var init, last, rest := s[..|s| - 1], s[|s| - 1], s[1..];
      EncodeFirst(init);
      assert init[1..] == rest[..|rest| - 1] && rest[|rest| - 1] == last && init[0] == s[0];
      assert EncodeByte(s[0]) + Encode(init[1..]) + EncodeByte(last)
          == EncodeByte(s[0]) + (Encode(init[1..]) + EncodeByte(last));
    }
  }

  /** Percent-encoding is inverted, for every byte string. */
  lemma {:induction false} DecodeEncode(s: Bytes)
    requires IsBytes(s)
    ensures Decode(Encode(s)) == Some(s)
  {
    hide EncodeByte, Decode, Encode;
    if s == "" {
      assert Encode("") == "" && Decode("") == Some("") by { EmptyCodes(); }
    } else {
      assert s[0] in s && forall c :: c in s[1..] ==> c in s;
      EncodeFirst(s);
      DecodeEncode(s[1..]);
      DecodeFirst(s[0], Encode(s[1..]));
      assert [s[0]] + s[1..] == s;
    }
  }

  /** One byte: itself when it is a letter, a digit, a dash, a dot, an underscore or a tilde, and else a percent sign
      and its two hexadecimal digits in upper case. */
  lemma EncodesByte(c: char)
    requires c as int < 256
    ensures var digits := "0123456789ABCDEF";
            Encode([c])
            == if 'a' <= c <= 'z' || 'A' <= c <= 'Z' || '0' <= c <= '9' || c == '-' || c == '.' || c == '_' || c == '~'
               then [c] else ['%', digits[c as int / 16], digits[c as int % 16]]
  {
    assert [c][..0] == "" && Encode("") == "";
  }

  /** A text is encoded byte by byte. */
  lemma {:induction false} EncodeJoins(a: Bytes, b: Bytes)
    ensures Encode(a + b) == Encode(a) + Encode(b)
    decreases b
  {
    hide EncodeByte;
    if b == "" {
      assert a + b == a;
    } else {
      var n := |b| - 1;
      assert (a + b)[..|a + b| - 1] == a + b[..n];
      EncodeJoins(a, b[..n]);
      assert (Encode(a) + Encode(b[..n])) + EncodeByte(b[n]) == Encode(a) + (Encode(b[..n]) + EncodeByte(b[n]));
    }
  }

  lemma EmptyCodes()
    ensures Encode("") == "" && Decode("") == Some("")
  {
  }

  /** Nothing but unreserved characters and percent signs is emitted: no separator, no white space, no control. */
  predicate Inert(s: string) {
    forall c :: c in s ==> Unreserved(c) || c == '%'
  }

  lemma HexUpperPlain(n: nat)
    ensures Unreserved(HexUpper(n))
  {
  }

  lemma {:induction false} EncodeInert(s: Bytes)
    ensures Inert(Encode(s))
  {
    hide Unreserved, HexUpper;
    if s != "" {
      EncodeInert(s[..|s| - 1]);
      HexUpperPlain(s[|s| - 1] as int / 16);
      HexUpperPlain(s[|s| - 1] as int % 16);
    }
  }

  // --- the whole URL -------------------------------------------------------

  /** `trim_end_matches('/')`. */
  function Normalized(base: string): (r: string)
    ensures r == "" || r[|r| - 1] != '/'
  {
    if base != "" && base[|base| - 1] == '/' then Normalized(base[..|base| - 1]) else base
  }

  function Query(mac: MacAddr, store: Bytes, ts: int, sig: string): string {
    "mac=" + Encode(PrintMac(mac)) + "&nas_id=" + Encode(store) + "&ts=" + PrintInt(ts) + "&sig=" + Encode(sig)
  }

  function BuildLocation(base: string, mac: MacAddr, store: Bytes, ts: int, sig: string): string {
    Normalized(base) + "/portal?" + Query(mac, store, ts, sig)
  }

  /** A form reader: parameters between ampersands, each a name and a percent-encoded value. */
  function ReadParam(p: string): Option<(string, Bytes)> {
    match SplitOnce(p, '=')
    case None => None
    case Some((k, v)) => match Decode(v) case None => None case Some(d) => Some((k, d))
  }

  function ReadParams(ps: seq<string>): Option<seq<(string, Bytes)>> {
    if ps == [] then Some([])
    else
      match (ReadParam(ps[0]), ReadParams(ps[1..]))
      case (Some(p), Some(rest)) => Some([p] + rest)
      case _ => None
  }

  function ReadQuery(q: string): Option<seq<(string, Bytes)>> {
    ReadParams(Split(q, '&'))
  }

  lemma ParamRead(k: string, v: string, d: Bytes)
    requires '=' !in k && Decode(v) == Some(d)
    ensures ReadParam(k + "=" + v) == Some((k, d))
  {
    SplitOnceAt(k, '=', v);
  }

  lemma InertNo(s: string)
    requires Inert(s)
    ensures '&' !in s && '=' !in s && '#' !in s && LineSafe(s)
  {
    assert !Unreserved('&') && !Unreserved('=') && !Unreserved('#') && !Unreserved('\n') && !Unreserved('\r');
  }

  lemma TsEncodes(ts: int)
    ensures Inert(PrintInt(ts)) && Encode(PrintInt(ts)) == PrintInt(ts) && IsBytes(PrintInt(ts))
  {
    hide PrintNat;
    assert forall c :: c in PrintInt(ts) ==> Unreserved(c) && c as int < 256;
    EncodePlain(PrintInt(ts));
  }

  lemma {:induction false} EncodePlain(s: string)
    requires forall c :: c in s ==> Unreserved(c)
    ensures Encode(s) == s
  {
    hide HexUpper, Unreserved;
    if s != "" {
      EncodePlain(s[..|s| - 1]);
      assert s[|s| - 1] in s;
    }
  }

  lemma FourParams(a: string, b: string, c: string, d: string)
    requires '&' !in a && '&' !in b && '&' !in c && '&' !in d
    ensures Split(a + "&" + b + "&" + c + "&" + d, '&') == [a, b, c, d]
  {
    hide Split, Find;
    assert a + "&" + b + "&" + c + "&" + d == a + ['&'] + (b + ['&'] + (c + ['&'] + d));
    SplitFirst(a, '&', b + ['&'] + (c + ['&'] + d));
    SplitFirst(b, '&', c + ['&'] + d);
    SplitFirst(c, '&', d);
    assert Split(d, '&') == [d] by { SplitLast(d); }
  }

  lemma SplitLast(d: string)
    requires '&' !in d
    ensures Split(d, '&') == [d]
  {
    FindNone(d, '&');
  }

  lemma ReadFour(a: string, b: string, c: string, d: string, pa: (string, Bytes), pb: (string, Bytes),
                 pc: (string, Bytes), pd: (string, Bytes))
    requires ReadParam(a) == Some(pa) && ReadParam(b) == Some(pb)
    requires ReadParam(c) == Some(pc) && ReadParam(d) == Some(pd)
    ensures ReadParams([a, b, c, d]) == Some([pa, pb, pc, pd])
  {
    hide ReadParam;
    assert [a, b, c, d][1..] == [b, c, d] && [b, c, d][1..] == [c, d] && [c, d][1..] == [d] && [d][1..] == [];
    assert [pd] + [] == [pd] && [pc] + [pd] == [pc, pd] && [pb] + [pc, pd] == [pb, pc, pd];
    assert ReadParams([d]) == Some([pd]);
    assert ReadParams([c, d]) == Some([pc, pd]);
    assert ReadParams([b, c, d]) == Some([pb, pc, pd]);
    assert [pa] + [pb, pc, pd] == [pa, pb, pc, pd];
  }

  lemma MacBytes(mac: MacAddr)
    ensures IsBytes(PrintMac(mac))
  {
    hide PrintMac;
    MacLength(mac);
  }

  lemma ValueParam(k: string, v: Bytes)
    requires IsBytes(v) && '=' !in k && '&' !in k
    ensures ReadParam(k + "=" + Encode(v)) == Some((k, v)) && '&' !in k + "=" + Encode(v)
  {
    hide Encode, Decode, ReadParam, Inert;
    EncodeInert(v);
    InertNo(Encode(v));
    DecodeEncode(v);
    ParamRead(k, Encode(v), v);
  }

  /** The four values are read back exactly, whatever the store and the signature contain: nothing in them can end a
      value, add a parameter or leave the line. */
  lemma LocationReadsBack(base: string, mac: MacAddr, store: Bytes, ts: int, sig: Bytes)
    requires IsBytes(store) && IsBytes(sig)
    ensures var url, head := BuildLocation(base, mac, store, ts, sig), Normalized(base) + "/portal?";
            && head <= url
            && ReadQuery(url[|head|..])
               == Some([("mac", PrintMac(mac)), ("nas_id", store), ("ts", PrintInt(ts)), ("sig", sig)])
  {
    hide PrintMac, PrintInt, Encode, Decode, ReadParam, Split, ReadParams, Normalized;
    MacBytes(mac);
    TsEncodes(ts);
    ValueParam("mac", PrintMac(mac));
    ValueParam("nas_id", store);
    ValueParam("ts", PrintInt(ts));
    ValueParam("sig", sig);
    var a, b := "mac" + "=" + Encode(PrintMac(mac)), "nas_id" + "=" + Encode(store);
    var c, d := "ts" + "=" + PrintInt(ts), "sig" + "=" + Encode(sig);
    FourParams(a, b, c, d);
    ReadFour(a, b, c, d, ("mac", PrintMac(mac)), ("nas_id", store), ("ts", PrintInt(ts)), ("sig", sig));
    QueryIs(mac, store, ts, sig, a, b, c, d);
    var url, head := BuildLocation(base, mac, store, ts, sig), Normalized(base) + "/portal?";
    assert url[|head|..] == Query(mac, store, ts, sig);
  }

  lemma QueryIs(mac: MacAddr, store: Bytes, ts: int, sig: Bytes, a: string, b: string, c: string, d: string)
    requires a == "mac" + "=" + Encode(PrintMac(mac)) && b == "nas_id" + "=" + Encode(store)
    requires c == "ts" + "=" + PrintInt(ts) && d == "sig" + "=" + Encode(sig)
    ensures Query(mac, store, ts, sig) == a + "&" + b + "&" + c + "&" + d
  {
    hide PrintMac, PrintInt, Encode;
    var m, s, t, g := Encode(PrintMac(mac)), Encode(store), PrintInt(ts), Encode(sig);
    assert "&nas_id=" == "&" + "nas_id" + "=" && "&ts=" == "&" + "ts" + "=" && "&sig=" == "&" + "sig" + "=";
    assert "mac=" == "mac" + "=";
  }
}
