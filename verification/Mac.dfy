/** MAC addresses: six octets, printed in one canonical form and parsed from several. */
module Mac {
  import opened Text

  type Octet = n: nat | n < 256

  /** Exactly six octets. */
  datatype MacAddr = MacAddr(b0: Octet, b1: Octet, b2: Octet, b3: Octet, b4: Octet, b5: Octet)

  function Octets(m: MacAddr): (r: seq<Octet>)
    ensures |r| == 6
  {
    [m.b0, m.b1, m.b2, m.b3, m.b4, m.b5]
  }

  function HexDigit(n: nat): char
    requires n < 16
  {
    ['0', '1', '2', '3', '4', '5', '6', '7', '8', '9', 'a', 'b', 'c', 'd', 'e', 'f'][n]
  }

  function Hex2(n: Octet): (s: string)
    ensures |s| == 2
  {
    [HexDigit(n / 16), HexDigit(n % 16)]
  }

  function PrintOctets(bs: seq<Octet>): string {
    if bs == [] then "" else if |bs| == 1 then Hex2(bs[0]) else Hex2(bs[0]) + ":" + PrintOctets(bs[1..])
  }

  /** `aa:bb:cc:dd:ee:ff`. */
  function PrintMac(m: MacAddr): string {
    PrintOctets(Octets(m))
  }

  function HexVal(c: char): Option<nat> {
    if '0' <= c <= '9' then Some(c as int - '0' as int)
    else if 'a' <= c <= 'f' then Some(c as int - 'a' as int + 10)
    else if 'A' <= c <= 'F' then Some(c as int - 'A' as int + 10)
    else None
  }

  function HexNum(s: string): Option<nat> {
    if s == "" then Some(0)
    else
      match (HexNum(s[..|s| - 1]), HexVal(s[|s| - 1]))
      case (Some(hi), Some(lo)) => Some(hi * 16 + lo)
      case _ => None
  }

  /** `u8::from_str_radix(s, 16)`: an optional plus sign, at least one digit, at most 255. */
  function ParseOctet(s: string): Option<Octet> {
    var digits := if s != "" && s[0] == '+' then s[1..] else s;
    if digits == "" then None
    else match HexNum(digits) case Some(n) => if n < 256 then Some(n) else None case None => None
  }

  /** The text is these digits, perhaps after one plus sign, and they spell `n`. */
  predicate Spells(s: string, digits: string, n: nat) {
    digits != "" && (s == digits || s == "+" + digits) && HexNum(digits) == Some(n)
  }

  /** What is read as an octet: hexadecimal digits of either case, at least one and as many as there are, perhaps after
      one plus sign, for a number below 256. */
  lemma OctetIff(s: string, n: Octet)
    ensures ParseOctet(s) == Some(n)
       <==> exists digits :: Spells(s, digits, n)
  {
    forall digits | digits != "" && digits[0] == '+' ensures HexNum(digits) == None {
      PlusNoDigit(digits);
    }
    forall digits ensures s == "+" + digits <==> s != "" && s[0] == '+' && digits == s[1..] {
      assert ("+" + digits)[0] == '+' && ("+" + digits)[1..] == digits;
      assert s != "" && s[0] == '+' ==> s == "+" + s[1..];
    }
    if ParseOctet(s) == Some(n) {
      var digits := if s[0] == '+' then s[1..] else s;
      assert Spells(s, digits, n);
    }
  }

  lemma {:induction false} PlusNoDigit(digits: string)
    requires digits != "" && digits[0] == '+'
    ensures HexNum(digits) == None
    decreases digits
  {
    if |digits| > 1 {
      PlusNoDigit(digits[..|digits| - 1]);
    }
  }

  /** Split at every colon and every dash. */
  function SplitSeps(s: string): (parts: seq<string>)
    ensures parts != []
    decreases |s|
  {
    if s == "" then [""]
    else
      var rest := SplitSeps(s[1..]);
      if s[0] == ':' || s[0] == '-' then [""] + rest else [[s[0]] + rest[0]] + rest[1..]
  }

  function ParseAll(parts: seq<string>): Option<seq<Octet>> {
    if parts == [] then Some([])
    else
      match (ParseAll(parts[..|parts| - 1]), ParseOctet(parts[|parts| - 1]))
      case (Some(bs), Some(b)) => Some(bs + [b])
      case _ => None
  }

  /** `None` where the source rejects: not six parts, or a part that is no octet. */
  method ParseMac(s: string) returns (r: Option<MacAddr>)
    ensures r.Some? <==> |SplitSeps(s)| == 6 && ParseAll(SplitSeps(s)).Some?
    ensures r.Some? ==> Some(Octets(r.value)) == ParseAll(SplitSeps(s))
  {
    hide ParseOctet;
    var parts := SplitSeps(s);
    if |parts| != 6 {
      return None;
    }
    var octets := new Octet[6](i => 0);
    for i := 0 to 6
      invariant ParseAll(parts[..i]) == Some(octets[..i])
    {
      assert parts[..i + 1][..i] == parts[..i];
      match ParseOctet(parts[i]) {
        case None =>
          NotAll(parts, i);
          return None;
        case Some(b) =>
          octets[i] := b;
      }
      assert octets[..i + 1] == octets[..i] + [octets[i]];
    }
    assert parts[..6] == parts;
    r := Some(MacAddr(octets[0], octets[1], octets[2], octets[3], octets[4], octets[5]));
    assert octets[..6] == Octets(r.value);
  }

  lemma {:induction false} NotAll(parts: seq<string>, i: nat)
    requires i < |parts| && ParseOctet(parts[i]) == None
    ensures ParseAll(parts) == None
  {
    if i < |parts| - 1 {
      NotAll(parts[..|parts| - 1], i);
    }
  }

  // --- printing is inverted by parsing -------------------------------------

  predicate IsLowerHex(c: char) {
    IsDigit(c) || 'a' <= c <= 'f'
  }

  lemma HexDigitVal(n: nat)
    requires n < 16
    ensures HexVal(HexDigit(n)) == Some(n)
    ensures IsLowerHex(HexDigit(n)) && IsAlphaNum(HexDigit(n))
  {
  }

  lemma HexNumTwo(a: char, b: char)
    requires HexVal(a).Some? && HexVal(b).Some?
    ensures HexNum([a, b]) == Some(HexVal(a).value * 16 + HexVal(b).value)
  {
    hide HexVal;
    assert [a, b][..1] == [a] && [a][..0] == "";
    assert HexNum([a]) == Some(HexVal(a).value);
  }

  lemma ParseHex2(n: Octet)
    ensures ParseOctet(Hex2(n)) == Some(n)
    ensures forall c :: c in Hex2(n) ==> IsLowerHex(c) && IsAlphaNum(c)
  {
    hide HexVal, HexDigit, HexNum;
    HexDigitVal(n / 16);
    HexDigitVal(n % 16);
    HexNumTwo(HexDigit(n / 16), HexDigit(n % 16));
    assert Hex2(n)[0] != '+';
  }

  lemma SplitPlain(s: string)
    requires forall c :: c in s ==> IsAlphaNum(c)
    ensures SplitSeps(s) == [s]
  {
    if s != "" {
      SplitPlain(s[1..]);
      assert s[0] in s && [s[0]] + s[1..] == s;
    }
  }

  lemma SplitAtColon(a: string, rest: string)
    requires forall c :: c in a ==> IsAlphaNum(c)
    ensures SplitSeps(a + ":" + rest) == [a] + SplitSeps(rest)
  {
    var s := a + ":" + rest;
    if a == "" {
      assert s[1..] == rest;
    } else {
      SplitAtColon(a[1..], rest);
      assert s[1..] == a[1..] + ":" + rest && s[0] == a[0] && a[0] in a;
      assert ([a[1..]] + SplitSeps(rest))[1..] == SplitSeps(rest);
      assert [a[0]] + a[1..] == a;
    }
  }

  function HexAll(bs: seq<Octet>): (r: seq<string>)
    ensures |r| == |bs| && forall i :: 0 <= i < |bs| ==> r[i] == Hex2(bs[i])
  {
    seq(|bs|, i requires 0 <= i < |bs| => Hex2(bs[i]))
  }

  lemma {:induction false} SplitPrinted(bs: seq<Octet>)
    requires bs != []
    ensures SplitSeps(PrintOctets(bs)) == HexAll(bs)
  {
    hide Hex2, ParseOctet;
    ParseHex2(bs[0]);
    if |bs| == 1 {
      SplitPlain(Hex2(bs[0]));
    } else {
      SplitAtColon(Hex2(bs[0]), PrintOctets(bs[1..]));
      SplitPrinted(bs[1..]);
      assert [Hex2(bs[0])] + HexAll(bs[1..]) == HexAll(bs);
    }
  }

  lemma {:induction false} ParsePrinted(bs: seq<Octet>)
    ensures ParseAll(HexAll(bs)) == Some(bs)
  {
    hide Hex2, ParseOctet;
    if bs != [] {
      var init, b := bs[..|bs| - 1], bs[|bs| - 1];
      assert HexAll(bs)[..|bs| - 1] == HexAll(init);
      ParsePrinted(init);
      ParseHex2(b);
      assert init + [b] == bs;
    }
  }

  /** What is printed is read back. */
  lemma MacRoundTrip(m: MacAddr)
    ensures SplitSeps(PrintMac(m)) == HexAll(Octets(m)) && ParseAll(SplitSeps(PrintMac(m))) == Some(Octets(m))
  {
    SplitPrinted(Octets(m));
    ParsePrinted(Octets(m));
  }

  lemma MacInjective(a: MacAddr, b: MacAddr)
    requires PrintMac(a) == PrintMac(b)
    ensures a == b
  {
    hide PrintOctets, SplitSeps, ParseAll, HexAll;
    MacRoundTrip(a);
    MacRoundTrip(b);
    assert Octets(a) == Octets(b);
    assert Octets(a)[0] == a.b0 && Octets(a)[1] == a.b1 && Octets(a)[2] == a.b2 && Octets(a)[3] == a.b3;
    assert Octets(a)[4] == a.b4 && Octets(a)[5] == a.b5;
  }

  lemma {:induction false} OctetsLength(bs: seq<Octet>)
    requires bs != []
    ensures |PrintOctets(bs)| == 3 * |bs| - 1
    ensures forall c :: c in PrintOctets(bs) ==> IsLowerHex(c) || c == ':'
  {
    hide Hex2, ParseOctet, IsLowerHex;
    ParseHex2(bs[0]);
    if |bs| > 1 {
      OctetsLength(bs[1..]);
    }
  }

  /** The canonical form is 17 characters long, and in lower case. */
  lemma MacLength(m: MacAddr)
    ensures |PrintMac(m)| == 17 && forall c :: c in PrintMac(m) ==> IsLowerHex(c) || c == ':'
  {
    OctetsLength(Octets(m));
  }

  // --- every form that is accepted -----------------------------------------

  /** A digit in either case. */
  function DigitIn(n: nat, upper: bool): char
    requires n < 16
  {
    (if upper then "0123456789ABCDEF" else "0123456789abcdef")[n]
  }

  /** An octet as written: its value, and the case of each digit. */
  datatype Written = Written(value: Octet, upperHigh: bool, upperLow: bool)

  function PairText(w: Written): string {
    [DigitIn(w.value / 16, w.upperHigh), DigitIn(w.value % 16, w.upperLow)]
  }

  /** The octets with a separator of either kind behind each but the last. */
  function WrittenText(ws: seq<Written>, dashes: seq<bool>): string
    requires |dashes| == |ws|
  {
    if ws == [] then ""
    else if |ws| == 1 then PairText(ws[0])
    else PairText(ws[0]) + (if dashes[0] then "-" else ":") + WrittenText(ws[1..], dashes[1..])
  }

  function Pairs(ws: seq<Written>): seq<string> {
    if ws == [] then [] else [PairText(ws[0])] + Pairs(ws[1..])
  }

  function Values(ws: seq<Written>): (r: seq<Octet>)
    ensures |r| == |ws| && forall i :: 0 <= i < |ws| ==> r[i] == ws[i].value
  {
    seq(|ws|, i requires 0 <= i < |ws| => ws[i].value)
  }

  lemma DigitInVal(n: nat, upper: bool)
    requires n < 16
    ensures HexVal(DigitIn(n, upper)) == Some(n) && IsAlphaNum(DigitIn(n, upper))
  {
  }

  lemma PairParsed(w: Written)
    ensures ParseOctet(PairText(w)) == Some(w.value) && forall c :: c in PairText(w) ==> IsAlphaNum(c)
  {
    hide HexVal, DigitIn, HexNum;
    DigitInVal(w.value / 16, w.upperHigh);
    DigitInVal(w.value % 16, w.upperLow);
    HexNumTwo(DigitIn(w.value / 16, w.upperHigh), DigitIn(w.value % 16, w.upperLow));
    assert PairText(w)[0] != '+';
  }

  lemma SplitAtSep(a: string, sep: char, rest: string)
    requires (forall c :: c in a ==> IsAlphaNum(c)) && (sep == ':' || sep == '-')
    ensures SplitSeps(a + [sep] + rest) == [a] + SplitSeps(rest)
  {
    var s := a + [sep] + rest;
    if a == "" {
      assert s[1..] == rest;
    } else {
      SplitAtSep(a[1..], sep, rest);
      assert s[1..] == a[1..] + [sep] + rest && s[0] == a[0] && a[0] in a;
      assert ([a[1..]] + SplitSeps(rest))[1..] == SplitSeps(rest);
      assert [a[0]] + a[1..] == a;
    }
  }

  lemma {:induction false} SplitWritten(ws: seq<Written>, dashes: seq<bool>)
    requires |dashes| == |ws| > 0
    ensures SplitSeps(WrittenText(ws, dashes)) == Pairs(ws)
  {
    hide PairText, ParseOctet;
    PairParsed(ws[0]);
    if |ws| == 1 {
      SplitPlain(PairText(ws[0]));
      assert ws[1..] == [];
    } else {
      SplitAtSep(PairText(ws[0]), if dashes[0] then '-' else ':', WrittenText(ws[1..], dashes[1..]));
      SplitWritten(ws[1..], dashes[1..]);
    }
  }

  lemma {:induction false} PairsAt(ws: seq<Written>, i: nat)
    requires i < |ws|
    ensures |Pairs(ws)| == |ws| && Pairs(ws)[i] == PairText(ws[i])
  {
    hide PairText;
    if i > 0 {
      PairsAt(ws[1..], i - 1);
    } else if |ws| > 1 {
      PairsAt(ws[1..], 0);
    }
  }

  lemma {:induction false} ParsePairs(ws: seq<Written>)
    ensures ParseAll(Pairs(ws)) == Some(Values(ws))
  {
    hide PairText, ParseOctet;
    if ws != [] {
      var n := |ws| - 1;
      PairsAt(ws, n);
      PairsLength(ws[..n]);
      forall i | 0 <= i < n ensures Pairs(ws)[i] == Pairs(ws[..n])[i] {
        PairsAt(ws, i);
        PairsAt(ws[..n], i);
      }
      assert Pairs(ws)[..n] == Pairs(ws[..n]);
      ParsePairs(ws[..n]);
      PairParsed(ws[n]);
      assert Values(ws[..n]) + [ws[n].value] == Values(ws);
    }
  }

  lemma {:induction false} PairsLength(ws: seq<Written>)
    ensures |Pairs(ws)| == |ws|
  {
    if ws != [] {
      PairsLength(ws[1..]);
    }
  }

  /** Six octets are read from any writing of them: digits of either case, colons and dashes mixed as they may. */
  lemma MacForms(ws: seq<Written>, dashes: seq<bool>)
    requires |ws| == |dashes| == 6
    ensures |SplitSeps(WrittenText(ws, dashes))| == 6
    ensures ParseAll(SplitSeps(WrittenText(ws, dashes))) == Some(Values(ws))
  {
    hide SplitSeps, WrittenText, Pairs, ParseAll;
    SplitWritten(ws, dashes);
    PairsLength(ws);
    ParsePairs(ws);
  }
}
