/** The signed identity tuple: the message format, the stack buffers it is formatted in, and sign against verify over
    an opaque keyed hash. A character below 256 stands for one byte. */
module Sign {
  import opened Text
  import opened Mac

  type Bytes = string

  function Message(mac: MacAddr, store: Bytes, ts: int): Bytes {
    PrintMac(mac) + "|" + store + "|" + PrintInt(ts)
  }

  predicate IsI64(ts: int) {
    I64_MIN <= ts <= I64_MAX
  }

  // --- a string of fixed capacity ------------------------------------------

  class StackStr {
    const buf: array<char>
    var len: nat

    ghost predicate Valid()
      reads this
    {
      len <= buf.Length
    }

    function Contents(): Bytes
      requires Valid()
      reads this, buf
    {
      buf[..len]
    }

    constructor (n: nat)
      ensures Valid() && fresh(buf) && buf.Length == n && Contents() == ""
    {
      buf := new char[n](_ => '\0');
      len := 0;
    }

    /** Append, or refuse and change nothing when it does not fit. */
    method WriteStr(s: Bytes) returns (ok: bool)
      requires Valid()
      modifies this, buf
      ensures Valid() && (ok <==> old(len) + |s| <= buf.Length)
      ensures Contents() == if ok then old(Contents()) + s else old(Contents())
    {
      var end := len + |s|;
      if end > buf.Length {
        return false;
      }
      for i := 0 to |s|
        invariant len == old(len)
        invariant buf[..len + i] == old(Contents()) + s[..i]
      {
        buf[len + i] := s[i];
        assert s[..i + 1] == s[..i] + [s[i]];
        assert buf[..len + i + 1] == buf[..len + i] + [s[i]];
      }
      assert s[..|s|] == s;
      len := end;
      ok := true;
    }
  }

  // --- how long the pieces get ---------------------------------------------

  function Pow10(k: nat): nat { if k == 0 then 1 else 10 * Pow10(k - 1) }

  lemma {:induction false} NatLength(n: nat, k: nat)
    requires k > 0 && n < Pow10(k)
    ensures |PrintNat(n)| <= k
  {
    if n >= 10 {
      assert k > 1;
      NatLength(n / 10, k - 1);
    }
  }

  lemma Pow10Of19()
    ensures Pow10(18) == 1_000_000_000_000_000_000 && Pow10(19) == 10_000_000_000_000_000_000
  {
    assert Pow10(4) == 10_000;
    assert Pow10(8) == 100_000_000;
    assert Pow10(12) == 1_000_000_000_000;
    assert Pow10(16) == 10_000_000_000_000_000;
  }

  lemma TsLength(ts: int)
    requires IsI64(ts)
    ensures |PrintInt(ts)| <= 20
  {
    Pow10Of19();
    if ts < 0 {
      NatLength(-ts, 19);
    } else {
      NatLength(ts, 19);
    }
  }

  /** Twenty bytes are needed: the smallest `i64` fills the buffer. */
  lemma TsFills()
    ensures |PrintInt(I64_MIN)| == 20
  {
    hide PrintNat, Pow10;
    TsLength(I64_MIN);
    Pow10Of19();
    LongNat(-I64_MIN, 18);
  }

  lemma {:induction false} LongNat(n: nat, k: nat)
    requires n >= Pow10(k)
    ensures |PrintNat(n)| > k
  {
    hide DigitChar;
    if k > 0 {
      Pow10Pos(k - 1);
      LongNat(n / 10, k - 1);
    }
  }

  lemma {:induction false} Pow10Pos(k: nat)
    ensures Pow10(k) >= 1
  {
    if k > 0 {
      Pow10Pos(k - 1);
    }
  }

  /** The message as it is fed to the hash: both buffers always hold their whole text, so the write errors the code
      ignores never happen. */
  method UpdateMessage(mac: MacAddr, store: Bytes, ts: int) returns (msg: Bytes)
    requires IsI64(ts)
    ensures msg == Message(mac, store, ts)
  {
    hide PrintMac, PrintInt;
    MacLength(mac);
    TsLength(ts);
    var macbuf := new StackStr(17);
    var _ := macbuf.WriteStr(PrintMac(mac));
    var tsbuf := new StackStr(20);
    var _ := tsbuf.WriteStr(PrintInt(ts));
    assert macbuf.Contents() == PrintMac(mac);
    msg := macbuf.Contents() + "|" + store + "|" + tsbuf.Contents();
  }

  // --- the message tells the tuple -----------------------------------------

  lemma TsNoBar(ts: int)
    ensures '|' !in PrintInt(ts)
  {
    hide PrintNat;
  }

  lemma BarNotAfter(s: Bytes, a: Bytes, x: Bytes, b: Bytes, y: Bytes)
    requires '|' !in x && s == a + "|" + x && s == b + "|" + y
    ensures |b| <= |a|
  {
    assert s[|b|] == '|';
    assert forall i :: |a| < i < |s| ==> s[i] == x[i - |a| - 1] && x[i - |a| - 1] in x;
  }

  /** A suffix behind the last bar is unique. */
  lemma LastBar(a: Bytes, x: Bytes, b: Bytes, y: Bytes)
    requires '|' !in x && '|' !in y && a + "|" + x == b + "|" + y
    ensures a == b && x == y
  {
    var s := a + "|" + x;
    BarNotAfter(s, a, x, b, y);
    BarNotAfter(s, b, y, a, x);
    assert s[..|a|] == a && (b + "|" + y)[..|b|] == b;
    assert s[|a| + 1..] == x && (b + "|" + y)[|b| + 1..] == y;
  }

  /** The message is injective over every address, every store - bars included - and every 64-bit time. */
  lemma MessageInjective(m1: MacAddr, s1: Bytes, t1: int, m2: MacAddr, s2: Bytes, t2: int)
    requires IsI64(t1) && IsI64(t2) && Message(m1, s1, t1) == Message(m2, s2, t2)
    ensures m1 == m2 && s1 == s2 && t1 == t2
  {
    hide PrintMac, PrintInt;
    TsNoBar(t1);
    TsNoBar(t2);
    var (a, b) := (PrintMac(m1) + "|" + s1, PrintMac(m2) + "|" + s2);
    LastBar(a, PrintInt(t1), b, PrintInt(t2));
    MacLength(m1);
    MacLength(m2);
    assert a[..17] == PrintMac(m1) && b[..17] == PrintMac(m2);
    assert a[18..] == s1 && b[18..] == s2;
    MacInjective(m1, m2);
    ParsePrintInt(t1, I64_MIN, I64_MAX);
    ParsePrintInt(t2, I64_MIN, I64_MAX);
  }

  /** Where everything stands: 17 bytes of address, a bar, the store, a bar, the time in decimal. */
  lemma MessageLayout(mac: MacAddr, store: Bytes, ts: int)
    ensures var (m, n) := (Message(mac, store, ts), |store|);
            && |m| == 19 + n + |PrintInt(ts)|
            && m[..17] == PrintMac(mac) && m[17] == '|' && m[18..18 + n] == store && m[18 + n] == '|'
            && m[19 + n..] == PrintInt(ts)
  {
    hide PrintMac, PrintInt;
    MacLength(mac);
  }

  // --- sign and verify -----------------------------------------------------

  function HexEncode(tag: seq<Octet>): string {
    if tag == [] then "" else HexEncode(tag[..|tag| - 1]) + Hex2(tag[|tag| - 1])
  }

  /** `hex::decode`: pairs of hex digits of either case. */
  function HexDecode(s: string): Option<seq<Octet>> {
    if s == "" then Some([])
    else if |s| == 1 then None
    else
      match (HexDecode(s[..|s| - 2]), HexNum(s[|s| - 2..]))
      case (Some(bs), Some(b)) => if b < 256 then Some(bs + [b]) else None
      case _ => None
  }

  /** The keyed hash, opaque: from a key and a message to a tag. */
  type Hash = (Bytes, Bytes) -> seq<Octet>

  function SignTuple(h: Hash, key: Bytes, mac: MacAddr, store: Bytes, ts: int): string {
    HexEncode(h(key, Message(mac, store, ts)))
  }

  predicate Verify(h: Hash, key: Bytes, mac: MacAddr, store: Bytes, ts: int, sig: string) {
    match HexDecode(sig)
    case None => false
    case Some(candidate) =>
      var expected := h(key, Message(mac, store, ts));
      |candidate| == |expected| && candidate == expected
  }

  lemma {:induction false} HexRoundTrip(tag: seq<Octet>)
    ensures HexDecode(HexEncode(tag)) == Some(tag)
  {
    hide Hex2, HexNum;
    if tag != [] {
      var init, b := tag[..|tag| - 1], tag[|tag| - 1];
      HexRoundTrip(init);
      var s := HexEncode(tag);
      assert s[..|s| - 2] == HexEncode(init) && s[|s| - 2..] == Hex2(b);
      Hex2Num(b);
      assert init + [b] == tag;
    }
  }

  lemma Hex2Num(b: Octet)
    ensures HexNum(Hex2(b)) == Some(b)
  {
    hide HexVal, HexDigit, HexNum;
    HexDigitVal(b / 16);
    HexDigitVal(b % 16);
    HexNumTwo(HexDigit(b / 16), HexDigit(b % 16));
  }

  /** A signature verifies for a tuple exactly when the two messages have the same tag - and so, when these two do not
      collide, for exactly the tuple it was made for. */
  lemma VerifyExact(h: Hash, key: Bytes, m1: MacAddr, s1: Bytes, t1: int, m2: MacAddr, s2: Bytes, t2: int)
    requires IsI64(t1) && IsI64(t2)
    ensures var (x, y) := (Message(m1, s1, t1), Message(m2, s2, t2));
            var good := Verify(h, key, m2, s2, t2, SignTuple(h, key, m1, s1, t1));
            && (good <==> h(key, x) == h(key, y))
            && ((h(key, x) == h(key, y) ==> x == y) ==> (good <==> m1 == m2 && s1 == s2 && t1 == t2))
  {
    hide Message, HexEncode, HexDecode;
    HexRoundTrip(h(key, Message(m1, s1, t1)));
    if Message(m1, s1, t1) == Message(m2, s2, t2) {
      MessageInjective(m1, s1, t1, m2, s2, t2);
    }
  }

  // --- which signatures verify ---------------------------------------------

  function LowerChar(c: char): char {
    if 'A' <= c <= 'F' then (c as int + 32) as char else c
  }

  /** The text with its upper-case hex digits in lower case. */
  function LowerHex(s: string): (r: string)
    ensures |r| == |s| && forall i :: 0 <= i < |s| ==> r[i] == LowerChar(s[i])
  {
    seq(|s|, i requires 0 <= i < |s| => LowerChar(s[i]))
  }

  lemma HexDigitIs(n: nat)
    requires n < 16
    ensures HexDigit(n) as int == if n < 10 then 48 + n else 87 + n
  {
  }

  lemma HexValIff(c: char, n: nat)
    requires n < 16
    ensures HexVal(c) == Some(n) <==> LowerChar(c) == HexDigit(n)
  {
    hide HexDigit;
    HexDigitIs(n);
  }

  lemma HexOf(c: char)
    ensures HexVal(c).Some? ==> HexVal(c).value < 16
  {
  }

  lemma PairIff(s: string, b: Octet)
    requires |s| == 2
    ensures HexNum(s) == Some(b) <==> LowerHex(s) == Hex2(b)
  {
    hide HexVal, HexDigit, HexNum, LowerChar;
    HexValIff(s[0], b / 16);
    HexValIff(s[1], b % 16);
    HexPairIs(s);
    HexOf(s[0]);
    HexOf(s[1]);
    assert LowerHex(s) == [LowerChar(s[0]), LowerChar(s[1])];
  }

  lemma HexPairIs(s: string)
    requires |s| == 2
    ensures HexNum(s) == match (HexVal(s[0]), HexVal(s[1]))
                         case (Some(x), Some(y)) => Some(x * 16 + y)
                         case _ => None
  {
    hide HexVal;
    HexNumOne(s[0]);
    assert s[..1] == [s[0]];
  }

  lemma HexNumOne(c: char)
    ensures HexNum([c]) == HexVal(c)
  {
    assert [c][..0] == "";
  }

  lemma {:induction false} HexEncodeLength(tag: seq<Octet>)
    ensures |HexEncode(tag)| == 2 * |tag|
  {
    if tag != [] {
      HexEncodeLength(tag[..|tag| - 1]);
    }
  }

  lemma {:induction false} HexDecodeLength(s: string)
    ensures HexDecode(s).Some? ==> |s| == 2 * |HexDecode(s).value|
    decreases |s|
  {
    hide HexNum;
    if |s| >= 2 {
      HexDecodeLength(s[..|s| - 2]);
    }
  }

  /** A text decodes to a tag exactly when, in lower case, it is the tag's hex form. */
  lemma {:induction false} DecodeIff(s: string, tag: seq<Octet>)
    ensures HexDecode(s) == Some(tag) <==> LowerHex(s) == HexEncode(tag)
    decreases |s|
  {
    hide HexNum, Hex2, LowerChar;
    HexEncodeLength(tag);
    HexDecodeLength(s);
    if |s| >= 2 && tag != [] && |s| == 2 * |tag| {
      var a, b := s[..|s| - 2], s[|s| - 2..];
      var init, last := tag[..|tag| - 1], tag[|tag| - 1];
      DecodeIff(a, init);
      PairIff(b, last);
      HexEncodeLength(init);
      assert LowerHex(s)[..|s| - 2] == LowerHex(a) && LowerHex(s)[|s| - 2..] == LowerHex(b);
      assert HexEncode(tag)[..|s| - 2] == HexEncode(init) && HexEncode(tag)[|s| - 2..] == Hex2(last);
      assert LowerHex(s) == LowerHex(a) + LowerHex(b);
      assert tag == init + [last];
    }
  }

  /** Exactly one signature verifies for a tuple: the one that is made for it, in digits of either case. */
  lemma VerifiesOnly(h: Hash, key: Bytes, mac: MacAddr, store: Bytes, ts: int, sig: string)
    ensures Verify(h, key, mac, store, ts, sig) <==> LowerHex(sig) == SignTuple(h, key, mac, store, ts)
  {
    hide Message, HexEncode, HexDecode, LowerHex, LowerChar;
    DecodeIff(sig, h(key, Message(mac, store, ts)));
  }
}
