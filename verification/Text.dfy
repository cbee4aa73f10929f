/** Strings as the engine's text forms use them: splitting, joining, lines, trimming, decimal numbers, and the
    byte order that a sorted map of strings iterates in. */
module Text {

  datatype Option<+T> = None | Some(value: T)

  /** The characters Rust's `char::is_whitespace` accepts. */
  predicate IsWhite(c: char) {
    || '\t' <= c <= '\r' || c == ' ' || c == '\U{85}' || c == '\U{A0}' || c == '\U{1680}'
    || '\U{2000}' <= c <= '\U{200A}' || c == '\U{2028}' || c == '\U{2029}' || c == '\U{202F}'
    || c == '\U{205F}' || c == '\U{3000}'
  }

  /** The characters Rust's `char::is_control` accepts. */
  predicate IsControl(c: char) {
    c <= '\U{1F}' || '\U{7F}' <= c <= '\U{9F}'
  }

  predicate IsDigit(c: char) { '0' <= c <= '9' }

  predicate IsAlphaNum(c: char) { IsDigit(c) || 'a' <= c <= 'z' || 'A' <= c <= 'Z' }

  // --- splitting -----------------------------------------------------------

  /** Index of the first `c`, or the length when there is none. */
  function Find(s: string, c: char): (i: nat)
    ensures i <= |s|
    ensures c !in s[..i]
    ensures i < |s| ==> s[i] == c
  {
    if s == [] then 0 else if s[0] == c then 0 else 1 + Find(s[1..], c)
  }

  lemma {:induction false} FindAt(a: string, c: char, b: string)
    requires c !in a
    ensures Find(a + [c] + b, c) == |a|
  {
    if a == [] {
      assert (a + [c] + b)[0] == c;
    } else {
      assert (a + [c] + b)[1..] == a[1..] + [c] + b;
      FindAt(a[1..], c, b);
    }
  }

  lemma {:induction false} FindNone(s: string, c: char)
    requires c !in s
    ensures Find(s, c) == |s|
  {
    if s != [] {
      FindNone(s[1..], c);
    }
  }

  /** `str::split_once`. */
  function SplitOnce(s: string, c: char): (r: Option<(string, string)>)
    ensures r.Some? ==> s == r.value.0 + [c] + r.value.1 && c !in r.value.0
    ensures r.None? ==> c !in s
  {
    var i := Find(s, c);
    if i < |s| then
      assert s == s[..i] + [c] + s[i + 1..];
      Some((s[..i], s[i + 1..]))
    else
      assert s[..i] == s;
      None
  }

  lemma SplitOnceAt(a: string, c: char, b: string)
    requires c !in a
    ensures SplitOnce(a + [c] + b, c) == Some((a, b))
  {
    FindAt(a, c, b);
    var s := a + [c] + b;
    assert s[..|a|] == a && s[|a| + 1..] == b;
  }

  /** `str::split`. */
  function Split(s: string, c: char): (parts: seq<string>)
    ensures parts != []
    decreases |s|
  {
    var i := Find(s, c);
    if i < |s| then [s[..i]] + Split(s[i + 1..], c) else [s]
  }

  /** `[String]::join`. */
  function Join(parts: seq<string>, c: char): string {
    if parts == [] then ""
    else if |parts| == 1 then parts[0]
    else parts[0] + [c] + Join(parts[1..], c)
  }

  function NonEmpty(parts: seq<string>): seq<string> {
    if parts == [] then []
    else (if parts[0] == "" then [] else [parts[0]]) + NonEmpty(parts[1..])
  }

  /** `split(c).filter(|s| !s.is_empty())`, the form in which every comma list is read back. */
  function SplitList(s: string, c: char): seq<string> {
    NonEmpty(Split(s, c))
  }

  lemma SplitFirst(a: string, c: char, b: string)
    requires c !in a
    ensures Split(a + [c] + b, c) == [a] + Split(b, c)
  {
    FindAt(a, c, b);
    var s := a + [c] + b;
    assert s[..|a|] == a && s[|a| + 1..] == b;
  }

  lemma {:induction false} SplitListJoin(parts: seq<string>, c: char)
    requires forall p :: p in parts ==> p != "" && c !in p
    ensures SplitList(Join(parts, c), c) == parts
  {
    if parts == [] {
      assert [""][1..] == [];
      assert NonEmpty(Split("", c)) == [];
    } else if |parts| == 1 {
      FindNone(parts[0], c);
      assert NonEmpty([parts[0]]) == [parts[0]] + NonEmpty([]);
      assert parts == [parts[0]];
    } else {
      SplitFirst(parts[0], c, Join(parts[1..], c));
      assert forall p :: p in parts[1..] ==> p in parts;
      SplitListJoin(parts[1..], c);
      var rest := Split(Join(parts[1..], c), c);
      assert ([parts[0]] + rest)[1..] == rest;
    }
  }

  // --- lines ---------------------------------------------------------------

  function DropCr(s: string): string {
    if s != "" && s[|s| - 1] == '\r' then s[..|s| - 1] else s
  }

  /** `str::lines`: split at newlines, an empty last line dropped, one carriage return before a newline dropped. */
  function Lines(s: string): seq<string>
    decreases |s|
  {
    if s == "" then []
    else
      var i := Find(s, '\n');
      if i < |s| then [DropCr(s[..i])] + Lines(s[i + 1..]) else [s]
  }

  /** Every line pushed with its newline. */
  function Unlines(ls: seq<string>): string {
    if ls == [] then "" else ls[0] + "\n" + Unlines(ls[1..])
  }

  /** A line that survives being written and read back. */
  predicate LineSafe(s: string) {
    '\n' !in s && '\r' !in s
  }

  lemma LinesFirst(a: string, rest: string)
    requires LineSafe(a)
    ensures Lines(a + "\n" + rest) == [a] + Lines(rest)
  {
    FindAt(a, '\n', rest);
    var s := a + ['\n'] + rest;
    assert s == a + "\n" + rest;
    assert s[..|a|] == a && s[|a| + 1..] == rest;
  }

  lemma LinesLast(a: string)
    requires LineSafe(a) && a != ""
    ensures Lines(a) == [a]
  {
    FindNone(a, '\n');
  }

  lemma {:induction false} LinesUnlines(ls: seq<string>)
    requires forall l :: l in ls ==> LineSafe(l)
    ensures Lines(Unlines(ls)) == ls
  {
    if ls != [] {
      LinesFirst(ls[0], Unlines(ls[1..]));
      LinesUnlines(ls[1..]);
    }
  }

  lemma {:induction false} UnlinesAppend(a: seq<string>, b: seq<string>)
    ensures Unlines(a + b) == Unlines(a) + Unlines(b)
  {
    if a == [] {
      assert a + b == b;
    } else {
      UnlinesAppend(a[1..], b);
      assert (a + b)[1..] == a[1..] + b;
    }
  }

  // --- substring search, affixes, trimming ---------------------------------

  /** `str::split_once` on a text pattern. */
  function SplitOnceText(s: string, pat: string): Option<(string, string)>
    decreases |s|
  {
    if pat <= s then Some(("", s[|pat|..]))
    else if s == "" then None
    else
      match SplitOnceText(s[1..], pat)
      case None => None
      case Some((a, b)) => Some(([s[0]] + a, b))
  }

  predicate EndsWith(s: string, suffix: string) {
    |suffix| <= |s| && s[|s| - |suffix|..] == suffix
  }

  /** A suffix starting at `c` is the part after the last `c`. */
  lemma EndsWithLast(pre: string, c: char, last: string, tail: string)
    requires c !in last && c !in tail
    ensures EndsWith(pre + [c] + last, [c] + tail) <==> last == tail
  {
    var s, suffix := pre + [c] + last, [c] + tail;
    var d := |s| - |suffix|;
    if |tail| == |last| {
      assert s[d..] == [c] + last;
      assert s[d..][1..] == last && suffix[1..] == tail;
    } else if |tail| < |last| {
      assert s[d..][0] == last[d - |pre| - 1];
    } else if d >= 0 {
      assert s[d..][|pre| - d] == c && suffix[|pre| - d] == tail[|pre| - d - 1];
    }
  }

  function TrimStart(s: string): string {
    if s != "" && IsWhite(s[0]) then TrimStart(s[1..]) else s
  }

  function TrimEnd(s: string): string {
    if s != "" && IsWhite(s[|s| - 1]) then TrimEnd(s[..|s| - 1]) else s
  }

  function Trim(s: string): string {
    TrimEnd(TrimStart(s))
  }

  lemma {:induction false} TrimStartBlank(s: string)
    ensures TrimStart(s) == "" <==> forall c :: c in s ==> IsWhite(c)
    ensures TrimStart(s) != "" ==> !IsWhite(TrimStart(s)[0])
  {
    if s != "" && IsWhite(s[0]) {
      TrimStartBlank(s[1..]);
      assert forall c :: c in s <==> c == s[0] || c in s[1..];
    } else if s != "" {
      assert s[0] in s;
    }
  }

  lemma {:induction false} TrimEndBlank(s: string)
    ensures TrimEnd(s) == "" <==> forall c :: c in s ==> IsWhite(c)
  {
    if s != "" && IsWhite(s[|s| - 1]) {
      TrimEndBlank(s[..|s| - 1]);
      assert s == s[..|s| - 1] + [s[|s| - 1]];
    } else if s != "" {
      assert s[|s| - 1] in s;
    }
  }

  lemma TrimBlank(s: string)
    ensures Trim(s) != "" <==> exists c :: c in s && !IsWhite(c)
  {
    hide TrimStart, TrimEnd;
    TrimStartBlank(s);
    TrimEndBlank(TrimStart(s));
    if TrimStart(s) != "" {
      assert TrimStart(s)[0] in TrimStart(s);
    }
  }

  /** Maximal runs of non-white characters: `str::split_whitespace`. */
  function Words(s: string): seq<string>
    decreases |s|
  {
    if s == "" then []
    else if IsWhite(s[0]) then Words(s[1..])
    else [s[..WordEnd(s)]] + Words(s[WordEnd(s)..])
  }

  function WordEnd(s: string): (i: nat)
    requires s != "" && !IsWhite(s[0])
    ensures 0 < i <= |s|
    ensures forall j :: 0 <= j < i ==> !IsWhite(s[j])
    ensures i < |s| ==> IsWhite(s[i])
    decreases |s|
  {
    if |s| == 1 || IsWhite(s[1]) then 1 else 1 + WordEnd(s[1..])
  }

  lemma {:induction false} WordsFirst(w: string, rest: string)
    requires w != "" && (forall c :: c in w ==> !IsWhite(c))
    requires rest == "" || IsWhite(rest[0])
    ensures Words(w + rest) == [w] + Words(rest)
  {
    var s := w + rest;
    assert forall j :: 0 <= j < |w| ==> s[j] == w[j] && w[j] in w;
    assert rest != "" ==> s[|w|] == rest[0];
    assert WordEnd(s) == |w|;
    assert s[..|w|] == w && s[|w|..] == rest;
  }

  // --- decimal numbers -----------------------------------------------------

  function DigitChar(d: nat): char
    requires d < 10
  {
    ['0', '1', '2', '3', '4', '5', '6', '7', '8', '9'][d]
  }

  function DigitVal(c: char): nat
    requires IsDigit(c)
  {
    c as int - '0' as int
  }

  function PrintNat(n: nat): (s: string)
    ensures s != "" && forall c :: c in s ==> IsDigit(c)
  {
    if n < 10 then [DigitChar(n)] else PrintNat(n / 10) + [DigitChar(n % 10)]
  }

  predicate AllDigits(s: string) {
    forall c :: c in s ==> IsDigit(c)
  }

  function DigitsVal(s: string): nat
    requires AllDigits(s)
  {
    if s == "" then 0 else DigitsVal(s[..|s| - 1]) * 10 + DigitVal(s[|s| - 1])
  }

  lemma {:induction false} PrintNatVal(n: nat)
    ensures DigitsVal(PrintNat(n)) == n
  {
    if n >= 10 {
      PrintNatVal(n / 10);
      var s := PrintNat(n);
      assert s[..|s| - 1] == PrintNat(n / 10);
    } else {
      assert PrintNat(n)[..0] == "";
    }
  }

  function PrintInt(n: int): string {
    if n < 0 then "-" + PrintNat(-n) else PrintNat(n)
  }

  /** `str::parse` for an integer type with range `lo..=hi`: an optional sign, then digits, in range. */
  function ParseInt(s: string, lo: int, hi: int): Option<int> {
    var neg := s != "" && s[0] == '-' && lo < 0;
    var digits := if neg || (s != "" && s[0] == '+') then s[1..] else s;
    if digits == "" || !AllDigits(digits) then None
    else
      var n: int := if neg then 0 - DigitsVal(digits) else DigitsVal(digits);
      if lo <= n <= hi then Some(n) else None
  }

  lemma PrintNatStart(n: nat)
    ensures PrintNat(n)[0] != '-' && PrintNat(n)[0] != '+'
  {
    assert PrintNat(n)[0] in PrintNat(n);
  }

  lemma ParsePrintInt(n: int, lo: int, hi: int)
    requires lo <= n <= hi
    ensures ParseInt(PrintInt(n), lo, hi) == Some(n)
  {
    hide PrintNat, DigitsVal;
    if n < 0 {
      PrintNatVal(-n);
      assert PrintInt(n)[1..] == PrintNat(-n);
    } else {
      PrintNatVal(n);
      PrintNatStart(n);
    }
  }

  const I64_MIN := -0x8000_0000_0000_0000
  const I64_MAX := 0x7FFF_FFFF_FFFF_FFFF
  const U64_MAX := 0xFFFF_FFFF_FFFF_FFFF

  // --- order ---------------------------------------------------------------

  /** Strictly before in the lexicographic order of a sorted map keyed by strings. */
  predicate Before(a: string, b: string) {
    b != "" && (a == "" || a[0] < b[0] || (a[0] == b[0] && Before(a[1..], b[1..])))
  }

  lemma {:induction false} BeforeTotal(a: string, b: string)
    ensures a == b || Before(a, b) || Before(b, a)
  {
    if a != "" && b != "" && a[0] == b[0] {
      BeforeTotal(a[1..], b[1..]);
      if a[1..] == b[1..] {
        assert a == [a[0]] + a[1..] && b == [b[0]] + b[1..];
      }
    }
  }

  lemma {:induction false} BeforeTrans(a: string, b: string, c: string)
    requires Before(a, b) && Before(b, c)
    ensures Before(a, c)
  {
    if a != "" && a[0] == b[0] && b[0] == c[0] {
      BeforeTrans(a[1..], b[1..], c[1..]);
    }
  }

  lemma {:induction false} BeforeIrreflexive(a: string)
    ensures !Before(a, a)
  {
    if a != "" {
      BeforeIrreflexive(a[1..]);
    }
  }

  lemma {:induction false} PrefixBefore(a: string, b: string)
    requires b != ""
    ensures Before(a, a + b)
  {
    if a != "" {
      assert (a + b)[1..] == a[1..] + b;
      PrefixBefore(a[1..], b);
    }
  }

  predicate Ascending(xs: seq<string>) {
    forall i, j :: 0 <= i < j < |xs| ==> Before(xs[i], xs[j])
  }

  method InsertAscending(xs: seq<string>, x: string) returns (r: seq<string>)
    requires Ascending(xs) && x !in xs
    ensures Ascending(r) && forall y :: y in r <==> y in xs || y == x
  {
    hide Before;
    var i := 0;
    while i < |xs| && Before(xs[i], x)
      invariant i <= |xs| && forall j :: 0 <= j < i ==> Before(xs[j], x)
    {
      i := i + 1;
    }
    r := xs[..i] + [x] + xs[i..];
    forall j | i <= j < |xs| ensures Before(x, xs[j]) {
      BeforeTotal(x, xs[i]);
      if j > i {
        BeforeTrans(x, xs[i], xs[j]);
      }
    }
  }
}
