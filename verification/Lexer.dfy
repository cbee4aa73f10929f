/** The configuration lexer: comments, quoting, tokens, and the line loop of the config reader. */
module Lexer {
  import opened Text

  // --- quote state ---------------------------------------------------------

  predicate IsQuote(c: char) {
    c == '\'' || c == '"'
  }

  function StepQuote(q: Option<char>, c: char): Option<char> {
    match q
    case Some(open) => if c == open then None else q
    case None => if IsQuote(c) then Some(c) else None
  }

  function QuoteAfter(q: Option<char>, s: string): Option<char>
    decreases s
  {
    if s == "" then q else QuoteAfter(StepQuote(q, s[0]), s[1..])
  }

  /** Drop everything from the first `#` outside quotes. */
  function Strip(q: Option<char>, s: string): string
    decreases s
  {
    if s == "" || (q.None? && s[0] == '#') then "" else [s[0]] + Strip(StepQuote(q, s[0]), s[1..])
  }

  // --- tokens --------------------------------------------------------------

  datatype Lex = Lex(tokens: seq<string>, cur: string, inToken: bool, quote: Option<char>)

  const START := Lex([], "", false, None)

  function StepLex(l: Lex, c: char): Lex {
    match l.quote
    case Some(open) => if c == open then l.(quote := None) else l.(cur := l.cur + [c])
    case None =>
      if IsQuote(c) then l.(quote := Some(c), inToken := true)
      else if IsWhite(c) then
        if l.inToken then l.(tokens := l.tokens + [l.cur], cur := "", inToken := false) else l
      else l.(cur := l.cur + [c], inToken := true)
  }

  function Scan(l: Lex, s: string): Lex
    decreases s
  {
    if s == "" then l else Scan(StepLex(l, s[0]), s[1..])
  }

  /** `None` for an unterminated quote. */
  function TokensOf(s: string): Option<seq<string>> {
    var l := Scan(START, s);
    if l.quote.Some? then None else Some(if l.inToken then l.tokens + [l.cur] else l.tokens)
  }

  lemma StripAt(q: Option<char>, line: string, i: nat)
    requires i < |line|
    ensures line[..i] + Strip(q, line[i..])
         == if q.None? && line[i] == '#' then line[..i] else line[..i + 1] + Strip(StepQuote(q, line[i]), line[i + 1..])
    ensures i + 1 == |line| ==> Strip(StepQuote(q, line[i]), line[i + 1..]) == ""
  {
    hide StepQuote;
    assert line[i..][0] == line[i] && line[i..][1..] == line[i + 1..];
    assert line[..i] + [line[i]] == line[..i + 1];
    assert line[..i] + ([line[i]] + Strip(StepQuote(q, line[i]), line[i + 1..]))
        == line[..i + 1] + Strip(StepQuote(q, line[i]), line[i + 1..]);
  }

  method StripComment(line: string) returns (r: string)
    ensures r == Strip(None, line)
  {
    hide Strip, IsQuote;
    var quote: Option<char> := None;
    assert line[..0] + Strip(None, line[0..]) == Strip(None, line) by {
      assert line[0..] == line;
    }
    NothingStripped(None);
    for i := 0 to |line|
      invariant i == |line| ==> Strip(quote, line[i..]) == ""
      invariant Strip(None, line) == line[..i] + Strip(quote, line[i..])
    {
      var c := line[i];
      StripAt(quote, line, i);
      match quote {
        case Some(open) =>
          if c == open {
            quote := None;
          }
        case None =>
          if c == '#' {
            return line[..i];
          }
          if IsQuote(c) {
            quote := Some(c);
          }
      }
    }
    assert line[..|line|] + "" == line;
    r := line;
  }

  lemma NothingStripped(q: Option<char>)
    ensures Strip(q, "") == ""
  {
  }

  method Tokenize(line: string) returns (r: Option<seq<string>>)
    ensures r == TokensOf(line)
  {
    var tokens: seq<string>, cur, inToken, quote: Option<char> := [], "", false, None;
    for i := 0 to |line|
      invariant Scan(START, line) == Scan(Lex(tokens, cur, inToken, quote), line[i..])
    {
      var c := line[i];
      assert line[i..][0] == c && line[i..][1..] == line[i + 1..];
      match quote {
        case Some(open) =>
          if c == open {
            quote := None;
          } else {
            cur := cur + [c];
          }
        case None =>
          if IsQuote(c) {
            quote, inToken := Some(c), true;
          } else if IsWhite(c) {
            if inToken {
              tokens, cur, inToken := tokens + [cur], "", false;
            }
          } else {
            cur, inToken := cur + [c], true;
          }
      }
    }
    if quote.Some? {
      return None;
    }
    if inToken {
      tokens := tokens + [cur];
    }
    r := Some(tokens);
  }

  // --- the two track the same quotes ---------------------------------------

  lemma {:induction false} SameQuotes(l: Lex, s: string)
    ensures Scan(l, s).quote == QuoteAfter(l.quote, s)
    decreases s
  {
    if s != "" {
      SameQuotes(StepLex(l, s[0]), s[1..]);
    }
  }

  /** Position `i` of the line starts a comment: a `#` at which the tokenizer is outside quotes. */
  predicate CommentAt(line: string, i: nat)
    requires i <= |line|
  {
    i < |line| && line[i] == '#' && Scan(START, line[..i]).quote == None
  }

  lemma {:induction false} StripIsPrefix(q: Option<char>, s: string)
    ensures Strip(q, s) <= s
    ensures |Strip(q, s)| < |s| ==> s[|Strip(q, s)|] == '#' && QuoteAfter(q, s[..|Strip(q, s)|]) == None
    ensures forall i :: 0 <= i < |Strip(q, s)| ==> s[i] != '#' || QuoteAfter(q, s[..i]) != None
    decreases s
  {
    if s != "" && !(q.None? && s[0] == '#') {
      var q1, rest := StepQuote(q, s[0]), s[1..];
      StripIsPrefix(q1, rest);
      var n := |Strip(q1, rest)|;
      if n < |rest| {
        assert s[..n + 1][0] == s[0] && s[..n + 1][1..] == rest[..n];
      }
      forall i | 0 <= i < n + 1 ensures s[i] != '#' || QuoteAfter(q, s[..i]) != None {
        if i > 0 {
          assert s[..i][0] == s[0] && s[..i][1..] == rest[..i - 1];
        }
      }
    }
  }

  /** `strip_comment` and `tokenize` agree on every prefix of every line: what is kept is exactly the part before the
      first `#` that the tokenizer would not take as quoted. */
  lemma CommentIsUnquoted(line: string)
    ensures var n := |Strip(None, line)|;
            && n <= |line| && Strip(None, line) == line[..n]
            && (n < |line| ==> CommentAt(line, n))
            && forall i :: 0 <= i < n ==> !CommentAt(line, i)
  {
    StripIsPrefix(None, line);
    var n := |Strip(None, line)|;
    SameQuotes(START, line[..n]);
    forall i | 0 <= i < n ensures !CommentAt(line, i) {
      SameQuotes(START, line[..i]);
    }
  }

  // --- a printer that quotes -----------------------------------------------

  /** Within single quotes; a single quote itself goes between double quotes. */
  function Escape(t: string): string {
    if t == "" then "" else (if t[0] == '\'' then "'\"'\"'" else [t[0]]) + Escape(t[1..])
  }

  function PrintToken(t: string): string {
    "'" + Escape(t) + "'"
  }

  function PrintTokens(ts: seq<string>): string {
    if ts == [] then "" else if |ts| == 1 then PrintToken(ts[0]) else PrintToken(ts[0]) + " " + PrintTokens(ts[1..])
  }

  lemma {:induction false} ScanAppend(l: Lex, a: string, b: string)
    ensures Scan(l, a + b) == Scan(Scan(l, a), b)
    decreases a
  {
    hide StepLex;
    if a == "" {
      assert a + b == b;
    } else {
      assert (a + b)[1..] == a[1..] + b;
      ScanAppend(StepLex(l, a[0]), a[1..], b);
    }
  }

  lemma ScanOne(l: Lex, c: char)
    ensures Scan(l, [c]) == StepLex(l, c)
  {
    hide StepLex;
    assert [c][1..] == "";
  }

  lemma ScanQuoted(l: Lex)
    requires l.quote == Some('\'') && l.inToken
    ensures Scan(l, "'\"'\"'") == l.(cur := l.cur + ['\''])
  {
    var s := "'\"'\"'";
    var l1 := StepLex(l, '\'');
    var l2 := StepLex(l1, '"');
    var l3 := StepLex(l2, '\'');
    var l4 := StepLex(l3, '"');
    assert s[1..] == "\"'\"'" && s[1..][1..] == "'\"'" && s[1..][1..][1..] == "\"'" && s[1..][1..][1..][1..] == "'";
    ScanOne(l4, '\'');
    assert Scan(l3, "\"'") == Scan(l4, "'");
    assert Scan(l2, "'\"'") == Scan(l3, "\"'");
    assert Scan(l1, "\"'\"'") == Scan(l2, "'\"'");
  }

  lemma {:induction false} ScanEscape(l: Lex, t: string)
    requires l.quote == Some('\'') && l.inToken
    ensures Scan(l, Escape(t)) == l.(cur := l.cur + t)
    decreases t
  {
    if t == "" {
      assert l.cur + t == l.cur;
    } else {
      var head := if t[0] == '\'' then "'\"'\"'" else [t[0]];
      ScanAppend(l, head, Escape(t[1..]));
      if t[0] == '\'' {
        ScanQuoted(l);
      } else {
        ScanOne(l, t[0]);
      }
      ScanEscape(l.(cur := l.cur + [t[0]]), t[1..]);
      assert l.cur + [t[0]] + t[1..] == l.cur + t;
    }
  }

  lemma ScanToken(done: seq<string>, t: string)
    ensures Scan(Lex(done, "", false, None), PrintToken(t)) == Lex(done, t, true, None)
  {
    hide Scan, Escape;
    var l := Lex(done, "", false, None);
    var l1 := l.(quote := Some('\''), inToken := true);
    ScanOne(l, '\'');
    ScanAppend(l, "'", Escape(t));
    ScanEscape(l1, t);
    assert "" + t == t;
    ScanAppend(l, "'" + Escape(t), "'");
    ScanOne(l1.(cur := t), '\'');
  }

  lemma ScanBlank(done: seq<string>, t: string)
    ensures Scan(Lex(done, t, true, None), " ") == Lex(done + [t], "", false, None)
  {
    hide Scan;
    ScanOne(Lex(done, t, true, None), ' ');
  }

  /** Where the scan stands after printed tokens: all but the last are done. */
  lemma {:induction false} ScanTokens(done: seq<string>, ts: seq<string>)
    requires ts != []
    ensures Scan(Lex(done, "", false, None), PrintTokens(ts))
         == Lex(done + ts[..|ts| - 1], ts[|ts| - 1], true, None)
    decreases ts
  {
    hide Scan, PrintToken, StepLex;
    var l := Lex(done, "", false, None);
    ScanToken(done, ts[0]);
    if |ts| == 1 {
      assert ts[..0] == [] && done + [] == done;
    } else {
      var init := ts[1..][..|ts| - 2];
      ScanAppend(l, PrintToken(ts[0]), " ");
      ScanBlank(done, ts[0]);
      ScanAppend(l, PrintToken(ts[0]) + " ", PrintTokens(ts[1..]));
      ScanTokens(done + [ts[0]], ts[1..]);
      assert ts[..|ts| - 1] == [ts[0]] + init;
      assert done + [ts[0]] + init == done + ([ts[0]] + init);
    }
  }

  lemma TokensBack(ts: seq<string>)
    ensures TokensOf(PrintTokens(ts)) == Some(ts)
  {
    hide PrintToken;
    if ts == [] {
      assert Scan(START, "") == START;
    } else {
      ScanTokens([], ts);
      assert [] + ts[..|ts| - 1] + [ts[|ts| - 1]] == ts;
    }
  }

  // --- every way to write a token ------------------------------------------

  /** A piece of a token: bare, or between quotes of either kind. */
  datatype Piece = Bare(text: string) | Single(text: string) | Double(text: string)

  /** A token in pieces, and the blanks after it. */
  datatype Word = Word(pieces: seq<Piece>, gap: string)

  predicate PieceOk(p: Piece) {
    match p
    case Bare(t) => t != "" && forall c :: c in t ==> !IsQuote(c) && !IsWhite(c)
    case Single(t) => '\'' !in t
    case Double(t) => '"' !in t
  }

  predicate WordsOk(ws: seq<Word>) {
    && (forall w :: w in ws ==> w.pieces != [] && forall p :: p in w.pieces ==> PieceOk(p))
    && (forall w :: w in ws ==> forall c :: c in w.gap ==> IsWhite(c))
    && forall i :: 0 <= i < |ws| - 1 ==> ws[i].gap != ""
  }

  function PieceText(p: Piece): string {
    match p
    case Bare(t) => t
    case Single(t) => "'" + t + "'"
    case Double(t) => "\"" + t + "\""
  }

  function PiecesText(ps: seq<Piece>): string {
    if ps == [] then "" else PieceText(ps[0]) + PiecesText(ps[1..])
  }

  function PiecesValue(ps: seq<Piece>): string {
    if ps == [] then "" else ps[0].text + PiecesValue(ps[1..])
  }

  function WordsText(ws: seq<Word>): string {
    if ws == [] then "" else PiecesText(ws[0].pieces) + ws[0].gap + WordsText(ws[1..])
  }

  function WordValues(ws: seq<Word>): seq<string> {
    if ws == [] then [] else [PiecesValue(ws[0].pieces)] + WordValues(ws[1..])
  }

  lemma {:induction false} ScanBare(l: Lex, t: string)
    requires l.quote == None && t != "" && forall c :: c in t ==> !IsQuote(c) && !IsWhite(c)
    ensures Scan(l, t) == l.(cur := l.cur + t, inToken := true)
    decreases t
  {
    hide IsQuote, IsWhite;
    assert t[0] in t && forall c :: c in t[1..] ==> c in t;
    var l1 := l.(cur := l.cur + [t[0]], inToken := true);
    assert StepLex(l, t[0]) == l1;
    if |t| > 1 {
      ScanBare(l1, t[1..]);
      assert l.cur + [t[0]] + t[1..] == l.cur + t;
    } else {
      assert t[1..] == "" && t == [t[0]];
    }
  }

  lemma {:induction false} ScanInside(l: Lex, open: char, t: string)
    requires l.quote == Some(open) && open !in t
    ensures Scan(l, t) == l.(cur := l.cur + t)
    decreases t
  {
    if t == "" {
      assert l.cur + t == l.cur;
    } else {
      assert t[0] in t && forall c :: c in t[1..] ==> c in t;
      ScanInside(l.(cur := l.cur + [t[0]]), open, t[1..]);
      assert l.cur + [t[0]] + t[1..] == l.cur + t;
    }
  }

  lemma ScanBetween(l: Lex, open: char, t: string)
    requires l.quote == None && IsQuote(open) && open !in t
    ensures Scan(l, [open] + t + [open]) == l.(cur := l.cur + t, inToken := true)
  {
    hide Scan;
    var l1 := l.(quote := Some(open), inToken := true);
    ScanOne(l, open);
    ScanAppend(l, [open], t);
    ScanInside(l1, open, t);
    ScanAppend(l, [open] + t, [open]);
    ScanOne(l1.(cur := l.cur + t), open);
  }

  lemma ScanPiece(l: Lex, p: Piece)
    requires l.quote == None && PieceOk(p)
    ensures Scan(l, PieceText(p)) == l.(cur := l.cur + p.text, inToken := true)
  {
    hide Scan;
    match p {
      case Bare(t) => ScanBare(l, t);
      case Single(t) => ScanBetween(l, '\'', t);
      case Double(t) => ScanBetween(l, '"', t);
    }
  }

  lemma {:induction false} ScanPieces(l: Lex, ps: seq<Piece>)
    requires l.quote == None && ps != [] && forall p :: p in ps ==> PieceOk(p)
    ensures Scan(l, PiecesText(ps)) == l.(cur := l.cur + PiecesValue(ps), inToken := true)
    decreases ps
  {
    hide Scan, PieceText, PieceOk;
    assert ps[0] in ps;
    var l1 := l.(cur := l.cur + ps[0].text, inToken := true);
    ScanPiece(l, ps[0]);
    ScanAppend(l, PieceText(ps[0]), PiecesText(ps[1..]));
    if |ps| > 1 {
      ScanPieces(l1, ps[1..]);
      assert l.cur + ps[0].text + PiecesValue(ps[1..]) == l.cur + PiecesValue(ps);
    } else {
      NoPieces(l1);
      assert ps[1..] == [] && ps[0].text + "" == ps[0].text;
    }
  }

  lemma NoPieces(l: Lex)
    ensures Scan(l, PiecesText([])) == l && PiecesValue([]) == ""
  {
  }

  lemma {:induction false} ScanGap(done: seq<string>, gap: string)
    requires forall c :: c in gap ==> IsWhite(c)
    ensures Scan(Lex(done, "", false, None), gap) == Lex(done, "", false, None)
    decreases gap
  {
    if gap != "" {
      assert gap[0] in gap && forall c :: c in gap[1..] ==> c in gap;
      ScanGap(done, gap[1..]);
    }
  }

  lemma ScanWord(done: seq<string>, w: Word)
    requires w.pieces != [] && (forall p :: p in w.pieces ==> PieceOk(p)) && forall c :: c in w.gap ==> IsWhite(c)
    ensures var l := Lex(done, "", false, None);
            Scan(l, PiecesText(w.pieces) + w.gap)
            == if w.gap == "" then l.(cur := PiecesValue(w.pieces), inToken := true)
               else l.(tokens := done + [PiecesValue(w.pieces)])
  {
    hide Scan, PieceOk, PiecesText, PiecesValue;
    var l, v := Lex(done, "", false, None), PiecesValue(w.pieces);
    ScanPieces(l, w.pieces);
    ScanAppend(l, PiecesText(w.pieces), w.gap);
    assert "" + v == v;
    var l1 := l.(cur := v, inToken := true);
    if w.gap == "" {
      NoText(l1);
    } else {
      assert w.gap == [w.gap[0]] + w.gap[1..] && w.gap[0] in w.gap && forall c :: c in w.gap[1..] ==> c in w.gap;
      ScanOne(l1, w.gap[0]);
      ScanAppend(l1, [w.gap[0]], w.gap[1..]);
      ScanGap(done + [v], w.gap[1..]);
    }
  }

  lemma NoText(l: Lex)
    ensures Scan(l, "") == l
  {
  }

  lemma {:induction false} ScanWords(done: seq<string>, ws: seq<Word>)
    requires WordsOk(ws)
    ensures var l := Scan(Lex(done, "", false, None), WordsText(ws));
            && l.quote == None
            && (if l.inToken then l.tokens + [l.cur] else l.tokens) == done + WordValues(ws)
    decreases ws
  {
    hide Scan, PiecesText, PiecesValue, PieceOk;
    var l := Lex(done, "", false, None);
    if ws == [] {
      NoText(l);
      assert done + [] == done;
    } else {
      var w, v := ws[0], PiecesValue(ws[0].pieces);
      assert w in ws && forall u :: u in ws[1..] ==> u in ws;
      ScanWord(done, w);
      ScanAppend(l, PiecesText(w.pieces) + w.gap, WordsText(ws[1..]));
      assert done + [v] + WordValues(ws[1..]) == done + WordValues(ws);
      if |ws| == 1 {
        assert ws[1..] == [];
        NoText(Scan(l, PiecesText(w.pieces) + w.gap));
        assert WordValues(ws) == [v];
      } else {
        assert w.gap != "";
        ScanWords(done + [v], ws[1..]);
      }
    }
  }

  /** However a line's tokens are written - bare, in either kind of quotes, or in any run of such pieces, with any
      blanks between them - the tokens read are the texts of their pieces joined. */
  lemma StyledRoundTrip(ws: seq<Word>)
    requires WordsOk(ws)
    ensures TokensOf(WordsText(ws)) == Some(WordValues(ws))
  {
    hide Scan, WordsText, WordValues, WordsOk;
    ScanWords([], ws);
    assert [] + WordValues(ws) == WordValues(ws);
  }

  // --- comments and blanks around it ---------------------------------------

  /** Nothing of `s` is taken for a comment. */
  predicate Kept(q: Option<char>, s: string) {
    Strip(q, s) == s
  }

  lemma {:induction false} StripAppend(q: Option<char>, a: string, b: string)
    requires Kept(q, a)
    ensures Strip(q, a + b) == a + Strip(QuoteAfter(q, a), b)
    decreases a
  {
    if a == "" {
      assert a + b == b;
    } else {
      assert (a + b)[1..] == a[1..] + b && (a + b)[0] == a[0];
      assert Strip(q, a)[1..] == Strip(StepQuote(q, a[0]), a[1..]);
      StripAppend(StepQuote(q, a[0]), a[1..], b);
      assert [a[0]] + (a[1..] + Strip(QuoteAfter(q, a), b)) == a + Strip(QuoteAfter(q, a), b);
    }
  }

  lemma KeptAppend(q: Option<char>, a: string, b: string)
    requires Kept(q, a) && Kept(QuoteAfter(q, a), b)
    ensures Kept(q, a + b)
  {
    StripAppend(q, a, b);
  }

  lemma {:induction false} QuoteAppend(q: Option<char>, a: string, b: string)
    ensures QuoteAfter(q, a + b) == QuoteAfter(QuoteAfter(q, a), b)
    decreases a
  {
    if a == "" {
      assert a + b == b;
    } else {
      assert (a + b)[1..] == a[1..] + b;
      QuoteAppend(StepQuote(q, a[0]), a[1..], b);
    }
  }

  lemma PlainKept(c: char)
    requires c != '\''
    ensures Kept(Some('\''), [c]) && QuoteAfter(Some('\''), [c]) == Some('\'')
  {
    hide Strip, QuoteAfter, Kept;
    NothingKept(Some('\''));
    StepKept(Some('\''), c, "");
    assert [c] + "" == [c];
  }

  lemma {:induction false} QuotedKept(t: string)
    ensures Kept(Some('\''), Escape(t)) && QuoteAfter(Some('\''), Escape(t)) == Some('\'')
  {
    hide Strip, QuoteAfter, Kept;
    if t == "" {
      NothingKept(Some('\''));
    } else {
      QuotedKept(t[1..]);
      var head := if t[0] == '\'' then "'\"'\"'" else [t[0]];
      if t[0] == '\'' {
        QuoteTrick();
      } else {
        PlainKept(t[0]);
      }
      KeptAppend(Some('\''), head, Escape(t[1..]));
      QuoteAppend(Some('\''), head, Escape(t[1..]));
    }
  }

  lemma StepKept(q: Option<char>, c: char, rest: string)
    requires (q.Some? || c != '#') && Kept(StepQuote(q, c), rest)
    ensures Kept(q, [c] + rest) && QuoteAfter(q, [c] + rest) == QuoteAfter(StepQuote(q, c), rest)
  {
    hide StepQuote;
    assert ([c] + rest)[0] == c && ([c] + rest)[1..] == rest;
  }

  lemma QuoteTrick()
    ensures Kept(Some('\''), "'\"'\"'") && QuoteAfter(Some('\''), "'\"'\"'") == Some('\'')
  {
    hide Strip, QuoteAfter, Kept;
    NothingKept(Some('\''));
    StepKept(None, '\'', "");
    assert ['\''] + "" == "'";
    StepKept(Some('"'), '"', "'");
    assert ['"'] + "'" == "\"'";
    StepKept(Some('"'), '\'', "\"'");
    assert ['\''] + "\"'" == "'\"'";
    StepKept(None, '"', "'\"'");
    assert ['"'] + "'\"'" == "\"'\"'";
    StepKept(Some('\''), '\'', "\"'\"'");
    assert ['\''] + "\"'\"'" == "'\"'\"'";
  }

  lemma NothingKept(q: Option<char>)
    ensures Kept(q, "") && QuoteAfter(q, "") == q
  {
  }

  lemma OneQuote()
    ensures Kept(None, "'") && QuoteAfter(None, "'") == Some('\'')
    ensures Kept(Some('\''), "'") && QuoteAfter(Some('\''), "'") == None
    ensures Kept(None, " ") && QuoteAfter(None, " ") == None
  {
    assert "'"[1..] == "" && " "[1..] == "";
  }

  lemma TokenKept(t: string)
    ensures Kept(None, PrintToken(t)) && QuoteAfter(None, PrintToken(t)) == None
  {
    hide Strip, QuoteAfter, Escape, Kept;
    OneQuote();
    QuotedKept(t);
    KeptAppend(None, "'", Escape(t));
    QuoteAppend(None, "'", Escape(t));
    KeptAppend(None, "'" + Escape(t), "'");
    QuoteAppend(None, "'" + Escape(t), "'");
  }

  lemma {:induction false} TokensKept(ts: seq<string>)
    ensures Kept(None, PrintTokens(ts)) && QuoteAfter(None, PrintTokens(ts)) == None
  {
    hide PrintToken;
    if ts != [] {
      TokenKept(ts[0]);
      if |ts| > 1 {
        OneQuote();
        KeptAppend(None, PrintToken(ts[0]), " ");
        QuoteAppend(None, PrintToken(ts[0]), " ");
        TokensKept(ts[1..]);
        KeptAppend(None, PrintToken(ts[0]) + " ", PrintTokens(ts[1..]));
        QuoteAppend(None, PrintToken(ts[0]) + " ", PrintTokens(ts[1..]));
      }
    }
  }

  predicate Blank(s: string) {
    forall c :: c in s ==> IsWhite(c)
  }

  /** Nothing, or a comment. */
  predicate Comment(s: string) {
    s == "" || s[0] == '#'
  }

  lemma {:induction false} BlankKept(s: string)
    requires Blank(s)
    ensures Kept(None, s) && QuoteAfter(None, s) == None
  {
    if s != "" {
      assert s[0] in s && forall c :: c in s[1..] ==> c in s;
      BlankKept(s[1..]);
    }
  }

  lemma {:induction false} TrimStartBlank(ws: string, s: string)
    requires Blank(ws) && (s == "" || !IsWhite(s[0]))
    ensures TrimStart(ws + s) == s
  {
    if ws == "" {
      assert ws + s == s;
    } else {
      assert ws[0] in ws && forall c :: c in ws[1..] ==> c in ws;
      assert (ws + s)[1..] == ws[1..] + s;
      TrimStartBlank(ws[1..], s);
    }
  }

  lemma {:induction false} TrimEndBlank(s: string, ws: string)
    requires Blank(ws) && (s == "" || !IsWhite(s[|s| - 1]))
    ensures TrimEnd(s + ws) == s
  {
    if ws == "" {
      assert s + ws == s;
    } else {
      var n := |ws| - 1;
      assert ws[n] in ws && forall c :: c in ws[..n] ==> c in ws;
      assert (s + ws)[..|s| + n] == s + ws[..n];
      TrimEndBlank(s, ws[..n]);
    }
  }

  lemma TrimBlanks(pre: string, s: string, post: string)
    requires Blank(pre) && Blank(post) && s != "" && !IsWhite(s[0]) && !IsWhite(s[|s| - 1])
    ensures Trim(pre + s + post) == s
  {
    assert pre + s + post == pre + (s + post);
    TrimStartBlank(pre, s + post);
    TrimEndBlank(s, post);
  }

  lemma AllBlank(pre: string, post: string)
    requires Blank(pre) && Blank(post)
    ensures Trim(pre + "" + post) == ""
  {
    assert Blank(pre + post) && pre + "" + post == pre + post;
    assert (pre + post) + "" == pre + post;
    TrimStartBlank(pre + post, "");
  }

  lemma {:induction false} PrintEdges(ts: seq<string>)
    requires ts != []
    ensures PrintTokens(ts) != "" && PrintTokens(ts)[0] == '\'' && PrintTokens(ts)[|PrintTokens(ts)| - 1] == '\''
  {
    if |ts| > 1 {
      PrintEdges(ts[1..]);
    }
  }

  /** The round trip of one line: any tokens - quotes, hashes, blanks, empty ones - printed quoted, with blanks around
      them and any comment after, are read back as they were. */
  lemma LineRoundTrip(pre: string, ts: seq<string>, post: string, comment: string)
    requires Blank(pre) && Blank(post) && Comment(comment)
    ensures var line := pre + PrintTokens(ts) + post + comment;
            && Trim(Strip(None, line)) == PrintTokens(ts)
            && TokensOf(Trim(Strip(None, line))) == Some(ts)
  {
    hide Strip, QuoteAfter, PrintTokens, Trim, TokensOf, Kept;
    BlankKept(pre);
    TokensKept(ts);
    BlankKept(post);
    KeptAppend(None, pre, PrintTokens(ts));
    QuoteAppend(None, pre, PrintTokens(ts));
    KeptAppend(None, pre + PrintTokens(ts), post);
    QuoteAppend(None, pre + PrintTokens(ts), post);
    StripAppend(None, pre + PrintTokens(ts) + post, comment);
    assert Strip(None, comment) == "" by { CommentGone(comment); }
    assert pre + PrintTokens(ts) + post + "" == pre + PrintTokens(ts) + post;
    if ts == [] {
      assert PrintTokens([]) == "" by { NothingPrinted(); }
      AllBlank(pre, post);
    } else {
      PrintEdges(ts);
      TrimBlanks(pre, PrintTokens(ts), post);
    }
    TokensBack(ts);
  }

  lemma CommentGone(s: string)
    requires Comment(s)
    ensures Strip(None, s) == ""
  {
  }

  lemma NothingPrinted()
    ensures PrintTokens([]) == ""
  {
  }

  // --- the config reader's line loop ---------------------------------------

  /** The typed options are applied by a function of the caller's; lists are appended to. */
  datatype Conf<C> = Conf(options: C, garden: seq<string>, radios: seq<string>, saw: bool)

  type Setter<!C> = (C, string, string) -> Option<C>

  /** One line's tokens; `None` is an error. */
  function Interpret<C>(apply: Setter<C>, c: Conf<C>, ts: seq<string>): Option<Conf<C>> {
    if ts == [] then Some(c)
    else if ts[0] == "config" then
      if |ts| > 1 && ts[1] == "portcullis" then Some(c.(saw := true)) else None
    else if ts[0] == "option" then
      if |ts| != 3 then None
      else match apply(c.options, ts[1], ts[2]) case None => None case Some(o) => Some(c.(options := o))
    else if ts[0] == "list" then
      if |ts| != 3 then None
      else if ts[1] == "garden_fqdn" then Some(c.(garden := c.garden + [ts[2]]))
      else if ts[1] == "wireless_protected_radio" then Some(c.(radios := c.radios + [ts[2]]))
      else None
    else None
  }

  function ReadLine<C>(apply: Setter<C>, c: Conf<C>, raw: string): Option<Conf<C>> {
    var line := Trim(Strip(None, raw));
    if line == "" then Some(c)
    else match TokensOf(line) case None => None case Some(ts) => Interpret(apply, c, ts)
  }

  function ReadLines<C>(apply: Setter<C>, c: Conf<C>, lines: seq<string>): Option<Conf<C>>
    decreases lines
  {
    if lines == [] then Some(c)
    else match ReadLine(apply, c, lines[0]) case None => None case Some(c1) => ReadLines(apply, c1, lines[1..])
  }

  /** A config without its section is an error as well. */
  function ReadConfig<C>(apply: Setter<C>, options: C, text: string): Option<Conf<C>> {
    match ReadLines(apply, Conf(options, [], [], false), Lines(text))
    case Some(c) => if c.saw then Some(c) else None
    case None => None
  }

  method FromUciStr<C>(apply: Setter<C>, options: C, text: string) returns (r: Option<Conf<C>>)
    ensures r == ReadConfig(apply, options, text)
  {
    hide Lines, Trim, Strip, TokensOf, Interpret;
    var c := Conf(options, [], [], false);
    var lines := Lines(text);
    for i := 0 to |lines|
      invariant ReadLines(apply, Conf(options, [], [], false), lines) == ReadLines(apply, c, lines[i..])
    {
      assert lines[i..][0] == lines[i] && lines[i..][1..] == lines[i + 1..];
      var kept := StripComment(lines[i]);
      var line := Trim(kept);
      if line != "" {
        var tokens := Tokenize(line);
        if tokens.None? {
          return None;
        }
        var next := Interpret(apply, c, tokens.value);
        if next.None? {
          return None;
        }
        c := next.value;
      }
    }
    r := if c.saw then Some(c) else None;
  }

  /** A line of a printed file: tokens with blanks around them and perhaps a comment. */
  datatype Row = Row(pre: string, tokens: seq<string>, post: string, comment: string)

  function RowText(r: Row): string {
    r.pre + PrintTokens(r.tokens) + r.post + r.comment
  }

  function RowTexts(rows: seq<Row>): seq<string> {
    if rows == [] then [] else [RowText(rows[0])] + RowTexts(rows[1..])
  }

  predicate RowOk(r: Row) {
    Blank(r.pre) && Blank(r.post) && Comment(r.comment) && LineSafe(RowText(r))
  }

  /** The meaning of the rows: their tokens, interpreted in order. */
  function InterpretAll<C>(apply: Setter<C>, c: Conf<C>, rows: seq<Row>): Option<Conf<C>>
    decreases rows
  {
    if rows == [] then Some(c)
    else match Interpret(apply, c, rows[0].tokens) case None => None case Some(c1) => InterpretAll(apply, c1, rows[1..])
  }

  lemma RowRead<C>(apply: Setter<C>, c: Conf<C>, r: Row)
    requires RowOk(r)
    ensures ReadLine(apply, c, RowText(r)) == Interpret(apply, c, r.tokens)
  {
    hide Strip, PrintTokens, Trim, TokensOf;
    LineRoundTrip(r.pre, r.tokens, r.post, r.comment);
    if r.tokens == [] {
      assert PrintTokens([]) == "" by { NothingPrinted(); }
    } else {
      PrintEdges(r.tokens);
    }
  }

  lemma {:induction false} RowsRead<C>(apply: Setter<C>, c: Conf<C>, rows: seq<Row>)
    requires forall r :: r in rows ==> RowOk(r)
    ensures ReadLines(apply, c, RowTexts(rows)) == InterpretAll(apply, c, rows)
    ensures forall l :: l in RowTexts(rows) ==> LineSafe(l)
    decreases rows
  {
    hide Interpret, RowText, ReadLine;
    if rows != [] {
      assert rows[0] in rows;
      RowRead(apply, c, rows[0]);
      RowIsSafe(rows[0]);
      assert RowTexts(rows)[1..] == RowTexts(rows[1..]);
      var next := Interpret(apply, c, rows[0].tokens);
      RowsRead(apply, if next.Some? then next.value else c, rows[1..]);
    }
  }

  lemma RowIsSafe(r: Row)
    requires RowOk(r)
    ensures LineSafe(RowText(r))
  {
  }

  /** A printed file means what its tokens mean, errors included, whatever the options are and whatever the values
      contain: printing and reading lose nothing. */
  lemma FileRoundTrip<C>(apply: Setter<C>, options: C, rows: seq<Row>)
    requires forall r :: r in rows ==> RowOk(r)
    ensures var c := InterpretAll(apply, Conf(options, [], [], false), rows);
            ReadConfig(apply, options, Unlines(RowTexts(rows))) == if c.Some? && c.value.saw then c else None
  {
    hide RowTexts, InterpretAll, ReadLines, RowOk, Lines, Unlines;
    RowsRead(apply, Conf(options, [], [], false), rows);
    LinesUnlines(RowTexts(rows));
  }

  // --- what the rows of a file mean ----------------------------------------

  /** A line the reader accepts, its option's value aside. */
  predicate RowAccepted(ts: seq<string>) {
    || ts == []
    || IsSection(ts)
    || (|ts| == 3 && ts[0] == "option")
    || (|ts| == 3 && ts[0] == "list" && (ts[1] == "garden_fqdn" || ts[1] == "wireless_protected_radio"))
  }

  predicate IsSection(ts: seq<string>) {
    |ts| >= 2 && ts[0] == "config" && ts[1] == "portcullis"
  }

  function Third(ts: seq<string>, word: string, key: string): seq<string> {
    if |ts| == 3 && ts[0] == word && ts[1] == key then [ts[2]] else []
  }

  /** The third tokens of the rows that start with the two words, in order. */
  function Thirds(rows: seq<Row>, word: string, key: string): seq<string> {
    if rows == [] then [] else Third(rows[0].tokens, word, key) + Thirds(rows[1..], word, key)
  }

  function Setting(ts: seq<string>): seq<(string, string)> {
    if |ts| == 3 && ts[0] == "option" then [(ts[1], ts[2])] else []
  }

  /** The name and value of every `option` row, in order. */
  function OptionRows(rows: seq<Row>): seq<(string, string)> {
    if rows == [] then [] else Setting(rows[0].tokens) + OptionRows(rows[1..])
  }

  /** The options after those settings, or `None` when one is refused. */
  function SetAll<C>(apply: Setter<C>, o: C, settings: seq<(string, string)>): Option<C>
    decreases settings
  {
    if settings == [] then Some(o)
    else
      match apply(o, settings[0].0, settings[0].1)
      case None => None
      case Some(o1) => SetAll(apply, o1, settings[1..])
  }

  predicate AllAccepted(rows: seq<Row>) {
    forall r :: r in rows ==> RowAccepted(r.tokens)
  }

  predicate SomeSection(rows: seq<Row>) {
    exists r :: r in rows && IsSection(r.tokens)
  }

  lemma Keywords()
    ensures "config" != "option" && "config" != "list" && "option" != "list"
    ensures "garden_fqdn" != "wireless_protected_radio"
  {
    assert |"config"| == 6 && |"list"| == 4 && "config"[0] != "option"[0];
    assert "garden_fqdn"[0] != "wireless_protected_radio"[0];
  }

  lemma RowStep(rows: seq<Row>)
    requires rows != []
    ensures AllAccepted(rows) <==> RowAccepted(rows[0].tokens) && AllAccepted(rows[1..])
    ensures SomeSection(rows) <==> IsSection(rows[0].tokens) || SomeSection(rows[1..])
  {
    hide RowAccepted, IsSection;
    assert forall r :: r in rows <==> r == rows[0] || r in rows[1..];
  }

  /** One row: its share of each list, its setting, and whether it is refused. */
  ghost predicate Means<C>(apply: Setter<C>, c: Conf<C>, ts: seq<string>, next: Option<Conf<C>>) {
    var o := SetAll(apply, c.options, Setting(ts));
    if RowAccepted(ts) && o.Some? then
      next == Some(Conf(o.value, c.garden + Third(ts, "list", "garden_fqdn"),
                        c.radios + Third(ts, "list", "wireless_protected_radio"), c.saw || IsSection(ts)))
    else next == None
  }

  lemma SettingOne<C>(apply: Setter<C>, o: C, n: string, v: string)
    ensures SetAll(apply, o, [(n, v)]) == apply(o, n, v) && SetAll(apply, o, []) == Some(o)
  {
    assert [(n, v)][1..] == [];
  }

  lemma RowMeans<C>(apply: Setter<C>, c: Conf<C>, ts: seq<string>)
    ensures Means(apply, c, ts, Interpret(apply, c, ts))
  {
    hide SetAll;
    Keywords();
    SettingOne(apply, c.options, "", "");
    assert c.garden + [] == c.garden && c.radios + [] == c.radios;
    if |ts| == 3 {
      SettingOne(apply, c.options, ts[1], ts[2]);
      if ts[0] == "list" {
        ListMeans(apply, c, ts);
      }
    }
  }

  lemma ListMeans<C>(apply: Setter<C>, c: Conf<C>, ts: seq<string>)
    requires |ts| == 3 && ts[0] == "list" && SetAll(apply, c.options, []) == Some(c.options)
    ensures Means(apply, c, ts, Interpret(apply, c, ts))
  {
    hide SetAll;
    Keywords();
    assert c.garden + [] == c.garden && c.radios + [] == c.radios;
  }

  lemma {:induction false} SetAllAppend<C>(apply: Setter<C>, o: C, a: seq<(string, string)>, b: seq<(string, string)>)
    ensures SetAll(apply, o, a + b)
         == match SetAll(apply, o, a) case None => None case Some(o1) => SetAll(apply, o1, b)
    decreases a
  {
    if a == [] {
      assert a + b == b;
    } else {
      assert (a + b)[0] == a[0] && (a + b)[1..] == a[1..] + b;
      if apply(o, a[0].0, a[0].1).Some? {
        SetAllAppend(apply, apply(o, a[0].0, a[0].1).value, a[1..], b);
      }
    }
  }

  lemma {:induction false} RowsMean<C>(apply: Setter<C>, c: Conf<C>, rows: seq<Row>)
    ensures InterpretAll(apply, c, rows).Some?
       <==> AllAccepted(rows) && SetAll(apply, c.options, OptionRows(rows)).Some?
    ensures InterpretAll(apply, c, rows).Some? ==>
              var r := InterpretAll(apply, c, rows).value;
              && r.garden == c.garden + Thirds(rows, "list", "garden_fqdn")
              && r.radios == c.radios + Thirds(rows, "list", "wireless_protected_radio")
              && Some(r.options) == SetAll(apply, c.options, OptionRows(rows))
              && (r.saw <==> c.saw || SomeSection(rows))
    decreases rows
  {
    hide AllAccepted, SomeSection, Interpret, RowAccepted, IsSection, Thirds, Third, OptionRows, Setting, SetAll;
    if rows == [] {
      NoRows(apply, c);
    } else {
      var ts := rows[0].tokens;
      RowStep(rows);
      RowMeans(apply, c, ts);
      SetAllAppend(apply, c.options, Setting(ts), OptionRows(rows[1..]));
      SplitRows(rows);
      var next := Interpret(apply, c, ts);
      if next.Some? {
        RowsMean(apply, next.value, rows[1..]);
      }
    }
  }

  lemma SplitRows(rows: seq<Row>)
    requires rows != []
    ensures OptionRows(rows) == Setting(rows[0].tokens) + OptionRows(rows[1..])
    ensures forall k :: Thirds(rows, "list", k) == Third(rows[0].tokens, "list", k) + Thirds(rows[1..], "list", k)
  {
  }

  lemma NoRows<C>(apply: Setter<C>, c: Conf<C>)
    ensures AllAccepted([]) && !SomeSection([]) && SetAll(apply, c.options, OptionRows([])) == Some(c.options)
    ensures c.garden + Thirds([], "list", "garden_fqdn") == c.garden
    ensures c.radios + Thirds([], "list", "wireless_protected_radio") == c.radios
  {
  }

  /** A printed file, on its rows alone: it is read exactly when every row has one of the accepted shapes, no option is
      refused and some row opens the section; the two lists are then the values of their rows, in order, and the options
      are those of the `option` rows, set in order. */
  lemma FileMeans<C>(apply: Setter<C>, options: C, rows: seq<Row>)
    requires forall r :: r in rows ==> RowOk(r)
    ensures var c := ReadConfig(apply, options, Unlines(RowTexts(rows)));
            && (c.Some? <==> AllAccepted(rows) && SomeSection(rows) && SetAll(apply, options, OptionRows(rows)).Some?)
            && (c.Some? ==>
                  && c.value.garden == Thirds(rows, "list", "garden_fqdn")
                  && c.value.radios == Thirds(rows, "list", "wireless_protected_radio")
                  && Some(c.value.options) == SetAll(apply, options, OptionRows(rows)))
  {
    hide RowTexts, InterpretAll, ReadConfig, RowOk, Unlines, Thirds, OptionRows, SetAll, AllAccepted, SomeSection;
    FileRoundTrip(apply, options, rows);
    RowsMean(apply, Conf(options, [], [], false), rows);
  }
}
