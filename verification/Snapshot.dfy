/** The pre-apply snapshot: how it is read from `uci show`, and how it is written to and read from the marker. */
module Snapshot {
  import opened Text
  import opened Uci

  // --- keys as text --------------------------------------------------------

  function SectionText(s: Section): string {
    s.config + "." + s.name
  }

  function KeyText(k: Key): string {
    if k.Decl? then SectionText(k.sec) else SectionText(k.sec) + "." + k.option
  }

  function ParseKey(s: string): Option<Key> {
    match SplitOnce(s, '.')
    case None => None
    case Some((config, rest)) =>
      match SplitOnce(rest, '.')
      case None => Some(Decl(Section(config, rest)))
      case Some((name, option)) => if '.' in option then None else Some(Opt(Section(config, name), option))
  }

  lemma ParseTwo(config: string, name: string)
    requires '.' !in config && '.' !in name
    ensures ParseKey(config + "." + name) == Some(Decl(Section(config, name)))
  {
    SplitOnceAt(config, '.', name);
  }

  lemma ParseThree(config: string, name: string, option: string)
    requires '.' !in config && '.' !in name && '.' !in option
    ensures ParseKey(config + "." + name + "." + option) == Some(Opt(Section(config, name), option))
  {
    hide SplitOnce;
    SplitOnceAt(config, '.', name + "." + option);
    assert config + "." + name + "." + option == config + ['.'] + (name + "." + option);
    SplitOnceAt(name, '.', option);
    assert name + "." + option == name + ['.'] + option;
  }

  lemma ParseKeyText(k: Key)
    requires KeyOk(k)
    ensures ParseKey(KeyText(k)) == Some(k)
  {
    hide NameOk, SplitOnce;
    NameSafe(k.sec.config);
    NameSafe(k.sec.name);
    if k.Decl? {
      ParseTwo(k.sec.config, k.sec.name);
    } else {
      NameSafe(k.option);
      ParseThree(k.sec.config, k.sec.name, k.option);
    }
  }

  lemma KeyTextInjective(a: Key, b: Key)
    requires KeyOk(a) && KeyOk(b) && KeyText(a) == KeyText(b)
    ensures a == b
  {
    ParseKeyText(a);
    ParseKeyText(b);
  }

  /** In map order a section's declaration comes before each of its options. */
  lemma DeclBeforeOption(sec: Section, option: string)
    ensures Before(KeyText(Decl(sec)), KeyText(Opt(sec, option)))
  {
    assert KeyText(Opt(sec, option)) == KeyText(Decl(sec)) + ("." + option);
    PrefixBefore(KeyText(Decl(sec)), "." + option);
  }

  // --- a map keyed by key text, kept sorted --------------------------------

  type Sorted<V> = seq<(Key, V)>

  function Insert<V>(m: Sorted<V>, k: Key, v: V): Sorted<V> {
    if m == [] then [(k, v)]
    else if KeyText(m[0].0) == KeyText(k) then [(k, v)] + m[1..]
    else if Before(KeyText(k), KeyText(m[0].0)) then [(k, v)] + m
    else [m[0]] + Insert(m[1..], k, v)
  }

  function AsMap<V>(m: Sorted<V>): map<Key, V> {
    if m == [] then map[] else AsMap(m[1..])[m[0].0 := m[0].1]
  }

  ghost predicate IsSorted<V>(m: Sorted<V>) {
    forall i, j :: 0 <= i < j < |m| ==> Before(KeyText(m[i].0), KeyText(m[j].0))
  }

  ghost predicate KeysOk<V>(m: Sorted<V>) {
    forall p :: p in m ==> KeyOk(p.0)
  }

  lemma {:induction false} AsMapKeys<V>(m: Sorted<V>)
    ensures forall k :: k in AsMap(m) ==> exists i :: 0 <= i < |m| && m[i].0 == k && m[i].1 == AsMap(m)[k]
    ensures forall i :: 0 <= i < |m| ==> m[i].0 in AsMap(m)
  {
    forall k | k in AsMap(m)
      ensures exists i :: 0 <= i < |m| && m[i].0 == k && m[i].1 == AsMap(m)[k]
    {
      var i := AsMapAt(m, k);
    }
    if m != [] {
      AsMapKeys(m[1..]);
      forall i | 0 <= i < |m| ensures m[i].0 in AsMap(m) {
        if i > 0 {
          assert m[i] == m[1..][i - 1];
        }
      }
    }
  }

  lemma {:induction false} AsMapAt<V>(m: Sorted<V>, k: Key) returns (i: nat)
    requires k in AsMap(m)
    ensures i < |m| && m[i].0 == k && m[i].1 == AsMap(m)[k]
  {
    if k == m[0].0 {
      i := 0;
    } else {
      var j := AsMapAt(m[1..], k);
      i := j + 1;
    }
  }

  lemma {:induction false} InsertMap<V>(m: Sorted<V>, k: Key, v: V)
    requires KeysOk(m) && KeyOk(k)
    ensures KeysOk(Insert(m, k, v))
    ensures AsMap(Insert(m, k, v)) == AsMap(m)[k := v]
  {
    hide Before, KeyText, KeyOk;
    if m != [] {
      if KeyText(m[0].0) == KeyText(k) {
        KeyTextInjective(m[0].0, k);
        assert ([(k, v)] + m[1..])[1..] == m[1..];
      } else if Before(KeyText(k), KeyText(m[0].0)) {
        assert ([(k, v)] + m)[1..] == m;
      } else {
        InsertMap(m[1..], k, v);
        assert ([m[0]] + Insert(m[1..], k, v))[1..] == Insert(m[1..], k, v);
      }
    } else {
      assert [(k, v)][1..] == [];
    }
  }

  lemma {:induction false} InsertSorted<V>(m: Sorted<V>, k: Key, v: V)
    requires IsSorted(m)
    ensures IsSorted(Insert(m, k, v))
    ensures forall p :: p in Insert(m, k, v) ==> p == (k, v) || p in m
  {
    hide Before, KeyText;
    if m != [] {
      var r := Insert(m, k, v);
      if KeyText(m[0].0) != KeyText(k) {
        if Before(KeyText(k), KeyText(m[0].0)) {
          forall j | 1 <= j < |r| ensures Before(KeyText(k), KeyText(r[j].0)) {
            if j > 1 {
              BeforeTrans(KeyText(k), KeyText(m[0].0), KeyText(m[j - 1].0));
            }
          }
        } else {
          BeforeTotal(KeyText(m[0].0), KeyText(k));
          InsertSorted(m[1..], k, v);
          var t := Insert(m[1..], k, v);
          forall j | 0 <= j < |t| ensures Before(KeyText(m[0].0), KeyText(t[j].0)) {
            assert t[j] in t;
          }
        }
      }
    }
  }

  /** Inserting past the end appends. */
  lemma {:induction false} InsertLast<V>(m: Sorted<V>, k: Key, v: V)
    requires forall i :: 0 <= i < |m| ==> Before(KeyText(m[i].0), KeyText(k))
    ensures Insert(m, k, v) == m + [(k, v)]
  {
    hide Before, KeyText;
    if m != [] {
      BeforeIrreflexive(KeyText(k));
      if Before(KeyText(k), KeyText(m[0].0)) {
        BeforeTrans(KeyText(k), KeyText(m[0].0), KeyText(k));
        assert false;
      }
      InsertLast(m[1..], k, v);
      assert m == [m[0]] + m[1..];
    }
  }

  /** Inserting at the last key replaces its value. */
  lemma {:induction false} InsertOverLast<V>(m: Sorted<V>, k: Key, u: V, v: V)
    requires forall i :: 0 <= i < |m| ==> Before(KeyText(m[i].0), KeyText(k))
    ensures Insert(m + [(k, u)], k, v) == m + [(k, v)]
  {
    hide Before, KeyText;
    if m == [] {
      assert m + [(k, u)] == [(k, u)];
    } else {
      BeforeIrreflexive(KeyText(k));
      if Before(KeyText(k), KeyText(m[0].0)) {
        BeforeTrans(KeyText(k), KeyText(m[0].0), KeyText(k));
        assert false;
      }
      assert (m + [(k, u)])[1..] == m[1..] + [(k, u)];
      InsertOverLast(m[1..], k, u, v);
    }
  }

  // --- the snapshot --------------------------------------------------------

  datatype Snap = Snap(prior: Sorted<string>, lists: Sorted<seq<string>>, existing: seq<Section>)

  const EMPTY := Snap([], [], [])

  // --- reading `uci show` --------------------------------------------------

  function Quote(v: string): string {
    "'" + v + "'"
  }

  function Unquote(raw: string): string {
    var v := Trim(raw);
    if |v| >= 2 && v[0] == v[|v| - 1] && (v[0] == '\'' || v[0] == '"') then v[1..|v| - 1] else v
  }

  /** A value between two quotes of either kind is what stands between them, white space around the quotes or not. */
  lemma UnquoteEither(v: string, q: char)
    requires q == '\'' || q == '"'
    ensures Unquote([q] + v + [q]) == v
  {
    var t := [q] + v + [q];
    assert !IsWhite(t[0]) && !IsWhite(t[|t| - 1]);
    assert t[1..|t| - 1] == v;
  }

  function ShowElems(es: seq<string>): string {
    if es == [] then ""
    else if |es| == 1 then Quote(es[0])
    else Quote(es[0]) + " " + ShowElems(es[1..])
  }

  /** One line of `uci show`: a bare section type, a quoted scalar, or quoted list elements. */
  function ShowLine(k: Key, v: Value): string {
    KeyText(k) + "=" + ShowValue(k, v)
  }

  function ShowValue(k: Key, v: Value): string {
    match v
    case Scalar(t) => if k.Decl? then t else Quote(t)
    case List(es) => ShowElems(es)
  }

  function ShowLines(st: Store, ks: seq<Key>): seq<string> {
    if ks == [] then []
    else (if ks[0] in st then [ShowLine(ks[0], st[ks[0]])] else []) + ShowLines(st, ks[1..])
  }

  function ShowText(e: Env, st: Store, cfg: string): string {
    Unlines(ShowLines(st, e.order(st, cfg)))
  }

  /** `uci show` lists every key of the config and no other, in an order of its own. */
  ghost predicate ShowsAll(e: Env) {
    forall st: Store, cfg: string, k: Key :: k in e.order(st, cfg) <==> k in st && k.sec.config == cfg
  }

  /** Whether the text of a key names an owned section. */
  predicate IsOwnedText(key: string) {
    match SplitOnce(key, '.')
    case None => false
    case Some((_, sec)) => PREFIX <= sec
  }

  function UnquoteAll(ws: seq<string>): seq<string> {
    if ws == [] then [] else [Unquote(ws[0])] + UnquoteAll(ws[1..])
  }

  function ParseUciList(raw: string): seq<string> {
    NonEmpty(UnquoteAll(Words(raw)))
  }

  function ParseShowLine(snap: Snap, raw: string): Snap {
    var line := Trim(raw);
    if line == "" then snap
    else
      match SplitOnce(line, '=')
      case None => snap
      case Some((key, val)) =>
        if !IsOwnedText(key) then snap
        else
          match ParseKey(key)
          case None => snap
          case Some(k) =>
            var s1 := if k.Decl? && k.sec !in snap.existing then snap.(existing := snap.existing + [k.sec]) else snap;
            if EndsWith(key, "." + MACLIST) then s1.(lists := Insert(s1.lists, k, ParseUciList(val)))
            else s1.(prior := Insert(s1.prior, k, Unquote(val)))
  }

  function ParseShowLines(snap: Snap, ls: seq<string>): Snap
    decreases ls
  {
    if ls == [] then snap else ParseShowLines(ParseShowLine(snap, ls[0]), ls[1..])
  }

  function ParseShow(snap: Snap, text: string): Snap {
    ParseShowLines(snap, Lines(text))
  }

  /** The snapshot over the configs from the i-th on; a failing `show` aborts it, except for `sqm`. */
  function TakeFrom(e: Env, w: World, i: nat, snap: Snap): (World, Option<Snap>)
    requires i <= |OWNED_CONFIGS|
    decreases |OWNED_CONFIGS| - i
  {
    if i == |OWNED_CONFIGS| then (w, Some(snap))
    else if e.fails(w.tick) then
      if OWNED_CONFIGS[i] == "sqm" then TakeFrom(e, Pass(w), i + 1, snap) else (Pass(w), None)
    else TakeFrom(e, Pass(w), i + 1, ParseShow(snap, ShowText(e, w.staged, OWNED_CONFIGS[i])))
  }

  function TakeSnapshot(e: Env, w: World): (World, Option<Snap>) {
    TakeFrom(e, w, 0, EMPTY)
  }

  /** What reading one shown entry should do. */
  function Capture(snap: Snap, k: Key, v: Value): Snap {
    if !(PREFIX <= k.sec.name) then snap
    else
      var s1 := if k.Decl? && k.sec !in snap.existing then snap.(existing := snap.existing + [k.sec]) else snap;
      match v
      case List(es) => s1.(lists := Insert(s1.lists, k, es))
      case Scalar(t) => s1.(prior := Insert(s1.prior, k, t))
  }

  lemma {:induction false} TrimEdges(s: string)
    requires s != "" && !IsWhite(s[0]) && !IsWhite(s[|s| - 1])
    ensures Trim(s) == s
  {
  }

  lemma UnquoteQuote(v: string)
    ensures Unquote(Quote(v)) == v
  {
    TrimEdges(Quote(v));
  }

  lemma QuoteWord(x: string)
    requires NameOk(x)
    ensures x != "" && Quote(x) != "" && forall c :: c in Quote(x) ==> !IsWhite(c)
  {
    assert forall c :: c in Quote(x) ==> c == '\'' || c in x;
  }

  lemma ParseFirst(q: string, rest: string, x: string, es: seq<string>)
    requires Unquote(q) == x && x != "" && Words(q + rest) == [q] + Words(rest) && ParseUciList(rest) == es
    ensures ParseUciList(q + rest) == [x] + es
  {
    hide Unquote, Words;
    var ws := Words(rest);
    assert ([q] + ws)[1..] == ws;
    assert ([x] + UnquoteAll(ws))[1..] == UnquoteAll(ws);
  }

  lemma {:induction false} ListRoundTrip(es: seq<string>)
    requires forall x :: x in es ==> NameOk(x)
    ensures ParseUciList(ShowElems(es)) == es
  {
    hide Unquote, NameOk, Quote;
    if es != [] {
      var q := Quote(es[0]);
      assert es[0] in es;
      QuoteWord(es[0]);
      UnquoteQuote(es[0]);
      var rest := if |es| == 1 then "" else " " + ShowElems(es[1..]);
      assert ShowElems(es) == q + rest;
      WordsFirst(q, rest);
      ListRoundTrip(es[1..]);
      if |es| > 1 {
        assert rest[1..] == ShowElems(es[1..]);
      } else {
        assert es[1..] == [];
      }
      assert Words(rest) == Words(ShowElems(es[1..]));
      ParseFirst(q, rest, es[0], es[1..]);
      assert es == [es[0]] + es[1..];
    }
  }

  lemma {:induction false} ShowElemsSafe(es: seq<string>)
    requires forall x :: x in es ==> ValueOk(x)
    ensures LineSafe(ShowElems(es))
    ensures es != [] ==> ShowElems(es) != "" && ShowElems(es)[|ShowElems(es)| - 1] == '\''
  {
    if es != [] {
      assert es[0] in es;
      ShowElemsSafe(es[1..]);
    }
  }

  lemma NameSafe(s: string)
    requires NameOk(s)
    ensures LineSafe(s) && '=' !in s && '.' !in s && !IsWhite(s[0]) && !IsWhite(s[|s| - 1])
  {
    assert s[0] in s && s[|s| - 1] in s;
  }

  lemma KeyTextSafe(k: Key)
    requires KeyOk(k)
    ensures LineSafe(KeyText(k)) && '=' !in KeyText(k) && '#' !in KeyText(k) && '+' !in KeyText(k)
    ensures KeyText(k) != "" && !IsWhite(KeyText(k)[0])
  {
    NameSafe(k.sec.config);
    NameSafe(k.sec.name);
  }

  lemma ShowLineSafe(k: Key, v: Value)
    requires EntryOk(k, v)
    ensures LineSafe(ShowLine(k, v)) && Trim(ShowLine(k, v)) == ShowLine(k, v) && ShowLine(k, v) != ""
  {
    KeyTextSafe(k);
    match v {
      case Scalar(t) => if k.Decl? { NameSafe(t); }
      case List(es) => ShowElemsSafe(es);
    }
    TrimEdges(ShowLine(k, v));
  }

  lemma OwnedTextIff(k: Key)
    requires KeyOk(k)
    ensures IsOwnedText(KeyText(k)) <==> PREFIX <= k.sec.name
  {
    NameSafe(k.sec.config);
    NameSafe(k.sec.name);
    var rest := if k.Decl? then k.sec.name else k.sec.name + "." + k.option;
    assert KeyText(k) == k.sec.config + ['.'] + rest;
    SplitOnceAt(k.sec.config, '.', rest);
    assert |k.sec.name| >= 3 ==> rest[..3] == k.sec.name[..3];
    assert |k.sec.name| < 3 && k.Opt? ==> rest[|k.sec.name|] == '.' && '.' !in PREFIX;
  }

  lemma MaclistTextIff(k: Key)
    requires KeyOk(k) && PREFIX <= k.sec.name
    ensures EndsWith(KeyText(k), "." + MACLIST) <==> IsMaclist(k)
  {
    var last := if k.Decl? then k.sec.name else k.option;
    NameSafe(last);
    EndsWithLast(if k.Decl? then k.sec.config else SectionText(k.sec), '.', last, MACLIST);
    assert k.Decl? ==> last[..1] == PREFIX[..1] && MACLIST[..1] != PREFIX[..1];
  }

  lemma ShowValueParsed(k: Key, v: Value)
    requires EntryOk(k, v) && Owned(k.sec)
    ensures v.Scalar? ==> Unquote(ShowValue(k, v)) == v.text
    ensures v.List? ==> ParseUciList(ShowValue(k, v)) == v.elems
  {
    match v {
      case Scalar(t) =>
        if k.Decl? {
          NameSafe(t);
          TrimEdges(t);
          assert t[0] in t;
        } else {
          UnquoteQuote(t);
        }
      case List(es) => ListRoundTrip(es);
    }
  }

  /** Reading one shown line back captures exactly the entry shown. */
  lemma ParseShowLineOk(snap: Snap, k: Key, v: Value)
    requires EntryOk(k, v) && IsOwnedConfig(k.sec.config)
    ensures ParseShowLine(snap, ShowLine(k, v)) == Capture(snap, k, v)
  {
    ShowLineSafe(k, v);
    KeyTextSafe(k);
    SplitOnceAt(KeyText(k), '=', ShowValue(k, v));
    OwnedTextIff(k);
    ParseKeyText(k);
    if PREFIX <= k.sec.name {
      MaclistTextIff(k);
      ShowValueParsed(k, v);
    }
  }

  function CaptureAll(snap: Snap, st: Store, ks: seq<Key>): Snap
    decreases ks
  {
    if ks == [] then snap
    else CaptureAll(if ks[0] in st then Capture(snap, ks[0], st[ks[0]]) else snap, st, ks[1..])
  }

  lemma {:induction false} ParseShowLinesOk(snap: Snap, st: Store, ks: seq<Key>)
    requires Clean(st) && forall k :: k in ks ==> k in st && IsOwnedConfig(k.sec.config)
    ensures ParseShowLines(snap, ShowLines(st, ks)) == CaptureAll(snap, st, ks)
    ensures forall l :: l in ShowLines(st, ks) ==> LineSafe(l)
    decreases ks
  {
    if ks != [] {
      var k := ks[0];
      assert k in ks;
      ParseShowLineOk(snap, k, st[k]);
      ShowLineSafe(k, st[k]);
      ParseShowLinesOk(Capture(snap, k, st[k]), st, ks[1..]);
      assert ShowLines(st, ks)[1..] == ShowLines(st, ks[1..]);
    }
  }

  // --- the snapshot is exactly the owned part ------------------------------

  function Scalars(st: Store): map<Key, string> {
    map k | k in st && Owned(k.sec) && st[k].Scalar? :: st[k].text
  }

  function ListsOf(st: Store): map<Key, seq<string>> {
    map k | k in st && Owned(k.sec) && st[k].List? :: st[k].elems
  }

  /** `snap` holds every owned scalar, every owned list and every owned section of `st`, and nothing else. */
  ghost predicate Captures(snap: Snap, st: Store) {
    && IsSorted(snap.prior) && KeysOk(snap.prior) && AsMap(snap.prior) == Scalars(st)
    && IsSorted(snap.lists) && KeysOk(snap.lists) && AsMap(snap.lists) == ListsOf(st)
    && (set s | s in snap.existing) == OwnedSections(st)
  }

  lemma AddScalar(st: Store, k: Key, t: string)
    requires Owned(k.sec) && (k in st ==> st[k].Scalar?)
    ensures Scalars(st[k := Scalar(t)]) == Scalars(st)[k := t]
    ensures ListsOf(st[k := Scalar(t)]) == ListsOf(st)
  {
  }

  lemma AddList(st: Store, k: Key, es: seq<string>)
    requires Owned(k.sec) && (k in st ==> st[k].List?)
    ensures Scalars(st[k := List(es)]) == Scalars(st)
    ensures ListsOf(st[k := List(es)]) == ListsOf(st)[k := es]
  {
  }

  lemma AddUnowned(st: Store, k: Key, v: Value)
    requires !Owned(k.sec)
    ensures Scalars(st[k := v]) == Scalars(st) && ListsOf(st[k := v]) == ListsOf(st)
    ensures OwnedSections(st[k := v]) == OwnedSections(st)
  {
    var st' := st[k := v];
    assert forall j: Key :: Owned(j.sec) ==> (j in st <==> j in st');
    assert OwnedSections(st') == OwnedSections(st);
  }

  lemma AddSection(st: Store, k: Key, v: Value)
    requires Owned(k.sec)
    ensures OwnedSections(st[k := v]) == OwnedSections(st) + (if k.Decl? then {k.sec} else {})
  {
  }

  lemma CaptureOne(snap: Snap, st: Store, k: Key, v: Value)
    requires Captures(snap, st) && EntryOk(k, v) && IsOwnedConfig(k.sec.config)
    requires k in st ==> st[k] == v
    ensures Captures(Capture(snap, k, v), st[k := v])
  {
    if Owned(k.sec) {
      AddSection(st, k, v);
      match v {
        case Scalar(t) =>
          InsertMap(snap.prior, k, t);
          InsertSorted(snap.prior, k, t);
          AddScalar(st, k, t);
        case List(es) =>
          InsertMap(snap.lists, k, es);
          InsertSorted(snap.lists, k, es);
          AddList(st, k, es);
      }
    } else {
      AddUnowned(st, k, v);
    }
  }

  lemma {:induction false} CaptureAllOk(snap: Snap, done: Store, st: Store, ks: seq<Key>) returns (all: Store)
    requires Clean(st) && Captures(snap, done) && (forall k :: k in done ==> k in st && st[k] == done[k])
    requires forall k :: k in ks ==> k in st && IsOwnedConfig(k.sec.config)
    ensures Captures(CaptureAll(snap, st, ks), all)
    ensures forall k :: k in all <==> k in done || k in ks
    ensures forall k :: k in all ==> k in st && st[k] == all[k]
    decreases ks
  {
    if ks == [] {
      all := done;
    } else {
      var k := ks[0];
      assert k in ks;
      CaptureOne(snap, done, k, st[k]);
      all := CaptureAllOk(Capture(snap, k, st[k]), done[k := st[k]], st, ks[1..]);
    }
  }

  /** The config whose failing `show` and commit are tolerated: a device may have no traffic shaper. */
  const SQM := "sqm"

  /** A layer outside config `sqm`, and within it. */
  function NoSqm(st: Store): Store {
    map k | k in st && k.sec.config != SQM :: st[k]
  }

  function SqmPart(st: Store): Store {
    map k | k in st && k.sec.config == SQM :: st[k]
  }

  /** What `uci show` gave of a layer: all of it, or all but `sqm`. */
  function Shown(st: Store, sqm: bool): Store {
    if sqm then st else NoSqm(st)
  }

  /** The part of a layer held by a set of configs. */
  function Visible(st: Store, cfgs: set<string>): Store {
    map k | k in st && k.sec.config in cfgs :: st[k]
  }

  lemma VisibleGrows(st: Store, cfgs: set<string>, cfg: string, ks: seq<Key>, all: Store)
    requires forall k :: k in ks <==> k in st && k.sec.config == cfg
    requires forall k :: k in all <==> k in Visible(st, cfgs) || k in ks
    requires forall k :: k in all ==> k in st && st[k] == all[k]
    ensures all == Visible(st, cfgs + {cfg})
  {
    assert forall k :: k in all <==> k in Visible(st, cfgs + {cfg});
  }

  lemma ShownKeys(e: Env, st: Store, cfg: string)
    requires ShowsAll(e)
    ensures forall k :: k in e.order(st, cfg) <==> k in st && k.sec.config == cfg
  {
  }

  lemma ParseShowOk(e: Env, st: Store, cfg: string, snap: Snap, cfgs: set<string>)
    requires ShowsAll(e) && Clean(st) && IsOwnedConfig(cfg) && Captures(snap, Visible(st, cfgs))
    ensures Captures(ParseShow(snap, ShowText(e, st, cfg)), Visible(st, cfgs + {cfg}))
  {
    var ks := e.order(st, cfg);
    ShownKeys(e, st, cfg);
    ParseShowLinesOk(snap, st, ks);
    LinesUnlines(ShowLines(st, ks));
    var all := CaptureAllOk(snap, Visible(st, cfgs), st, ks);
    VisibleGrows(st, cfgs, cfg, ks, all);
  }

  lemma OnlySqmOptional(i: nat)
    requires i < |OWNED_CONFIGS|
    ensures OWNED_CONFIGS[i] == "sqm" <==> i == |OWNED_CONFIGS| - 1
  {
  }

  ghost predicate Quiet(e: Env, tick: nat, n: nat) {
    forall t :: tick <= t < tick + n ==> !e.fails(t)
  }

  /** Which configs a snapshot covers: all of them, or all but `sqm` when its `show` failed. */
  lemma {:induction false} TakeFromOk(e: Env, w: World, i: nat, snap: Snap, cfgs: set<string>)
    returns (seen: set<string>)
    requires i <= |OWNED_CONFIGS| && ShowsAll(e) && Clean(w.staged) && Captures(snap, Visible(w.staged, cfgs))
    requires forall j :: 0 <= j < i && j < |OWNED_CONFIGS| - 1 ==> OWNED_CONFIGS[j] in cfgs
    ensures TakeFrom(e, w, i, snap).1.Some? ==>
              && Captures(TakeFrom(e, w, i, snap).1.value, Visible(w.staged, seen))
              && (forall j :: 0 <= j < |OWNED_CONFIGS| - 1 ==> OWNED_CONFIGS[j] in seen)
    ensures TakeFrom(e, w, i, snap).1.Some? && SQM !in cfgs && i < |OWNED_CONFIGS| ==>
              (SQM in seen <==> !e.fails(w.tick + |OWNED_CONFIGS| - 1 - i))
    ensures i == |OWNED_CONFIGS| ==> seen == cfgs
    decreases |OWNED_CONFIGS| - i
  {
    hide Captures, Visible, Clean, ShowsAll, ParseShow, ShowText;
    seen := cfgs;
    if i < |OWNED_CONFIGS| {
      OnlySqmOptional(i);
      if e.fails(w.tick) {
        if i == |OWNED_CONFIGS| - 1 {
          seen := TakeFromOk(e, Pass(w), i + 1, snap, cfgs);
        }
      } else {
        var cfg := OWNED_CONFIGS[i];
        assert IsOwnedConfig(cfg);
        ParseShowOk(e, w.staged, cfg, snap, cfgs);
        seen := TakeFromOk(e, Pass(w), i + 1, ParseShow(snap, ShowText(e, w.staged, cfg)), cfgs + {cfg});
      }
    }
  }

  /** A snapshot is taken exactly when no `show` but that of `sqm` fails; taking it changes nothing. */
  lemma {:induction false} TakenIff(e: Env, w: World, i: nat, snap: Snap)
    requires i <= |OWNED_CONFIGS|
    ensures TakeFrom(e, w, i, snap).0 == w.(tick := TakeFrom(e, w, i, snap).0.tick)
    ensures TakeFrom(e, w, i, snap).1.Some? ==> TakeFrom(e, w, i, snap).0.tick == w.tick + |OWNED_CONFIGS| - i
    ensures i < |OWNED_CONFIGS| ==> (TakeFrom(e, w, i, snap).1.Some? <==> Quiet(e, w.tick, |OWNED_CONFIGS| - 1 - i))
    decreases |OWNED_CONFIGS| - i
  {
    hide ParseShow, ShowText;
    if i < |OWNED_CONFIGS| {
      OnlySqmOptional(i);
      var snap1 := if e.fails(w.tick) then snap else ParseShow(snap, ShowText(e, w.staged, OWNED_CONFIGS[i]));
      TakenIff(e, Pass(w), i + 1, snap1);
    }
  }

  lemma EmptyCaptures(st: Store)
    ensures Captures(EMPTY, Visible(st, {}))
  {
    assert Visible(st, {}) == map[];
  }

  lemma OwnedConfigsIn(cfgs: set<string>)
    requires forall j :: 0 <= j < |OWNED_CONFIGS| - 1 ==> OWNED_CONFIGS[j] in cfgs
    ensures forall c :: IsOwnedConfig(c) && c != SQM ==> c in cfgs
  {
    assert OWNED_CONFIGS[0] in cfgs && OWNED_CONFIGS[1] in cfgs && OWNED_CONFIGS[2] in cfgs && OWNED_CONFIGS[3] in cfgs;
  }

  /** Two layers with the same owned entries have the same snapshot. */
  lemma SameOwnedCaptures(snap: Snap, a: Store, b: Store)
    requires Captures(snap, a) && forall k: Key :: Owned(k.sec) ==> SameAt(a, b, k)
    ensures Captures(snap, b)
  {
    hide Owned, IsSorted, KeysOk, AsMap;
    assert Scalars(a) == Scalars(b) by {
      assert forall k: Key :: k in Scalars(a) <==> k in Scalars(b);
    }
    assert ListsOf(a) == ListsOf(b) by {
      assert forall k: Key :: k in ListsOf(a) <==> k in ListsOf(b);
    }
    assert OwnedSections(a) == OwnedSections(b) by {
      assert forall s: Section :: Owned(s) ==> SameAt(a, b, Decl(s));
    }
  }

  lemma VisibleShown(snap: Snap, st: Store, cfgs: set<string>)
    requires Captures(snap, Visible(st, cfgs))
    requires forall j :: 0 <= j < |OWNED_CONFIGS| - 1 ==> OWNED_CONFIGS[j] in cfgs
    ensures Captures(snap, Shown(st, SQM in cfgs))
  {
    hide Captures, IsOwnedConfig;
    OwnedConfigsIn(cfgs);
    SameOwnedCaptures(snap, Visible(st, cfgs), Shown(st, SQM in cfgs));
  }

  /** Reading back loses nothing: a snapshot that is taken at all, parsed from the shown text in whatever order the
      entries are shown, is exactly the owned part of the staged view - without `sqm` when its `show` failed. It is
      taken exactly when no other `show` fails. */
  lemma SnapshotExact(e: Env, w: World)
    requires ShowsAll(e) && Clean(w.staged)
    ensures TakeSnapshot(e, w).0 == w.(tick := TakeSnapshot(e, w).0.tick)
    ensures TakeSnapshot(e, w).1.Some? <==> Quiet(e, w.tick, |OWNED_CONFIGS| - 1)
    ensures TakeSnapshot(e, w).1.Some? ==>
              && TakeSnapshot(e, w).0.tick == w.tick + |OWNED_CONFIGS|
              && Captures(TakeSnapshot(e, w).1.value, Shown(w.staged, !e.fails(w.tick + |OWNED_CONFIGS| - 1)))
  {
    hide Captures, Visible, Clean, ShowsAll;
    EmptyCaptures(w.staged);
    var seen := TakeFromOk(e, w, 0, EMPTY, {});
    TakenIff(e, w, 0, EMPTY);
    if TakeSnapshot(e, w).1.Some? {
      VisibleShown(TakeSnapshot(e, w).1.value, w.staged, seen);
    }
  }
}
