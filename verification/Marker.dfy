/** The tmpfs text of a snapshot and of the pending marker, and the proof that both are read back exactly. */
module Marker {
  import opened Text
  import opened Uci
  import opened Snapshot

  const SECTIONS := "#sections="
  const RULE := "\n---\n"

  // --- the snapshot as text ------------------------------------------------

  function SectionTexts(secs: seq<Section>): (r: seq<string>)
    ensures |r| == |secs| && forall i :: 0 <= i < |secs| ==> r[i] == SectionText(secs[i])
  {
    if secs == [] then [] else [SectionText(secs[0])] + SectionTexts(secs[1..])
  }

  function ParseSections(texts: seq<string>): seq<Section> {
    if texts == [] then []
    else
      (match ParseKey(texts[0]) case Some(Decl(s)) => [s] case _ => []) + ParseSections(texts[1..])
  }

  function ReadSections(v: string): seq<Section> {
    ParseSections(SplitList(v, ','))
  }

  function WriteSections(secs: seq<Section>): string {
    Join(SectionTexts(secs), ',')
  }

  function PriorLines(m: Sorted<string>): seq<string> {
    if m == [] then [] else [KeyText(m[0].0) + "=" + m[0].1] + PriorLines(m[1..])
  }

  function ElemLines(k: Key, es: seq<string>): seq<string> {
    if es == [] then [] else [KeyText(k) + "+=" + es[0]] + ElemLines(k, es[1..])
  }

  function ListLines(m: Sorted<seq<string>>): seq<string> {
    if m == [] then [] else ElemLines(m[0].0, m[0].1) + ListLines(m[1..])
  }

  function SnapLines(s: Snap): seq<string> {
    [SECTIONS + WriteSections(s.existing)] + PriorLines(s.prior) + ListLines(s.lists)
  }

  function SnapText(s: Snap): string {
    Unlines(SnapLines(s))
  }

  function ElemsAt(m: Sorted<seq<string>>, k: Key): seq<string> {
    if m == [] then [] else if KeyText(m[0].0) == KeyText(k) then m[0].1 else ElemsAt(m[1..], k)
  }

  /** One line of the text: the section header, a scalar `key=value`, or one list element `key+=value`. */
  function ReadLine(s: Snap, line: string): Snap {
    if SECTIONS <= line then s.(existing := ReadSections(line[|SECTIONS|..]))
    else if line == "" || line[0] == '#' then s
    else
      match SplitOnce(line, '=')
      case None => s
      case Some((k, v)) =>
        if EndsWith(k, "+") then
          match ParseKey(k[..|k| - 1])
          case None => s
          case Some(key) => s.(lists := Insert(s.lists, key, ElemsAt(s.lists, key) + [v]))
        else
          match ParseKey(k)
          case None => s
          case Some(key) => s.(prior := Insert(s.prior, key, v))
  }

  function ReadLines(s: Snap, ls: seq<string>): Snap
    decreases ls
  {
    if ls == [] then s else ReadLines(ReadLine(s, ls[0]), ls[1..])
  }

  function ReadSnap(text: string): Snap {
    ReadLines(EMPTY, Lines(text))
  }

  predicate SectionsOk(secs: seq<Section>) {
    forall s :: s in secs ==> KeyOk(Decl(s))
  }

  ghost predicate SnapOk(s: Snap) {
    && SectionsOk(s.existing)
    && IsSorted(s.prior) && KeysOk(s.prior) && (forall p :: p in s.prior ==> LineSafe(p.1))
    && IsSorted(s.lists) && KeysOk(s.lists)
    && (forall p :: p in s.lists ==> p.1 != [] && forall x :: x in p.1 ==> LineSafe(x))
  }

  lemma SectionTextOk(s: Section)
    requires KeyOk(Decl(s))
    ensures SectionText(s) != "" && ',' !in SectionText(s) && LineSafe(SectionText(s))
    ensures ParseKey(SectionText(s)) == Some(Decl(s))
  {
    ParseKeyText(Decl(s));
    KeyTextSafe(Decl(s));
  }

  lemma {:induction false} ParseSectionTexts(secs: seq<Section>)
    requires SectionsOk(secs)
    ensures ParseSections(SectionTexts(secs)) == secs
  {
    if secs != [] {
      SectionTextOk(secs[0]);
      ParseSectionTexts(secs[1..]);
      assert SectionTexts(secs)[1..] == SectionTexts(secs[1..]);
    }
  }

  lemma {:induction false} JoinSafe(parts: seq<string>)
    requires forall p :: p in parts ==> LineSafe(p)
    ensures LineSafe(Join(parts, ','))
  {
    if parts != [] {
      assert parts[0] in parts;
      JoinSafe(parts[1..]);
    }
  }

  lemma SectionsRoundTrip(secs: seq<Section>)
    requires SectionsOk(secs)
    ensures ReadSections(WriteSections(secs)) == secs
    ensures LineSafe(WriteSections(secs))
  {
    forall t | t in SectionTexts(secs) ensures t != "" && ',' !in t && LineSafe(t) {
      var i :| 0 <= i < |secs| && t == SectionTexts(secs)[i];
      SectionTextOk(secs[i]);
    }
    SplitListJoin(SectionTexts(secs), ',');
    JoinSafe(SectionTexts(secs));
    ParseSectionTexts(secs);
  }

  lemma KeyLineStart(k: Key)
    requires KeyOk(k)
    ensures KeyText(k) != "" && KeyText(k)[0] != '#'
    ensures !EndsWith(KeyText(k), "+")
  {
    KeyTextSafe(k);
    var t := KeyText(k);
    assert t[0] in t && t[|t| - 1] in t;
    assert t[|t| - 1..] == [t[|t| - 1]];
  }

  lemma ReadPriorLine(s: Snap, k: Key, v: string)
    requires KeyOk(k)
    ensures ReadLine(s, KeyText(k) + "=" + v) == s.(prior := Insert(s.prior, k, v))
  {
    hide KeyText, KeyOk, ParseKey, Insert, ReadSections, SplitOnce, LineSafe, EndsWith;
    KeyLineStart(k);
    KeyTextSafe(k);
    var line := KeyText(k) + ['='] + v;
    assert line == KeyText(k) + "=" + v;
    assert line[0] == KeyText(k)[0] && SECTIONS[0] == '#';
    SplitOnceAt(KeyText(k), '=', v);
    ParseKeyText(k);
  }

  lemma ReadElemLine(s: Snap, k: Key, v: string)
    requires KeyOk(k)
    ensures ReadLine(s, KeyText(k) + "+=" + v) == s.(lists := Insert(s.lists, k, ElemsAt(s.lists, k) + [v]))
  {
    hide KeyText, KeyOk, ParseKey, Insert, ElemsAt, ReadSections, SplitOnce, LineSafe;
    KeyLineStart(k);
    KeyTextSafe(k);
    var key := KeyText(k) + "+";
    var line := key + ['='] + v;
    assert line == KeyText(k) + "+=" + v;
    assert line[0] == KeyText(k)[0] && SECTIONS[0] == '#';
    SplitOnceAt(key, '=', v);
    assert key[|key| - 1..] == "+" && key[..|key| - 1] == KeyText(k);
    ParseKeyText(k);
  }

  function PutAll(m: Sorted<string>, ps: Sorted<string>): Sorted<string>
    decreases ps
  {
    if ps == [] then m else PutAll(Insert(m, ps[0].0, ps[0].1), ps[1..])
  }

  function PushAll(m: Sorted<seq<string>>, k: Key, es: seq<string>): Sorted<seq<string>>
    decreases es
  {
    if es == [] then m else PushAll(Insert(m, k, ElemsAt(m, k) + [es[0]]), k, es[1..])
  }

  lemma ReadFirst(s: Snap, l: string, s1: Snap, rest: seq<string>)
    requires ReadLine(s, l) == s1
    ensures ReadLines(s, [l] + rest) == ReadLines(s1, rest)
  {
    assert ([l] + rest)[1..] == rest;
  }

  lemma {:induction false} ReadPrior(s: Snap, ps: Sorted<string>)
    requires KeysOk(ps)
    ensures ReadLines(s, PriorLines(ps)) == s.(prior := PutAll(s.prior, ps))
    decreases ps
  {
    if ps != [] {
      var (k, v) := ps[0];
      assert ps[0] in ps;
      ReadPriorLine(s, k, v);
      var s1 := s.(prior := Insert(s.prior, k, v));
      ReadFirst(s, KeyText(k) + "=" + v, s1, PriorLines(ps[1..]));
      ReadPrior(s1, ps[1..]);
    }
  }

  lemma {:induction false} ReadElems(s: Snap, k: Key, es: seq<string>)
    requires KeyOk(k)
    ensures ReadLines(s, ElemLines(k, es)) == s.(lists := PushAll(s.lists, k, es))
    decreases es
  {
    if es != [] {
      ReadElemLine(s, k, es[0]);
      var s1 := s.(lists := Insert(s.lists, k, ElemsAt(s.lists, k) + [es[0]]));
      ReadFirst(s, KeyText(k) + "+=" + es[0], s1, ElemLines(k, es[1..]));
      ReadElems(s1, k, es[1..]);
    }
  }

  /** Every key of `m` comes before `k`. */
  ghost predicate AllBefore<V>(m: Sorted<V>, k: Key) {
    forall i :: 0 <= i < |m| ==> Before(KeyText(m[i].0), KeyText(k))
  }

  lemma {:induction false} PutAllSorted(m: Sorted<string>, ps: Sorted<string>)
    requires IsSorted(m + ps)
    ensures PutAll(m, ps) == m + ps
    decreases ps
  {
    hide Before, KeyText, Insert;
    if ps == [] {
      assert m + ps == m;
    } else {
      assert (m + ps)[|m|] == ps[0];
      assert forall i :: 0 <= i < |m| ==> (m + ps)[i] == m[i];
      assert forall i :: 0 <= i < |m| ==> Before(KeyText(m[i].0), KeyText(ps[0].0));
      InsertLast(m, ps[0].0, ps[0].1);
      assert m + [ps[0]] + ps[1..] == m + ps;
      PutAllSorted(m + [ps[0]], ps[1..]);
    }
  }

  lemma {:induction false} ElemsAtLast(m: Sorted<seq<string>>, k: Key, es: seq<string>)
    requires AllBefore(m, k)
    ensures ElemsAt(m, k) == []
    ensures ElemsAt(m + [(k, es)], k) == es
  {
    BeforeIrreflexive(KeyText(k));
    if m != [] {
      ElemsAtLast(m[1..], k, es);
      assert (m + [(k, es)])[1..] == m[1..] + [(k, es)];
    }
  }

  lemma {:induction false} PushAllMore(m: Sorted<seq<string>>, k: Key, done: seq<string>, es: seq<string>)
    requires AllBefore(m, k)
    ensures PushAll(m + [(k, done)], k, es) == m + [(k, done + es)]
    decreases es
  {
    if es == [] {
      assert done + es == done;
    } else {
      ElemsAtLast(m, k, done);
      InsertOverLast(m, k, done, done + [es[0]]);
      PushAllMore(m, k, done + [es[0]], es[1..]);
      assert done + [es[0]] + es[1..] == done + es;
    }
  }

  lemma PushAllNew(m: Sorted<seq<string>>, k: Key, es: seq<string>)
    requires AllBefore(m, k) && es != []
    ensures PushAll(m, k, es) == m + [(k, es)]
  {
    hide Before, KeyText, Insert, ElemsAt;
    ElemsAtLast(m, k, []);
    assert [] + [es[0]] == [es[0]];
    InsertLast(m, k, [es[0]]);
    PushAllMore(m, k, [es[0]], es[1..]);
    assert [es[0]] + es[1..] == es;
  }

  lemma {:induction false} ReadLinesAppend(s: Snap, a: seq<string>, b: seq<string>)
    ensures ReadLines(s, a + b) == ReadLines(ReadLines(s, a), b)
    decreases a
  {
    if a == [] {
      assert a + b == b;
    } else {
      assert a + b == [a[0]] + (a[1..] + b);
      ReadFirst(s, a[0], ReadLine(s, a[0]), a[1..] + b);
      ReadLinesAppend(ReadLine(s, a[0]), a[1..], b);
    }
  }

  lemma {:induction false} ReadLists(s: Snap, rest: Sorted<seq<string>>)
    requires IsSorted(s.lists + rest) && KeysOk(rest) && forall p :: p in rest ==> p.1 != []
    ensures ReadLines(s, ListLines(rest)) == s.(lists := s.lists + rest)
    decreases rest
  {
    hide Before, KeyText, KeyOk, ReadLine, ElemLines;
    if rest == [] {
      assert s.lists + rest == s.lists;
    } else {
      var m := s.lists + rest;
      assert rest[0] in rest && m[|s.lists|] == rest[0];
      assert AllBefore(s.lists, rest[0].0) by {
        assert forall i :: 0 <= i < |s.lists| ==> m[i] == s.lists[i];
      }
      var s1 := s.(lists := s.lists + [rest[0]]);
      assert ReadLines(s, ElemLines(rest[0].0, rest[0].1)) == s1 by {
        ReadElems(s, rest[0].0, rest[0].1);
        PushAllNew(s.lists, rest[0].0, rest[0].1);
      }
      assert s1.lists + rest[1..] == m;
      assert forall p :: p in rest[1..] ==> p in rest;
      ReadLinesAppend(s, ElemLines(rest[0].0, rest[0].1), ListLines(rest[1..]));
      ReadLists(s1, rest[1..]);
    }
  }

  lemma {:induction false} PriorLinesSafe(m: Sorted<string>)
    requires KeysOk(m) && forall p :: p in m ==> LineSafe(p.1)
    ensures forall l :: l in PriorLines(m) ==> LineSafe(l)
  {
    if m != [] {
      assert m[0] in m;
      KeyTextSafe(m[0].0);
      PriorLinesSafe(m[1..]);
    }
  }

  lemma {:induction false} ElemLinesSafe(k: Key, es: seq<string>)
    requires KeyOk(k) && forall x :: x in es ==> LineSafe(x)
    ensures forall l :: l in ElemLines(k, es) ==> LineSafe(l)
  {
    if es != [] {
      assert es[0] in es;
      KeyTextSafe(k);
      ElemLinesSafe(k, es[1..]);
    }
  }

  lemma {:induction false} ListLinesSafe(m: Sorted<seq<string>>)
    requires KeysOk(m) && forall p :: p in m ==> forall x :: x in p.1 ==> LineSafe(x)
    ensures forall l :: l in ListLines(m) ==> LineSafe(l)
  {
    if m != [] {
      assert m[0] in m;
      ElemLinesSafe(m[0].0, m[0].1);
      assert forall p :: p in m[1..] ==> p in m;
      ListLinesSafe(m[1..]);
    }
  }

  lemma ReadHeader(existing: seq<Section>)
    requires SectionsOk(existing)
    ensures ReadLine(EMPTY, SECTIONS + WriteSections(existing)) == Snap([], [], existing)
    ensures LineSafe(SECTIONS + WriteSections(existing))
  {
    SectionsRoundTrip(existing);
    assert (SECTIONS + WriteSections(existing))[|SECTIONS|..] == WriteSections(existing);
  }

  lemma ReadBody(s: Snap)
    requires SnapOk(s)
    ensures ReadLines(Snap([], [], s.existing), PriorLines(s.prior) + ListLines(s.lists)) == s
  {
    var s1, s2 := Snap([], [], s.existing), Snap(s.prior, [], s.existing);
    assert [] + s.prior == s.prior && [] + s.lists == s.lists;
    assert ReadLines(s1, PriorLines(s.prior)) == s2 by {
      ReadPrior(s1, s.prior);
      PutAllSorted([], s.prior);
    }
    ReadLists(s2, s.lists);
    ReadLinesAppend(s1, PriorLines(s.prior), ListLines(s.lists));
  }

  /** A snapshot is recovered exactly from its text. */
  lemma SnapRoundTrip(s: Snap)
    requires SnapOk(s)
    ensures ReadSnap(SnapText(s)) == s
  {
    var header, body := SECTIONS + WriteSections(s.existing), PriorLines(s.prior) + ListLines(s.lists);
    ReadHeader(s.existing);
    assert SnapLines(s) == [header] + body;
    assert Lines(SnapText(s)) == SnapLines(s) by {
      PriorLinesSafe(s.prior);
      ListLinesSafe(s.lists);
      LinesUnlines(SnapLines(s));
    }
    ReadFirst(EMPTY, header, Snap([], [], s.existing), body);
    ReadBody(s);
  }

  // --- the pending marker --------------------------------------------------

  datatype Marker = Marker(version: string, radios: seq<string>, current: seq<Section>, gated: seq<string>,
                           deadline: int, snap: Snap)

  datatype Head = Head(version: string, radios: seq<string>, current: seq<Section>, gated: seq<string>,
                       deadline: Option<int>)

  function Fields(m: Marker): seq<(string, string)> {
    [("config_version", m.version), ("radios", Join(m.radios, ',')), ("current_sections", WriteSections(m.current)),
     ("gated_ifaces", Join(m.gated, ',')), ("deadline_unix", PrintInt(m.deadline))]
  }

  function FieldLines(fs: seq<(string, string)>): (ls: seq<string>)
    ensures |ls| == |fs| && forall i :: 0 <= i < |fs| ==> ls[i] == fs[i].0 + "=" + fs[i].1
  {
    if fs == [] then [] else [fs[0].0 + "=" + fs[0].1] + FieldLines(fs[1..])
  }

  function HeadText(m: Marker): string {
    Join(FieldLines(Fields(m)), '\n')
  }

  function MarkerText(m: Marker): string {
    HeadText(m) + RULE + SnapText(m.snap)
  }

  function SetField(h: Head, k: string, v: string): Head {
    if k == "config_version" then h.(version := v)
    else if k == "radios" then h.(radios := SplitList(v, ','))
    else if k == "current_sections" then h.(current := ReadSections(v))
    else if k == "gated_ifaces" then h.(gated := SplitList(v, ','))
    else if k == "deadline_unix" then h.(deadline := ParseInt(v, I64_MIN, I64_MAX))
    else h
  }

  function ReadHeadLine(h: Head, line: string): Option<Head> {
    match SplitOnce(line, '=')
    case None => None
    case Some((k, v)) => Some(SetField(h, k, v))
  }

  function ReadHead(h: Head, ls: seq<string>): Option<Head>
    decreases ls
  {
    if ls == [] then Some(h)
    else match ReadHeadLine(h, ls[0]) case None => None case Some(h1) => ReadHead(h1, ls[1..])
  }

  function ReadMarker(text: string): Option<Marker> {
    match SplitOnceText(text, RULE)
    case None => None
    case Some((head, body)) =>
      match ReadHead(Head("", [], [], [], None), Lines(head))
      case Some(Head(version, radios, current, gated, Some(deadline))) =>
        Some(Marker(version, radios, current, gated, deadline, ReadSnap(body)))
      case _ => None
  }

  predicate NamesOk(names: seq<string>) {
    forall n :: n in names ==> NameOk(n)
  }

  ghost predicate MarkerOk(m: Marker) {
    && LineSafe(m.version) && NamesOk(m.radios) && NamesOk(m.gated) && SectionsOk(m.current)
    && I64_MIN <= m.deadline <= I64_MAX && SnapOk(m.snap)
  }

  /** No line after the first starts with a dash. */
  predicate NoDash(s: string) {
    forall i :: 0 <= i < |s| - 1 && s[i] == '\n' ==> s[i + 1] != '-'
  }

  lemma {:induction false} SplitAtRule(head: string, body: string)
    requires NoDash(head)
    ensures SplitOnceText(head + RULE + body, RULE) == Some((head, body))
  {
    var s := head + RULE + body;
    if head == [] {
      assert s[..|RULE|] == RULE && s[|RULE|..] == body;
    } else {
      assert s[1] == if |head| > 1 then head[1] else '\n';
      assert !(RULE <= s) by {
        assert RULE[0] == '\n' && RULE[1] == '-' && s[0] == head[0];
      }
      assert s[1..] == head[1..] + RULE + body;
      SplitAtRule(head[1..], body);
      assert [s[0]] + head[1..] == head;
    }
  }

  lemma NoDashLine(a: string, b: string)
    requires LineSafe(a) && NoDash(b) && b != "" && b[0] != '-'
    ensures NoDash(a + "\n" + b)
  {
    var s := a + "\n" + b;
    forall i | 0 <= i < |s| - 1 && s[i] == '\n' ensures s[i + 1] != '-' {
      assert forall j :: 0 <= j < |a| ==> s[j] == a[j] && a[j] in a;
      if i > |a| {
        assert s[i] == b[i - |a| - 1] && s[i + 1] == b[i - |a|];
      }
    }
  }

  lemma NamesRoundTrip(names: seq<string>)
    requires NamesOk(names)
    ensures SplitList(Join(names, ','), ',') == names && LineSafe(Join(names, ','))
  {
    forall n | n in names ensures n != "" && ',' !in n && LineSafe(n) {
      NameSafe(n);
    }
    SplitListJoin(names, ',');
    JoinSafe(names);
  }

  lemma PrintIntSafe(n: int)
    ensures LineSafe(PrintInt(n))
  {
  }

  lemma {:induction false} LinesJoin(ls: seq<string>)
    requires ls != [] && forall l :: l in ls ==> LineSafe(l) && l != "" && l[0] != '-'
    ensures Lines(Join(ls, '\n')) == ls && NoDash(Join(ls, '\n'))
    ensures Join(ls, '\n') != "" && Join(ls, '\n')[0] != '-'
  {
    hide Lines;
    assert ls[0] in ls;
    if |ls| == 1 {
      LinesLast(ls[0]);
      assert forall i :: 0 <= i < |ls[0]| ==> ls[0][i] in ls[0];
    } else {
      assert forall l :: l in ls[1..] ==> l in ls;
      LinesJoin(ls[1..]);
      LinesFirst(ls[0], Join(ls[1..], '\n'));
      NoDashLine(ls[0], Join(ls[1..], '\n'));
      assert Join(ls, '\n') == ls[0] + "\n" + Join(ls[1..], '\n');
      assert ls == [ls[0]] + ls[1..];
    }
  }

  function SetFields(h: Head, fs: seq<(string, string)>): Head
    decreases fs
  {
    if fs == [] then h else SetFields(SetField(h, fs[0].0, fs[0].1), fs[1..])
  }

  lemma {:induction false} ReadFields(h: Head, fs: seq<(string, string)>)
    requires forall f :: f in fs ==> '=' !in f.0
    ensures ReadHead(h, FieldLines(fs)) == Some(SetFields(h, fs))
    decreases fs
  {
    if fs != [] {
      assert fs[0] in fs;
      SplitOnceAt(fs[0].0, '=', fs[0].1);
      assert FieldLines(fs)[1..] == FieldLines(fs[1..]);
      ReadFields(SetField(h, fs[0].0, fs[0].1), fs[1..]);
    }
  }

  lemma FieldsSafe(m: Marker)
    requires MarkerOk(m)
    ensures forall f :: f in Fields(m) ==> LineSafe(f.1)
  {
    hide Join, WriteSections, PrintInt, SplitList, ReadSections, NamesOk, SectionsOk, SnapOk, LineSafe;
    NamesRoundTrip(m.radios);
    NamesRoundTrip(m.gated);
    SectionsRoundTrip(m.current);
    PrintIntSafe(m.deadline);
  }

  lemma FieldNames(m: Marker)
    ensures forall f :: f in Fields(m) ==> '=' !in f.0 && LineSafe(f.0) && f.0 != "" && f.0[0] != '-'
  {
    hide Join, WriteSections, PrintInt;
    FieldNameOk("config_version");
    FieldNameOk("radios");
    FieldNameOk("current_sections");
    FieldNameOk("gated_ifaces");
    FieldNameOk("deadline_unix");
  }

  lemma FieldNameOk(name: string)
    requires name in {"config_version", "radios", "current_sections", "gated_ifaces", "deadline_unix"}
    ensures '=' !in name && LineSafe(name) && name != "" && name[0] != '-'
  {
    FieldNamesShort();
    FieldNamesLong();
  }

  lemma FieldNamesShort()
    ensures forall name :: name == "radios" || name == "gated_ifaces" ==>
              '=' !in name && LineSafe(name) && name != "" && name[0] != '-'
  {
  }

  lemma FieldNamesLong()
    ensures forall name :: name == "config_version" || name == "current_sections" || name == "deadline_unix" ==>
              '=' !in name && LineSafe(name) && name != "" && name[0] != '-'
  {
  }

  lemma FieldsBack(m: Marker)
    requires MarkerOk(m)
    ensures SetFields(Head("", [], [], [], None), Fields(m))
         == Head(m.version, m.radios, m.current, m.gated, Some(m.deadline))
  {
    hide Join, WriteSections, PrintInt, SplitList, ReadSections, ParseInt, NamesOk, SectionsOk, SnapOk, LineSafe;
    NamesRoundTrip(m.radios);
    NamesRoundTrip(m.gated);
    SectionsRoundTrip(m.current);
    ParsePrintInt(m.deadline, I64_MIN, I64_MAX);
    SetFieldsFive(Head("", [], [], [], None), Fields(m));
  }

  lemma SetFieldsFive(h: Head, fs: seq<(string, string)>)
    requires |fs| == 5
    ensures SetFields(h, fs)
         == SetField(SetField(SetField(SetField(SetField(h, fs[0].0, fs[0].1), fs[1].0, fs[1].1), fs[2].0, fs[2].1),
                              fs[3].0, fs[3].1), fs[4].0, fs[4].1)
  {
    var h1 := SetField(h, fs[0].0, fs[0].1);
    var h2 := SetField(h1, fs[1].0, fs[1].1);
    var h3 := SetField(h2, fs[2].0, fs[2].1);
    var h4 := SetField(h3, fs[3].0, fs[3].1);
    assert fs[1..][1..] == fs[2..] && fs[2..][1..] == fs[3..] && fs[3..][1..] == fs[4..] && fs[4..][1..] == [];
    assert SetFields(h4, fs[4..]) == SetField(h4, fs[4].0, fs[4].1);
    assert SetFields(h3, fs[3..]) == SetFields(h4, fs[4..]);
    assert SetFields(h2, fs[2..]) == SetFields(h3, fs[3..]);
    assert SetFields(h1, fs[1..]) == SetFields(h2, fs[2..]);
  }

  /** Every marker the engine writes is recovered exactly, so a restart sees the push it interrupted. */
  lemma MarkerRoundTrip(m: Marker)
    requires MarkerOk(m)
    ensures ReadMarker(MarkerText(m)) == Some(m)
  {
    var ls := FieldLines(Fields(m));
    FieldsSafe(m);
    FieldNames(m);
    forall l | l in ls ensures LineSafe(l) && l != "" && l[0] != '-' {
      var i :| 0 <= i < |ls| && ls[i] == l;
      assert Fields(m)[i] in Fields(m);
    }
    LinesJoin(ls);
    ReadFields(Head("", [], [], [], None), Fields(m));
    FieldsBack(m);
    SplitAtRule(HeadText(m), SnapText(m.snap));
    SnapRoundTrip(m.snap);
  }

  // --- writing and reading, piece by piece ---------------------------------

  method WriteSnap(s: Snap) returns (t: string)
    ensures t == SnapText(s)
  {
    hide KeyText, WriteSections;
    t := SECTIONS + WriteSections(s.existing) + "\n";
    assert SnapLines(s)[1..] == PriorLines(s.prior) + ListLines(s.lists);
    assert SnapText(s) == t + Unlines(PriorLines(s.prior) + ListLines(s.lists));
    for i := 0 to |s.prior|
      invariant SnapText(s) == t + Unlines(PriorLines(s.prior[i..]) + ListLines(s.lists))
    {
      assert s.prior[i..][1..] == s.prior[i + 1..];
      var (k, v) := s.prior[i];
      NextLine(t, KeyText(k) + "=" + v, PriorLines(s.prior[i + 1..]), ListLines(s.lists));
      t := t + KeyText(k) + "=" + v + "\n";
    }
    assert PriorLines(s.prior[|s.prior|..]) + ListLines(s.lists) == ListLines(s.lists);
    for i := 0 to |s.lists|
      invariant SnapText(s) == t + Unlines(ListLines(s.lists[i..]))
    {
      assert s.lists[i..][1..] == s.lists[i + 1..];
      var (k, es) := s.lists[i];
      t := WriteElems(t, k, es, ListLines(s.lists[i + 1..]));
    }
    assert t + Unlines(ListLines(s.lists[|s.lists|..])) == t;
  }

  lemma NextLine(t: string, l: string, mid: seq<string>, rest: seq<string>)
    ensures t + Unlines([l] + mid + rest) == t + l + "\n" + Unlines(mid + rest)
  {
    assert ([l] + mid + rest)[0] == l && ([l] + mid + rest)[1..] == mid + rest;
  }

  method WriteElems(t0: string, k: Key, es: seq<string>, ghost rest: seq<string>) returns (t: string)
    ensures t + Unlines(rest) == t0 + Unlines(ElemLines(k, es) + rest)
  {
    hide KeyText, Unlines;
    t := t0;
    for i := 0 to |es|
      invariant t + Unlines(ElemLines(k, es[i..]) + rest) == t0 + Unlines(ElemLines(k, es) + rest)
    {
      assert es[i..][1..] == es[i + 1..];
      NextLine(t, KeyText(k) + "+=" + es[i], ElemLines(k, es[i + 1..]), rest);
      t := t + KeyText(k) + "+=" + es[i] + "\n";
    }
    assert ElemLines(k, es[|es|..]) + rest == rest;
  }

  method ReadSnapText(text: string) returns (s: Snap)
    ensures s == ReadSnap(text)
  {
    hide Lines, ParseKey, Insert, ElemsAt, ReadSections, SplitOnce, EndsWith;
    var lines := Lines(text);
    s := EMPTY;
    for i := 0 to |lines|
      invariant ReadLines(s, lines[i..]) == ReadLines(EMPTY, lines)
    {
      assert lines[i..][0] == lines[i] && lines[i..][1..] == lines[i + 1..];
      ghost var before := s;
      s := ReadSnapLine(s, lines[i]);
    }
  }

  method ReadSnapLine(s0: Snap, line: string) returns (s: Snap)
    ensures s == ReadLine(s0, line)
  {
    hide ParseKey, Insert, ElemsAt, ReadSections;
    s := s0;
    if SECTIONS <= line {
      s := s.(existing := ReadSections(line[|SECTIONS|..]));
    } else if line != "" && line[0] != '#' {
      match SplitOnce(line, '=') {
        case None =>
        case Some((k, v)) =>
          var isElem := EndsWith(k, "+");
          match ParseKey(if isElem then k[..|k| - 1] else k) {
            case None =>
            case Some(key) =>
              if isElem {
                s := s.(lists := Insert(s.lists, key, ElemsAt(s.lists, key) + [v]));
              } else {
                s := s.(prior := Insert(s.prior, key, v));
              }
          }
      }
    }
  }

  method WriteMarker(m: Marker) returns (t: string)
    ensures t == MarkerText(m)
  {
    hide SnapText, WriteSections, PrintInt, Join, Fields;
    var version, radios := "config_version=" + m.version, "radios=" + Join(m.radios, ',');
    var current, gated := "current_sections=" + WriteSections(m.current), "gated_ifaces=" + Join(m.gated, ',');
    var deadline := "deadline_unix=" + PrintInt(m.deadline);
    t := version + "\n" + radios + "\n" + current + "\n" + gated + "\n" + deadline;
    HeadIs(m);
    t := t + RULE;
    var body := WriteSnap(m.snap);
    t := t + body;
  }

  lemma HeadIs(m: Marker)
    ensures HeadText(m)
         == ("config_version=" + m.version) + "\n" + ("radios=" + Join(m.radios, ',')) + "\n"
            + ("current_sections=" + WriteSections(m.current)) + "\n" + ("gated_ifaces=" + Join(m.gated, ',')) + "\n"
            + ("deadline_unix=" + PrintInt(m.deadline))
  {
    hide WriteSections, PrintInt, Join;
    JoinFive(FieldLines(Fields(m)));
  }

  lemma JoinFive(ls: seq<string>)
    requires |ls| == 5
    ensures Join(ls, '\n') == ls[0] + "\n" + ls[1] + "\n" + ls[2] + "\n" + ls[3] + "\n" + ls[4]
  {
    assert Join(ls[1..][1..][1..][1..], '\n') == ls[4];
    assert Join(ls[1..][1..][1..], '\n') == ls[3] + "\n" + ls[4];
    assert Join(ls[1..][1..], '\n') == ls[2] + "\n" + (ls[3] + "\n" + ls[4]);
    assert Join(ls[1..], '\n') == ls[1] + "\n" + (ls[2] + "\n" + (ls[3] + "\n" + ls[4]));
  }

  /** `None` for a text without the rule, with a head line without `=`, or without a deadline. */
  method ReadMarkerText(text: string) returns (r: Option<Marker>)
    ensures r == ReadMarker(text)
  {
    hide Lines, SetField, SplitOnce, SplitOnceText, ReadSnap;
    match SplitOnceText(text, RULE) {
      case None => return None;
      case Some((head, body)) =>
        var lines := Lines(head);
        var h := Head("", [], [], [], None);
        for i := 0 to |lines|
          invariant ReadHead(h, lines[i..]) == ReadHead(Head("", [], [], [], None), lines)
        {
          assert lines[i..][0] == lines[i] && lines[i..][1..] == lines[i + 1..];
          match SplitOnce(lines[i], '=') {
            case None => return None;
            case Some((k, v)) => h := SetField(h, k, v);
          }
        }
        if h.deadline.None? {
          return None;
        }
        var snap := ReadSnapText(body);
        r := Some(Marker(h.version, h.radios, h.current, h.gated, h.deadline.value, snap));
    }
  }

  // --- any marker text -----------------------------------------------------

  /** What the last line for a key says; nothing when there is none. */
  function LastOf(ls: seq<string>, key: string): string {
    if ls == [] then ""
    else
      var line := ls[|ls| - 1];
      if key + "=" <= line then line[|key| + 1..] else LastOf(ls[..|ls| - 1], key)
  }

  lemma {:induction false} ReadHeadSnoc(h: Head, ls: seq<string>, line: string)
    ensures ReadHead(h, ls + [line])
         == match ReadHead(h, ls) case None => None case Some(h1) => ReadHeadLine(h1, line)
    decreases ls
  {
    hide ReadHeadLine;
    if ls == [] {
      assert [] + [line] == [line] && [line][1..] == [];
    } else {
      assert (ls + [line])[1..] == ls[1..] + [line];
      if ReadHeadLine(h, ls[0]).Some? {
        ReadHeadSnoc(ReadHeadLine(h, ls[0]).value, ls[1..], line);
      }
    }
  }

  predicate AllFields(ls: seq<string>) {
    forall l :: l in ls ==> '=' in l
  }

  /** The head the lines spell, key by key. */
  function HeadOf(ls: seq<string>): Head {
    Head(LastOf(ls, "config_version"), SplitList(LastOf(ls, "radios"), ','),
         ReadSections(LastOf(ls, "current_sections")), SplitList(LastOf(ls, "gated_ifaces"), ','),
         ParseInt(LastOf(ls, "deadline_unix"), I64_MIN, I64_MAX))
  }

  lemma KeyAt(key: string, k: string, v: string)
    requires '=' !in key && '=' !in k
    ensures key + "=" <= k + "=" + v <==> key == k
    ensures (k + "=" + v)[|k| + 1..] == v
  {
    var line := k + "=" + v;
    SplitOnceAt(k, '=', v);
    if key + "=" <= line {
      assert line == key + "=" + line[|key| + 1..];
      SplitOnceAt(key, '=', line[|key| + 1..]);
    }
    if key == k {
      assert line[..|key| + 1] == key + "=";
    }
  }

  lemma LastOfSnoc(ls: seq<string>, k: string, v: string, key: string)
    requires '=' !in k && '=' !in key
    ensures LastOf(ls + [k + "=" + v], key) == if key == k then v else LastOf(ls, key)
  {
    KeyAt(key, k, v);
    assert (ls + [k + "=" + v])[..|ls|] == ls;
  }

  lemma HeadSnoc(ls: seq<string>, k: string, v: string)
    requires '=' !in k
    ensures SetField(HeadOf(ls), k, v) == HeadOf(ls + [k + "=" + v])
  {
    hide LastOf, ParseInt, SplitList, ReadSections;
    LastOfSnoc(ls, k, v, "config_version");
    LastOfSnoc(ls, k, v, "radios");
    LastOfSnoc(ls, k, v, "current_sections");
    LastOfSnoc(ls, k, v, "gated_ifaces");
    LastOfSnoc(ls, k, v, "deadline_unix");
    assert |"config_version"| == 14 && |"radios"| == 6 && |"current_sections"| == 16 && |"gated_ifaces"| == 12;
    assert |"deadline_unix"| == 13;
  }

  lemma NoHead()
    ensures HeadOf([]) == Head("", [], [], [], None)
  {
    assert SplitList("", ',') == [] by {
      assert Split("", ',') == [""] && [""][1..] == [];
    }
  }

  lemma {:induction false} HeadMeans(ls: seq<string>)
    ensures ReadHead(Head("", [], [], [], None), ls) == if AllFields(ls) then Some(HeadOf(ls)) else None
    decreases |ls|
  {
    hide HeadOf, SetField;
    NoHead();
    if ls != [] {
      var init, line := ls[..|ls| - 1], ls[|ls| - 1];
      assert ls == init + [line];
      HeadMeans(init);
      ReadHeadSnoc(Head("", [], [], [], None), init, line);
      match SplitOnce(line, '=') {
        case None =>
        case Some(kv) =>
          HeadSnoc(init, kv.0, kv.1);
          assert line[|kv.0|] == '=';
      }
    }
  }

  /** What any text is read as: nothing without the rule, with a line before it that has no `=`, or without a deadline;
      else, for each key, what its last line says, whatever the order and whatever else is there. */
  lemma MarkerMeans(text: string)
    ensures ReadMarker(text)
         == match SplitOnceText(text, "\n---\n")
            case None => None
            case Some((head, body)) =>
              var ls := Lines(head);
              var deadline := ParseInt(LastOf(ls, "deadline_unix"), I64_MIN, I64_MAX);
              if AllFields(ls) && deadline.Some? then
                Some(Marker(LastOf(ls, "config_version"), SplitList(LastOf(ls, "radios"), ','),
                            ReadSections(LastOf(ls, "current_sections")), SplitList(LastOf(ls, "gated_ifaces"), ','),
                            deadline.value, ReadSnap(body)))
              else None
  {
    hide ReadHead, LastOf, ParseInt, SplitList, ReadSections, ReadSnap, Lines, AllFields, SplitOnceText;
    match SplitOnceText(text, RULE) {
      case None =>
      case Some(parts) => HeadMeans(Lines(parts.0));
    }
  }

  lemma FieldTexts(m: Marker)
    ensures var fs := FieldLines(Fields(m));
            && |fs| == 5 && fs[0] == "config_version=" + m.version && fs[1] == "radios=" + Join(m.radios, ',')
            && fs[2] == "current_sections=" + Join(SectionTexts(m.current), ',')
            && fs[3] == "gated_ifaces=" + Join(m.gated, ',') && fs[4] == "deadline_unix=" + PrintInt(m.deadline)
  {
    hide PrintInt, SectionTexts, Join;
    assert "config_version" + "=" == "config_version=" && "radios" + "=" == "radios=";
    assert "current_sections" + "=" == "current_sections=" && "gated_ifaces" + "=" == "gated_ifaces=";
    assert "deadline_unix" + "=" == "deadline_unix=";
  }

  /** How a marker is laid out: five lines, each a key and its value, a line of three dashes, the snapshot. */
  lemma MarkerLayout(m: Marker) returns (fs: seq<string>)
    ensures |fs| == 5 && fs[0] == "config_version=" + m.version && fs[1] == "radios=" + Join(m.radios, ',')
    ensures fs[2] == "current_sections=" + Join(SectionTexts(m.current), ',')
    ensures fs[3] == "gated_ifaces=" + Join(m.gated, ',') && fs[4] == "deadline_unix=" + PrintInt(m.deadline)
    ensures MarkerText(m) == fs[0] + "\n" + fs[1] + "\n" + fs[2] + "\n" + fs[3] + "\n" + fs[4] + "\n---\n"
                             + SnapText(m.snap)
  {
    hide SnapText, PrintInt, SectionTexts, Join, FieldLines, Fields;
    fs := FieldLines(Fields(m));
    FieldTexts(m);
    JoinFive(fs);
  }

  /** Empty lines and comments of a snapshot's text do not matter. */
  lemma {:induction false} CommentsSkipped(s: Snap, a: seq<string>, c: string, b: seq<string>)
    requires c == "" || (c[0] == '#' && !("#sections=" <= c))
    ensures ReadLines(s, a + [c] + b) == ReadLines(s, a + b)
    decreases a
  {
    if a == [] {
      assert [] + [c] + b == [c] + b && ([c] + b)[1..] == b && [] + b == b;
      assert ReadLine(s, c) == s;
    } else {
      hide ReadLine;
      assert (a + [c] + b)[1..] == a[1..] + [c] + b && (a + b)[1..] == a[1..] + b;
      CommentsSkipped(ReadLine(s, a[0]), a[1..], c, b);
    }
  }
}
