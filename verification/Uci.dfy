/** The router's UCI configuration as the engine drives it: a staged and a committed layer, changed one command at
    a time, where every command may fail. */
module Uci {
  import opened Text

  /** The configs the engine touches, in commit order. */
  const OWNED_CONFIGS: seq<string> := ["network", "wireless", "dhcp", "firewall", "sqm"]
  const PREFIX := "pc_"
  const MACLIST := "maclist"

  /** `config.section`. */
  datatype Section = Section(config: string, name: string)

  /** `config.section` (a section's declaration, whose value is its type) or `config.section.option`. */
  datatype Key = Decl(sec: Section) | Opt(sec: Section, option: string)

  datatype Value = Scalar(text: string) | List(elems: seq<string>)

  type Store = map<Key, Value>

  datatype Cmd = Set(key: Key, value: string) | AddList(key: Key, value: string) | Delete(key: Key)

  predicate IsOwnedConfig(config: string) {
    || config == OWNED_CONFIGS[0] || config == OWNED_CONFIGS[1] || config == OWNED_CONFIGS[2]
    || config == OWNED_CONFIGS[3] || config == OWNED_CONFIGS[4]
  }

  predicate Owned(sec: Section) {
    IsOwnedConfig(sec.config) && PREFIX <= sec.name
  }

  predicate IsMaclist(k: Key) {
    k.Opt? && k.option == MACLIST
  }

  /** The `device` option of an owned `wireless` section: the radio it sits on. */
  predicate IsRadioKey(k: Key) {
    k.Opt? && k.sec.config == OWNED_CONFIGS[1] && PREFIX <= k.sec.name && k.option == "device"
  }

  // --- one command on one layer --------------------------------------------

  function WithoutSection(st: Store, sec: Section): Store {
    map k | k in st && k.sec != sec :: st[k]
  }

  function ListAt(st: Store, k: Key): seq<string> {
    if k in st then (match st[k] case Scalar(t) => [t] case List(es) => es) else []
  }

  /** `None` when `uci` refuses: an option of a missing section, or a delete of something absent. Setting an
      option of an existing section keeps the section's other options. */
  function Exec(st: Store, c: Cmd): Option<Store> {
    match c
    case Set(k, v) => if k.Decl? || Decl(k.sec) in st then Some(st[k := Scalar(v)]) else None
    case AddList(k, v) => if k.Opt? && Decl(k.sec) in st then Some(st[k := List(ListAt(st, k) + [v])]) else None
    case Delete(k) =>
      if k !in st then None
      else if k.Decl? then Some(WithoutSection(st, k.sec))
      else Some(st - {k})
  }

  /** Config `cfg` of `src` laid over `dst`: what a commit or a revert does to the other layer. */
  function PutConfig(dst: Store, src: Store, cfg: string): Store {
    (map k | k in dst && k.sec.config != cfg :: dst[k]) + (map k | k in src && k.sec.config == cfg :: src[k])
  }

  // --- the router under an adversary ---------------------------------------

  /** What the engine does not control: whether the n-th command it issues fails, which radios the `ubus` status
      read by the n-th command reports down, and the order in which `uci show` lists a config. */
  datatype Env = Env(fails: nat -> bool, down: nat -> set<string>, order: (Store, string) -> seq<Key>)

  datatype World = World(staged: Store, committed: Store, tick: nat)

  function Pass(w: World): World {
    w.(tick := w.tick + 1)
  }

  function Run(e: Env, w: World, c: Cmd): (World, bool) {
    if e.fails(w.tick) then (Pass(w), false)
    else
      match Exec(w.staged, c)
      case None => (Pass(w), false)
      case Some(st) => (Pass(w).(staged := st), true)
  }

  function Commit(e: Env, w: World, cfg: string): (World, bool) {
    if e.fails(w.tick) then (Pass(w), false)
    else (Pass(w).(committed := PutConfig(w.committed, w.staged, cfg)), true)
  }

  /** Best effort: drop the staged changes of the configs from the i-th on. */
  function RevertFrom(e: Env, w: World, i: nat): World
    requires i <= |OWNED_CONFIGS|
    decreases |OWNED_CONFIGS| - i
  {
    if i == |OWNED_CONFIGS| then w
    else
      var w1 :=
        if e.fails(w.tick) then Pass(w)
        else Pass(w).(staged := PutConfig(w.staged, w.committed, OWNED_CONFIGS[i]));
      RevertFrom(e, w1, i + 1)
  }

  /** Commit config by config. A failed `sqm` commit is tolerated; any other failure drops what is still staged. */
  function CommitFrom(e: Env, w: World, i: nat): (World, bool)
    requires i <= |OWNED_CONFIGS|
    decreases |OWNED_CONFIGS| - i
  {
    if i == |OWNED_CONFIGS| then (w, true)
    else
      var (w1, ok) := Commit(e, w, OWNED_CONFIGS[i]);
      if ok || OWNED_CONFIGS[i] == "sqm" then CommitFrom(e, w1, i + 1)
      else (RevertFrom(e, w1, 0), false)
  }

  /** Run a batch: a refused delete is ignored, any other failure drops what is staged and stops. */
  function ApplyCmds(e: Env, w: World, cmds: seq<Cmd>): (World, bool)
    decreases cmds
  {
    if cmds == [] then (w, true)
    else
      var (w1, ok) := Run(e, w, cmds[0]);
      if ok || cmds[0].Delete? then ApplyCmds(e, w1, cmds[1..])
      else (RevertFrom(e, w1, 0), false)
  }

  /** Run every command, ignoring failures. */
  function BestEffort(e: Env, w: World, cmds: seq<Cmd>): World
    decreases cmds
  {
    if cmds == [] then w else BestEffort(e, Run(e, w, cmds[0]).0, cmds[1..])
  }

  // --- reloading: no command below changes a layer -------------------------

  /** `wifi reload`, once more, then `wifi up`. */
  function ReloadRadio(e: Env, w: World): (World, bool) {
    if !e.fails(w.tick) then (Pass(w), true)
    else if !e.fails(w.tick + 1) then (Pass(Pass(w)), true)
    else (Pass(Pass(Pass(w))), !e.fails(w.tick + 2))
  }

  /** Every radio is reloaded, whatever happened to the ones before it. */
  function ReloadRadios(e: Env, w: World, radios: seq<string>): (World, bool)
    decreases radios
  {
    if radios == [] then (w, true)
    else
      var (w1, ok) := ReloadRadio(e, w);
      var (w2, rest) := ReloadRadios(e, w1, radios[1..]);
      (w2, ok && rest)
  }

  function DownRadios(e: Env, tick: nat, radios: seq<string>): seq<string> {
    if radios == [] then []
    else (if radios[0] in e.down(tick) then [radios[0]] else []) + DownRadios(e, tick, radios[1..])
  }

  /** Force up whatever the status reports down; an error only when a second status still reports one down. */
  function RecoverDark(e: Env, w: World, radios: seq<string>): (World, bool) {
    var down := DownRadios(e, w.tick, radios);
    if e.fails(w.tick) || down == [] then (Pass(w), true)
    else
      var w1 := w.(tick := w.tick + 1 + |down|);
      (Pass(w1), e.fails(w1.tick) || DownRadios(e, w1.tick, radios) == [])
  }

  /** The whole reload sequence runs even when a step fails; the verdict is the conjunction. */
  function Reload(e: Env, w: World, radios: seq<string>): (World, bool) {
    var net := !e.fails(w.tick);
    var fw := !e.fails(w.tick + 1);
    var (w1, up) := ReloadRadios(e, Pass(Pass(w)), radios);
    var dns := !e.fails(w1.tick);
    var (w2, lit) := RecoverDark(e, Pass(Pass(w1)), radios);
    (w2, net && fw && up && dns && lit)
  }

  function CommitAndReload(e: Env, w: World, radios: seq<string>): (World, bool) {
    var (w1, ok) := CommitFrom(e, w, 0);
    if ok then Reload(e, w1, radios) else (w1, false)
  }

  function ApplyBatch(e: Env, w: World, cmds: seq<Cmd>, radios: seq<string>): (World, bool) {
    var (w1, ok) := ApplyCmds(e, w, cmds);
    if ok then CommitAndReload(e, w1, radios) else (w1, false)
  }

  // --- well-shaped contents ------------------------------------------------

  /** A character that cannot be confused with the punctuation of `uci show`, of the marker or of a comma list. */
  predicate NameChar(c: char) {
    && !IsWhite(c) && !IsControl(c)
    && c != '.' && c != '=' && c != ',' && c != '+' && c != '#' && c != '\'' && c != '"'
  }

  predicate NameOk(s: string) {
    s != "" && forall c :: c in s ==> NameChar(c)
  }

  /** A value that survives one line of text between single quotes. */
  predicate ValueOk(v: string) {
    LineSafe(v) && '\'' !in v
  }

  predicate KeyOk(k: Key) {
    NameOk(k.sec.config) && NameOk(k.sec.name) && (k.Opt? ==> NameOk(k.option))
  }

  predicate ScalarOk(k: Key, v: string) {
    if k.Decl? || IsRadioKey(k) then NameOk(v) else ValueOk(v)
  }

  /** An entry the text forms carry faithfully. Among owned options exactly `maclist` is a list. */
  predicate EntryOk(k: Key, v: Value) {
    && KeyOk(k)
    && (Owned(k.sec) ==> (v.List? <==> IsMaclist(k)))
    && match v
       case Scalar(t) => ScalarOk(k, t)
       case List(es) =>
         k.Opt? && es != [] && forall x :: x in es ==> ValueOk(x) && (Owned(k.sec) ==> NameOk(x))
  }

  /** Every option's section is declared. */
  predicate Closed(st: Store) {
    forall k :: k in st ==> Decl(k.sec) in st
  }

  predicate Clean(st: Store) {
    Closed(st) && forall k :: k in st ==> EntryOk(k, st[k])
  }

  predicate SameAt(a: Store, b: Store, k: Key) {
    (k in a <==> k in b) && (k in a && k in b ==> a[k] == b[k])
  }

  ghost predicate SameUnowned(a: Store, b: Store) {
    forall k: Key :: !Owned(k.sec) ==> SameAt(a, b, k)
  }

  function OwnedSections(st: Store): (secs: set<Section>)
    ensures forall s :: s in secs <==> Decl(s) in st && Owned(s)
  {
    set k | k in st && k.Decl? && Owned(k.sec) :: k.sec
  }

  function OwnedPart(st: Store): Store {
    map k | k in st && Owned(k.sec) :: st[k]
  }

  /** A layer that is well shaped, agrees with `base` outside the owned namespace and owns no section beyond
      `secs`. */
  ghost predicate Good(st: Store, base: Store, secs: set<Section>) {
    Clean(st) && SameUnowned(st, base) && OwnedSections(st) <= secs
  }

  ghost predicate GoodWorld(w: World, base: Store, secs: set<Section>) {
    Good(w.staged, base, secs) && Good(w.committed, base, secs)
  }

  /** A command that keeps a layer good: on an owned key, with a value the text forms carry. */
  predicate CmdOk(c: Cmd, secs: set<Section>) {
    && Owned(c.key.sec)
    && match c
       case Set(k, v) => !IsMaclist(k) && KeyOk(k) && ScalarOk(k, v) && (k.Decl? ==> k.sec in secs)
       case AddList(k, v) => IsMaclist(k) && KeyOk(k) && NameOk(v)
       case Delete(_) => true
  }

  predicate CmdsOk(cmds: seq<Cmd>, secs: set<Section>) {
    forall c :: c in cmds ==> CmdOk(c, secs)
  }

  // --- no command leaves the owned namespace -------------------------------

  lemma DeleteGood(st: Store, k: Key, base: Store, secs: set<Section>)
    requires Good(st, base, secs) && Owned(k.sec) && k in st
    ensures Good(Exec(st, Delete(k)).value, base, secs)
  {
    hide EntryOk, Owned;
    var st' := Exec(st, Delete(k)).value;
    assert forall j :: j in st' ==> j in st && st'[j] == st[j];
    assert forall j: Key :: !Owned(j.sec) ==> SameAt(st', st, j);
    assert OwnedSections(st') <= OwnedSections(st);
  }

  lemma AssignGood(st: Store, k: Key, v: Value, base: Store, secs: set<Section>)
    requires Good(st, base, secs) && Owned(k.sec) && EntryOk(k, v)
    requires k.Decl? ==> k.sec in secs
    requires k.Opt? ==> Decl(k.sec) in st
    ensures Good(st[k := v], base, secs)
  {
    hide EntryOk, Owned;
    var st' := st[k := v];
    assert forall j: Key :: !Owned(j.sec) ==> SameAt(st', st, j);
    assert OwnedSections(st') <= OwnedSections(st) + (if k.Decl? then {k.sec} else {});
  }

  lemma AppendGood(st: Store, k: Key, v: string, base: Store, secs: set<Section>)
    requires Good(st, base, secs) && CmdOk(AddList(k, v), secs) && Decl(k.sec) in st
    ensures Good(st[k := List(ListAt(st, k) + [v])], base, secs)
  {
    var es := ListAt(st, k);
    NameIsValue(v);
    assert EntryOk(k, List(es + [v])) by {
      assert k in st ==> EntryOk(k, st[k]);
      assert forall x :: x in es + [v] ==> x in es || x == v;
    }
    AssignGood(st, k, List(es + [v]), base, secs);
  }

  lemma RunGood(e: Env, w: World, c: Cmd, base: Store, secs: set<Section>)
    requires GoodWorld(w, base, secs) && CmdOk(c, secs)
    ensures GoodWorld(Run(e, w, c).0, base, secs)
  {
    hide NameOk, ValueOk, Good;
    if Exec(w.staged, c).Some? {
      match c
      case Set(k, v) => AssignGood(w.staged, k, Scalar(v), base, secs);
      case AddList(k, v) => AppendGood(w.staged, k, v, base, secs);
      case Delete(k) => DeleteGood(w.staged, k, base, secs);
    }
  }

  lemma NameIsValue(v: string)
    requires NameOk(v)
    ensures ValueOk(v)
  {
  }

  lemma PutConfigAt(dst: Store, src: Store, cfg: string, k: Key)
    ensures SameAt(PutConfig(dst, src, cfg), if k.sec.config == cfg then src else dst, k)
  {
  }

  lemma PutConfigGood(dst: Store, src: Store, cfg: string, base: Store, secs: set<Section>)
    requires Good(dst, base, secs) && Good(src, base, secs)
    ensures Good(PutConfig(dst, src, cfg), base, secs)
  {
    hide EntryOk, Owned, PutConfig;
    var st := PutConfig(dst, src, cfg);
    forall k: Key ensures SameAt(st, if k.sec.config == cfg then src else dst, k) {
      PutConfigAt(dst, src, cfg, k);
    }
    assert Closed(st) by {
      forall k | k in st ensures Decl(k.sec) in st {
        assert SameAt(st, if k.sec.config == cfg then src else dst, k);
        assert SameAt(st, if k.sec.config == cfg then src else dst, Decl(k.sec));
      }
    }
    forall k | k in st ensures EntryOk(k, st[k]) {
      assert SameAt(st, if k.sec.config == cfg then src else dst, k);
    }
    forall k: Key | !Owned(k.sec) ensures SameAt(st, base, k) {
      assert SameAt(dst, base, k) && SameAt(src, base, k);
    }
    forall s | s in OwnedSections(st) ensures s in secs {
      assert s in OwnedSections(if s.config == cfg then src else dst);
    }
  }

  lemma {:induction false} RevertGood(e: Env, w: World, i: nat, base: Store, secs: set<Section>)
    requires i <= |OWNED_CONFIGS| && GoodWorld(w, base, secs)
    ensures GoodWorld(RevertFrom(e, w, i), base, secs)
    decreases |OWNED_CONFIGS| - i
  {
    if i < |OWNED_CONFIGS| {
      PutConfigGood(w.staged, w.committed, OWNED_CONFIGS[i], base, secs);
      var w1 :=
        if e.fails(w.tick) then Pass(w)
        else Pass(w).(staged := PutConfig(w.staged, w.committed, OWNED_CONFIGS[i]));
      RevertGood(e, w1, i + 1, base, secs);
    }
  }

  lemma {:induction false} CommitGood(e: Env, w: World, i: nat, base: Store, secs: set<Section>)
    requires i <= |OWNED_CONFIGS| && GoodWorld(w, base, secs)
    ensures GoodWorld(CommitFrom(e, w, i).0, base, secs)
    decreases |OWNED_CONFIGS| - i
  {
    if i < |OWNED_CONFIGS| {
      PutConfigGood(w.committed, w.staged, OWNED_CONFIGS[i], base, secs);
      var (w1, ok) := Commit(e, w, OWNED_CONFIGS[i]);
      if ok || OWNED_CONFIGS[i] == "sqm" {
        CommitGood(e, w1, i + 1, base, secs);
      } else {
        RevertGood(e, w1, 0, base, secs);
      }
    }
  }

  lemma {:induction false} ReloadRadiosKeeps(e: Env, w: World, radios: seq<string>)
    ensures ReloadRadios(e, w, radios).0.staged == w.staged
    ensures ReloadRadios(e, w, radios).0.committed == w.committed
    decreases radios
  {
    if radios != [] {
      ReloadRadiosKeeps(e, ReloadRadio(e, w).0, radios[1..]);
    }
  }

  lemma ReloadKeeps(e: Env, w: World, radios: seq<string>)
    ensures Reload(e, w, radios).0.staged == w.staged
    ensures Reload(e, w, radios).0.committed == w.committed
  {
    ReloadRadiosKeeps(e, Pass(Pass(w)), radios);
  }

  lemma CommitAndReloadGood(e: Env, w: World, radios: seq<string>, base: Store, secs: set<Section>)
    requires GoodWorld(w, base, secs)
    ensures GoodWorld(CommitAndReload(e, w, radios).0, base, secs)
  {
    CommitGood(e, w, 0, base, secs);
    ReloadKeeps(e, CommitFrom(e, w, 0).0, radios);
  }

  lemma {:induction false} ApplyCmdsGood(e: Env, w: World, cmds: seq<Cmd>, base: Store, secs: set<Section>)
    requires GoodWorld(w, base, secs) && CmdsOk(cmds, secs)
    ensures GoodWorld(ApplyCmds(e, w, cmds).0, base, secs)
    decreases cmds
  {
    if cmds != [] {
      RunGood(e, w, cmds[0], base, secs);
      var (w1, ok) := Run(e, w, cmds[0]);
      if ok || cmds[0].Delete? {
        ApplyCmdsGood(e, w1, cmds[1..], base, secs);
      } else {
        RevertGood(e, w1, 0, base, secs);
      }
    }
  }

  /** Whatever fails, and wherever, an apply changes nothing outside the owned namespace and creates no section
      the batch does not declare. */
  lemma ApplyBatchGood(e: Env, w: World, cmds: seq<Cmd>, radios: seq<string>, base: Store, secs: set<Section>)
    requires GoodWorld(w, base, secs) && CmdsOk(cmds, secs)
    ensures GoodWorld(ApplyBatch(e, w, cmds, radios).0, base, secs)
  {
    ApplyCmdsGood(e, w, cmds, base, secs);
    var (w1, ok) := ApplyCmds(e, w, cmds);
    if ok {
      CommitAndReloadGood(e, w1, radios, base, secs);
    }
  }

  lemma {:induction false} BestEffortGood(e: Env, w: World, cmds: seq<Cmd>, base: Store, secs: set<Section>)
    requires GoodWorld(w, base, secs) && CmdsOk(cmds, secs)
    ensures GoodWorld(BestEffort(e, w, cmds), base, secs)
    decreases cmds
  {
    if cmds != [] {
      RunGood(e, w, cmds[0], base, secs);
      BestEffortGood(e, Run(e, w, cmds[0]).0, cmds[1..], base, secs);
    }
  }

  // --- a section no command names ------------------------------------------

  /** Both layers hold section `sec` as `base` does. */
  ghost predicate AtBase(w: World, base: Store, sec: Section) {
    forall k: Key :: k.sec == sec ==> SameAt(w.staged, base, k) && SameAt(w.committed, base, k)
  }

  lemma RunFrame(e: Env, w: World, c: Cmd, base: Store, sec: Section)
    requires AtBase(w, base, sec) && c.key.sec != sec
    ensures AtBase(Run(e, w, c).0, base, sec)
  {
  }

  lemma PutFrame(dst: Store, src: Store, cfg: string, base: Store, k: Key)
    requires SameAt(dst, base, k) && SameAt(src, base, k)
    ensures SameAt(PutConfig(dst, src, cfg), base, k)
  {
    PutConfigAt(dst, src, cfg, k);
  }

  lemma {:induction false} RevertFrame(e: Env, w: World, i: nat, base: Store, sec: Section)
    requires i <= |OWNED_CONFIGS| && AtBase(w, base, sec)
    ensures AtBase(RevertFrom(e, w, i), base, sec)
    decreases |OWNED_CONFIGS| - i
  {
    hide PutConfig, SameAt;
    if i < |OWNED_CONFIGS| {
      var w1 :=
        if e.fails(w.tick) then Pass(w)
        else Pass(w).(staged := PutConfig(w.staged, w.committed, OWNED_CONFIGS[i]));
      forall k: Key | k.sec == sec ensures SameAt(w1.staged, base, k) && SameAt(w1.committed, base, k) {
        PutFrame(w.staged, w.committed, OWNED_CONFIGS[i], base, k);
      }
      RevertFrame(e, w1, i + 1, base, sec);
    }
  }

  lemma {:induction false} CommitFrame(e: Env, w: World, i: nat, base: Store, sec: Section)
    requires i <= |OWNED_CONFIGS| && AtBase(w, base, sec)
    ensures AtBase(CommitFrom(e, w, i).0, base, sec)
    decreases |OWNED_CONFIGS| - i
  {
    hide PutConfig, SameAt;
    if i < |OWNED_CONFIGS| {
      var (w1, ok) := Commit(e, w, OWNED_CONFIGS[i]);
      forall k: Key | k.sec == sec ensures SameAt(w1.staged, base, k) && SameAt(w1.committed, base, k) {
        PutFrame(w.committed, w.staged, OWNED_CONFIGS[i], base, k);
      }
      if ok || OWNED_CONFIGS[i] == "sqm" {
        CommitFrame(e, w1, i + 1, base, sec);
      } else {
        RevertFrame(e, w1, 0, base, sec);
      }
    }
  }

  lemma {:induction false} ApplyCmdsFrame(e: Env, w: World, cmds: seq<Cmd>, base: Store, sec: Section)
    requires AtBase(w, base, sec) && forall c :: c in cmds ==> c.key.sec != sec
    ensures AtBase(ApplyCmds(e, w, cmds).0, base, sec)
    decreases cmds
  {
    hide AtBase, Run;
    if cmds != [] {
      RunFrame(e, w, cmds[0], base, sec);
      var (w1, ok) := Run(e, w, cmds[0]);
      if ok || cmds[0].Delete? {
        ApplyCmdsFrame(e, w1, cmds[1..], base, sec);
      } else {
        RevertFrame(e, w1, 0, base, sec);
      }
    }
  }

  /** Whatever fails, and wherever, an apply leaves a section that no command of the batch names exactly as it was. */
  lemma ApplyBatchFrame(e: Env, w: World, cmds: seq<Cmd>, radios: seq<string>, base: Store, sec: Section)
    requires AtBase(w, base, sec) && forall c :: c in cmds ==> c.key.sec != sec
    ensures AtBase(ApplyBatch(e, w, cmds, radios).0, base, sec)
  {
    hide ApplyCmds, CommitFrom, Reload;
    ApplyCmdsFrame(e, w, cmds, base, sec);
    var (w1, ok) := ApplyCmds(e, w, cmds);
    if ok {
      CommitFrame(e, w1, 0, base, sec);
      ReloadKeeps(e, CommitFrom(e, w1, 0).0, radios);
    }
  }
}
