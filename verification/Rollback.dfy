/** What a rollback restores, whichever command of the apply before it failed. */
module Rollback {
  import opened Text
  import opened Uci
  import opened Snapshot

  /** Delete the sections this apply added: those present now that the snapshot does not hold. */
  function AddedDeletes(current: seq<Section>, existing: seq<Section>): seq<Cmd> {
    if current == [] then []
    else (if current[0] in existing then [] else [Delete(Decl(current[0]))]) + AddedDeletes(current[1..], existing)
  }

  function SetCmds(m: Sorted<string>): seq<Cmd> {
    if m == [] then [] else [Set(m[0].0, m[0].1)] + SetCmds(m[1..])
  }

  function AddCmds(k: Key, es: seq<string>): seq<Cmd> {
    if es == [] then [] else [AddList(k, es[0])] + AddCmds(k, es[1..])
  }

  function ListCmds(m: Sorted<seq<string>>): seq<Cmd> {
    if m == [] then [] else [Delete(m[0].0)] + AddCmds(m[0].0, m[0].1) + ListCmds(m[1..])
  }

  function RollbackCmds(snap: Snap, current: seq<Section>): seq<Cmd> {
    AddedDeletes(current, snap.existing) + SetCmds(snap.prior) + ListCmds(snap.lists)
  }

  function RollbackTo(e: Env, w: World, snap: Snap, current: seq<Section>, radios: seq<string>): (World, bool) {
    CommitAndReload(e, BestEffort(e, w, RollbackCmds(snap, current)), radios)
  }

  // --- running commands that do not fail -----------------------------------

  function ExecAll(st: Store, cmds: seq<Cmd>): Store
    decreases cmds
  {
    if cmds == [] then st
    else ExecAll(match Exec(st, cmds[0]) case None => st case Some(s) => s, cmds[1..])
  }

  lemma {:induction false} ExecAllAppend(st: Store, a: seq<Cmd>, b: seq<Cmd>)
    ensures ExecAll(st, a + b) == ExecAll(ExecAll(st, a), b)
    decreases a
  {
    if a == [] {
      assert a + b == b;
    } else {
      assert (a + b)[1..] == a[1..] + b;
      ExecAllAppend(match Exec(st, a[0]) case None => st case Some(s) => s, a[1..], b);
    }
  }

  lemma {:induction false} BestEffortQuiet(e: Env, w: World, cmds: seq<Cmd>)
    requires Quiet(e, w.tick, |cmds|)
    ensures BestEffort(e, w, cmds) == World(ExecAll(w.staged, cmds), w.committed, w.tick + |cmds|)
    decreases cmds
  {
    if cmds != [] {
      BestEffortQuiet(e, Run(e, w, cmds[0]).0, cmds[1..]);
    }
  }

  lemma StoresEqual(a: Store, b: Store)
    requires forall k: Key :: SameAt(a, b, k)
    ensures a == b
  {
    forall k ensures k in a <==> k in b {
      assert SameAt(a, b, k);
    }
    forall k | k in a ensures a[k] == b[k] {
      assert SameAt(a, b, k);
    }
  }

  /** Layer `a` laid over `b`, in config `sqm` only when `sqm` is set. */
  function Laid(a: Store, b: Store, sqm: bool): Store {
    if sqm then a else PutConfig(a, b, SQM)
  }

  lemma LaidParts(a: Store, b: Store, sqm: bool)
    ensures NoSqm(Laid(a, b, sqm)) == NoSqm(a)
    ensures SqmPart(Laid(a, b, sqm)) == SqmPart(if sqm then a else b)
  {
  }

  lemma PartsEqual(a: Store, b: Store)
    ensures a == b <==> NoSqm(a) == NoSqm(b) && SqmPart(a) == SqmPart(b)
  {
    if NoSqm(a) == NoSqm(b) && SqmPart(a) == SqmPart(b) {
      forall k: Key ensures SameAt(a, b, k) {
        assert k in a <==> if k.sec.config == SQM then k in SqmPart(a) else k in NoSqm(a);
        assert k in b <==> if k.sec.config == SQM then k in SqmPart(b) else k in NoSqm(b);
        assert k in a ==> a[k] == if k.sec.config == SQM then SqmPart(a)[k] else NoSqm(a)[k];
        assert k in b ==> b[k] == if k.sec.config == SQM then SqmPart(b)[k] else NoSqm(b)[k];
      }
      StoresEqual(a, b);
    }
  }

  /** The layers agree outside the configs from the i-th on. */
  ghost predicate SameBefore(a: Store, b: Store, i: nat) {
    forall k: Key :: (forall j :: i <= j < |OWNED_CONFIGS| ==> k.sec.config != OWNED_CONFIGS[j]) ==> SameAt(a, b, k)
  }

  lemma SameBeforeNext(a: Store, b: Store, i: nat)
    requires i < |OWNED_CONFIGS| && SameBefore(a, b, i)
    ensures SameBefore(PutConfig(a, b, OWNED_CONFIGS[i]), b, i + 1)
  {
    var a1 := PutConfig(a, b, OWNED_CONFIGS[i]);
    forall k: Key | forall j :: i + 1 <= j < |OWNED_CONFIGS| ==> k.sec.config != OWNED_CONFIGS[j]
      ensures SameAt(a1, b, k)
    {
      if k.sec.config != OWNED_CONFIGS[i] {
        assert SameAt(a, b, k);
      }
    }
  }

  lemma SameBeforeSqm(a: Store, b: Store)
    requires SameBefore(a, b, |OWNED_CONFIGS| - 1)
    ensures a == Laid(b, a, false) && PutConfig(a, b, SQM) == b
  {
    assert OWNED_CONFIGS[|OWNED_CONFIGS| - 1] == SQM;
    forall k: Key ensures SameAt(a, Laid(b, a, false), k) && SameAt(PutConfig(a, b, SQM), b, k) {
      if k.sec.config != SQM {
        assert SameAt(a, b, k);
      }
    }
    StoresEqual(a, Laid(b, a, false));
    StoresEqual(PutConfig(a, b, SQM), b);
  }

  lemma UnownedBefore(a: Store, b: Store)
    requires SameUnowned(a, b)
    ensures SameBefore(a, b, 0)
  {
    forall k: Key | forall j :: 0 <= j < |OWNED_CONFIGS| ==> k.sec.config != OWNED_CONFIGS[j]
      ensures SameAt(a, b, k)
    {
      assert !IsOwnedConfig(k.sec.config);
    }
  }

  /** Config by config, the committed layer becomes the staged one - but for `sqm`, when its commit fails. */
  lemma {:induction false} CommitFromQuiet(e: Env, w: World, i: nat)
    requires i < |OWNED_CONFIGS| && Quiet(e, w.tick, |OWNED_CONFIGS| - 1 - i) && SameBefore(w.committed, w.staged, i)
    ensures var last := w.tick + |OWNED_CONFIGS| - 1 - i;
            CommitFrom(e, w, i) == (World(w.staged, Laid(w.staged, w.committed, !e.fails(last)), last + 1), true)
    decreases |OWNED_CONFIGS| - i
  {
    hide SameBefore, Laid;
    var cfg := OWNED_CONFIGS[i];
    OnlySqmOptional(i);
    var w1 := Pass(w).(committed := PutConfig(w.committed, w.staged, cfg));
    if i == |OWNED_CONFIGS| - 1 {
      SameBeforeSqm(w.committed, w.staged);
      LaidIs(w.staged, w.committed);
    } else {
      assert Commit(e, w, cfg) == (w1, true);
      SameBeforeNext(w.committed, w.staged, i);
      CommitFromQuiet(e, w1, i + 1);
      LaidOnce(w.staged, w.committed, cfg, !e.fails(w.tick + |OWNED_CONFIGS| - 1 - i));
    }
  }

  lemma LaidIs(a: Store, b: Store)
    ensures Laid(a, b, true) == a
  {
  }

  lemma LaidOnce(a: Store, b: Store, cfg: string, sqm: bool)
    requires cfg != SQM
    ensures Laid(a, PutConfig(b, a, cfg), sqm) == Laid(a, b, sqm)
  {
  }

  lemma CommitQuiet(e: Env, w: World)
    requires Quiet(e, w.tick, |OWNED_CONFIGS| - 1) && SameUnowned(w.committed, w.staged)
    ensures var last := w.tick + |OWNED_CONFIGS| - 1;
            CommitFrom(e, w, 0) == (World(w.staged, Laid(w.staged, w.committed, !e.fails(last)), last + 1), true)
  {
    hide CommitFrom, SameBefore, SameUnowned, Laid;
    UnownedBefore(w.committed, w.staged);
    CommitFromQuiet(e, w, 0);
  }

  // --- the three phases of a rollback --------------------------------------

  lemma {:induction false} ExecDeletes(st: Store, current: seq<Section>, existing: seq<Section>)
    requires Closed(st)
    ensures ExecAll(st, AddedDeletes(current, existing))
         == map k | k in st && (k.sec in current ==> k.sec in existing) :: st[k]
    decreases current
  {
    if current != [] {
      var sec := current[0];
      var st1 := if sec in existing || Decl(sec) !in st then st else WithoutSection(st, sec);
      ExecDeletes(st1, current[1..], existing);
      var rest := AddedDeletes(current[1..], existing);
      if sec !in existing {
        assert AddedDeletes(current, existing)[1..] == rest;
      } else {
        assert AddedDeletes(current, existing) == rest;
      }
      assert forall k :: k in st1 <==> k in st && (k.sec == sec ==> sec in existing);
      assert forall s :: s in current <==> s == sec || s in current[1..];
    } else {
      assert st == map k | k in st && (k.sec in current ==> k.sec in existing) :: st[k];
    }
  }

  function ScalarStore(m: Sorted<string>): Store {
    map k | k in AsMap(m) :: Scalar(AsMap(m)[k])
  }

  function ListStore(m: Sorted<seq<string>>): Store {
    map k | k in AsMap(m) :: List(AsMap(m)[k])
  }

  /** Every option of `m` finds its section declared, in `st` or by an earlier entry. */
  ghost predicate DeclReady(st: Store, m: Sorted<string>) {
    forall i :: 0 <= i < |m| && m[i].0.Opt? ==>
      Decl(m[i].0.sec) in st || exists j :: 0 <= j < i && m[j].0 == Decl(m[i].0.sec)
  }

  lemma HeadNotInTail<V>(m: Sorted<V>)
    requires IsSorted(m) && m != []
    ensures m[0].0 !in AsMap(m[1..]) && IsSorted(m[1..])
  {
    AsMapKeys(m[1..]);
    if m[0].0 in AsMap(m[1..]) {
      var i :| 0 <= i < |m[1..]| && m[1..][i].0 == m[0].0;
      assert m[i + 1].0 == m[0].0;
      BeforeIrreflexive(KeyText(m[0].0));
    }
  }

  lemma NoScalars()
    ensures ScalarStore([]) == map[]
  {
  }

  lemma DeclReadyStep(st: Store, m: Sorted<string>)
    requires m != [] && DeclReady(st, m)
    ensures m[0].0.Decl? || Decl(m[0].0.sec) in st
    ensures DeclReady(st[m[0].0 := Scalar(m[0].1)], m[1..])
  {
    var st1 := st[m[0].0 := Scalar(m[0].1)];
    forall i | 0 <= i < |m[1..]| && m[1..][i].0.Opt?
      ensures Decl(m[1..][i].0.sec) in st1 || exists j :: 0 <= j < i && m[1..][j].0 == Decl(m[1..][i].0.sec)
    {
      assert m[i + 1] == m[1..][i];
      if Decl(m[i + 1].0.sec) !in st1 {
        var j :| 0 <= j < i + 1 && m[j].0 == Decl(m[i + 1].0.sec);
        assert j > 0;
        assert m[1..][j - 1].0 == Decl(m[1..][i].0.sec);
      }
    }
  }

  lemma ScalarStoreStep(st: Store, m: Sorted<string>)
    requires IsSorted(m) && m != []
    ensures st[m[0].0 := Scalar(m[0].1)] + ScalarStore(m[1..]) == st + ScalarStore(m)
  {
    HeadNotInTail(m);
  }

  lemma {:induction false} ExecSets(st: Store, m: Sorted<string>)
    requires IsSorted(m) && DeclReady(st, m)
    ensures ExecAll(st, SetCmds(m)) == st + ScalarStore(m)
    decreases m
  {
    hide DeclReady, IsSorted, ScalarStore;
    if m == [] {
      assert st + ScalarStore([]) == st by { NoScalars(); }
    } else {
      var (k, v) := m[0];
      var st1 := st[k := Scalar(v)];
      assert Exec(st, Set(k, v)) == Some(st1) && DeclReady(st1, m[1..]) by { DeclReadyStep(st, m); }
      assert SetCmds(m)[1..] == SetCmds(m[1..]);
      HeadNotInTail(m);
      ExecSets(st1, m[1..]);
      ScalarStoreStep(st, m);
    }
  }

  lemma {:induction false} ExecAdds(st: Store, k: Key, es: seq<string>)
    requires k.Opt? && Decl(k.sec) in st && es != []
    ensures ExecAll(st, AddCmds(k, es)) == st[k := List(ListAt(st, k) + es)]
    decreases es
  {
    var st1 := st[k := List(ListAt(st, k) + [es[0]])];
    assert AddCmds(k, es)[1..] == AddCmds(k, es[1..]);
    if |es| == 1 {
      assert es == [es[0]];
    } else {
      ExecAdds(st1, k, es[1..]);
      assert ListAt(st, k) + [es[0]] + es[1..] == ListAt(st, k) + es;
    }
  }

  ghost predicate ListsReady(st: Store, m: Sorted<seq<string>>) {
    forall p :: p in m ==> p.0.Opt? && Decl(p.0.sec) in st && p.1 != []
  }

  lemma ExecOneList(st: Store, k: Key, es: seq<string>)
    requires k.Opt? && Decl(k.sec) in st && es != []
    ensures ExecAll(st, [Delete(k)] + AddCmds(k, es)) == st[k := List(es)]
  {
    var st0 := st - {k};
    assert ExecAll(st, [Delete(k)]) == st0 by {
      assert k !in st ==> st == st0;
      assert [Delete(k)][1..] == [];
    }
    ExecAllAppend(st, [Delete(k)], AddCmds(k, es));
    ExecAdds(st0, k, es);
    assert [] + es == es && st0[k := List(es)] == st[k := List(es)];
  }

  lemma ListStoreStep(st: Store, m: Sorted<seq<string>>)
    requires IsSorted(m) && m != []
    ensures st[m[0].0 := List(m[0].1)] + ListStore(m[1..]) == st + ListStore(m)
  {
    HeadNotInTail(m);
  }

  lemma {:induction false} ExecLists(st: Store, m: Sorted<seq<string>>)
    requires IsSorted(m) && ListsReady(st, m)
    ensures ExecAll(st, ListCmds(m)) == st + ListStore(m)
    decreases m
  {
    if m == [] {
      assert st + ListStore(m) == st;
    } else {
      var (k, es) := m[0];
      assert m[0] in m;
      var st1 := st[k := List(es)];
      ExecOneList(st, k, es);
      ExecAllAppend(st, [Delete(k)] + AddCmds(k, es), ListCmds(m[1..]));
      assert ListsReady(st1, m[1..]) by {
        assert forall p :: p in m[1..] ==> p in m;
      }
      assert IsSorted(m[1..]);
      ExecLists(st1, m[1..]);
      ListStoreStep(st, m);
    }
  }

  // --- what is restored ----------------------------------------------------

  function KeepExisting(st: Store, before: Store, current: seq<Section>): Store {
    map k | k in st && (k.sec in current ==> k.sec in OwnedSections(before)) :: st[k]
  }

  /** `st` without the sections added since, with the snapshotted contents of `before` laid over it. */
  function Restored(st: Store, before: Store, current: seq<Section>): Store {
    KeepExisting(st, before, current) + OwnedPart(before)
  }

  lemma SortedDeclReady(st: Store, before: Store, m: Sorted<string>)
    requires IsSorted(m) && AsMap(m) == Scalars(before) && Clean(before)
    ensures DeclReady(st, m)
  {
    AsMapKeys(m);
    forall i | 0 <= i < |m| && m[i].0.Opt?
      ensures exists j :: 0 <= j < i && m[j].0 == Decl(m[i].0.sec)
    {
      var sec := m[i].0.sec;
      assert Decl(sec) in AsMap(m) by {
        assert m[i].0 in before && EntryOk(Decl(sec), before[Decl(sec)]);
      }
      var j :| 0 <= j < |m| && m[j].0 == Decl(sec);
      DeclBeforeOption(sec, m[i].0.option);
      if i < j {
        BeforeTrans(KeyText(m[j].0), KeyText(m[i].0), KeyText(m[j].0));
        BeforeIrreflexive(KeyText(m[j].0));
      }
      assert i != j;
    }
  }

  lemma CapturedListsReady(st: Store, before: Store, m: Sorted<seq<string>>)
    requires IsSorted(m) && AsMap(m) == ListsOf(before) && Clean(before)
    requires forall k :: k in Scalars(before) ==> k in st
    ensures ListsReady(st, m)
  {
    AsMapKeys(m);
    forall p | p in m ensures p.0.Opt? && Decl(p.0.sec) in st && p.1 != [] {
      var i :| 0 <= i < |m| && m[i] == p;
      if i < |m| {
        SortedValue(m, i);
        assert p.0 in before && before[p.0] == List(p.1) && EntryOk(p.0, before[p.0]);
        assert EntryOk(Decl(p.0.sec), before[Decl(p.0.sec)]);
      }
    }
  }

  lemma {:induction false} SortedValue<V>(m: Sorted<V>, i: nat)
    requires IsSorted(m) && i < |m|
    ensures m[i].0 in AsMap(m) && AsMap(m)[m[i].0] == m[i].1
  {
    if i > 0 {
      HeadNotInTail(m);
      SortedValue(m[1..], i - 1);
      assert m[1..][i - 1] == m[i];
    }
  }

  lemma CapturedParts(before: Store, snap: Snap)
    requires Captures(snap, before)
    ensures ScalarStore(snap.prior) + ListStore(snap.lists) == OwnedPart(before)
    ensures forall s :: s in snap.existing <==> s in OwnedSections(before)
  {
    hide Owned, AsMap, IsSorted, KeysOk, OwnedSections;
    assert forall s :: s in snap.existing <==> s in (set x | x in snap.existing);
    var r := ScalarStore(snap.prior) + ListStore(snap.lists);
    assert forall k :: k in r <==> k in OwnedPart(before);
  }

  lemma LayAssoc(a: Store, b: Store, c: Store)
    ensures a + b + c == a + (b + c)
  {
  }

  lemma ReplaySets(st: Store, before: Store, snap: Snap)
    requires Clean(before) && Captures(snap, before)
    ensures ExecAll(st, SetCmds(snap.prior)) == st + ScalarStore(snap.prior)
  {
    SortedDeclReady(st, before, snap.prior);
    ExecSets(st, snap.prior);
  }

  lemma ReplayLists(st: Store, before: Store, snap: Snap)
    requires Clean(before) && Captures(snap, before) && forall k :: k in Scalars(before) ==> k in st
    ensures ExecAll(st, ListCmds(snap.lists)) == st + ListStore(snap.lists)
  {
    CapturedListsReady(st, before, snap.lists);
    ExecLists(st, snap.lists);
  }

  /** Replaying the snapshot lays the owned part of before over any layer. */
  lemma ReplayExec(st: Store, before: Store, snap: Snap)
    requires Clean(before) && Captures(snap, before)
    ensures ExecAll(ExecAll(st, SetCmds(snap.prior)), ListCmds(snap.lists)) == st + OwnedPart(before)
  {
    var scalars, lists := ScalarStore(snap.prior), ListStore(snap.lists);
    ReplaySets(st, before, snap);
    assert forall k :: k in Scalars(before) ==> k in st + scalars;
    ReplayLists(st + scalars, before, snap);
    LayAssoc(st, scalars, lists);
    CapturedParts(before, snap);
  }

  lemma DeletesExec(st: Store, before: Store, snap: Snap, current: seq<Section>)
    requires Closed(st) && Captures(snap, before)
    ensures ExecAll(st, AddedDeletes(current, snap.existing)) == KeepExisting(st, before, current)
  {
    ExecDeletes(st, current, snap.existing);
    assert forall s :: s in snap.existing <==> s in OwnedSections(before) by {
      assert forall s :: s in snap.existing <==> s in (set x | x in snap.existing);
    }
  }

  /** The commands of a rollback, run without failures over any layer, leave `Restored`. */
  lemma RollbackExec(st: Store, before: Store, snap: Snap, current: seq<Section>)
    requires Closed(st) && Clean(before) && Captures(snap, before)
    ensures ExecAll(st, RollbackCmds(snap, current)) == Restored(st, before, current)
  {
    var dels, sets, lists := AddedDeletes(current, snap.existing), SetCmds(snap.prior), ListCmds(snap.lists);
    ExecAllAppend(st, dels, sets);
    ExecAllAppend(st, dels + sets, lists);
    DeletesExec(st, before, snap, current);
    ReplayExec(KeepExisting(st, before, current), before, snap);
  }

  /** An owned option present in `st`, in a section that existed before, that the section did not have before. */
  ghost predicate GainedOption(st: Store, before: Store, k: Key) {
    k in st && Owned(k.sec) && k.sec in OwnedSections(before) && k !in before
  }

  lemma RestoredSections(st: Store, before: Store, current: seq<Section>)
    requires Closed(before) && Closed(st)
    requires OwnedSections(st) <= OwnedSections(before) + (set s | s in current)
    ensures OwnedSections(Restored(st, before, current)) == OwnedSections(before)
    ensures forall k :: k in Restored(st, before, current) && Owned(k.sec) ==> k.sec in OwnedSections(before)
  {
    var r := Restored(st, before, current);
    forall k | k in r && Owned(k.sec) ensures k.sec in OwnedSections(before) {
      if k in OwnedPart(before) {
        assert Decl(k.sec) in before;
      } else {
        assert k in st && Decl(k.sec) in st && k.sec in OwnedSections(st);
      }
    }
    assert forall s :: s in OwnedSections(before) ==> Decl(s) in OwnedPart(before);
  }

  lemma RestoredUnowned(st: Store, before: Store, current: seq<Section>)
    requires forall s :: s in current ==> Owned(s)
    ensures SameUnowned(Restored(st, before, current), st)
  {
  }

  lemma RestoredValues(st: Store, before: Store, current: seq<Section>)
    ensures forall k :: k in OwnedPart(before) ==>
              k in Restored(st, before, current) && Restored(st, before, current)[k] == before[k]
  {
  }

  lemma RestoredEqual(st: Store, before: Store, current: seq<Section>)
    requires SameUnowned(Restored(st, before, current), before)
    requires forall k :: k in Restored(st, before, current) && Owned(k.sec) ==> k.sec in OwnedSections(before)
    ensures Restored(st, before, current) == before <==> !exists k :: GainedOption(st, before, k)
  {
    var r := Restored(st, before, current);
    RestoredValues(st, before, current);
    if k :| GainedOption(st, before, k) {
      assert k in r && k !in before;
    } else {
      forall k: Key ensures SameAt(r, before, k) {
        if Owned(k.sec) {
          assert k in before ==> k in OwnedPart(before);
          assert k in r && k !in before ==> k in st;
          assert !GainedOption(st, before, k);
        }
      }
      StoresEqual(r, before);
    }
  }

  lemma UnownedTrans(a: Store, b: Store, c: Store)
    requires SameUnowned(a, b) && SameUnowned(b, c)
    ensures SameUnowned(a, c)
  {
    forall k: Key | !Owned(k.sec) ensures SameAt(a, c, k) {
      assert SameAt(a, b, k) && SameAt(b, c, k);
    }
  }

  /** `c` owns exactly the sections of `before` with every value of `before`, differs from it nowhere outside the
      owned namespace, and is equal to it exactly when no section of `before` gained an option in `now`. */
  ghost predicate RestoredTo(c: Store, before: Store, now: Store) {
    && SameUnowned(c, before)
    && OwnedSections(c) == OwnedSections(before)
    && (forall k :: k in OwnedPart(before) ==> k in c && c[k] == before[k])
    && (c == before <==> !exists k :: GainedOption(now, before, k))
  }

  /** The restored layer has exactly the sections of before, every value of before, and everything unowned as it
      was; it is the layer of before exactly when no surviving section gained an option. */
  lemma RestoredExact(st: Store, before: Store, current: seq<Section>)
    requires Clean(before) && Closed(st) && SameUnowned(st, before)
    requires OwnedSections(st) <= OwnedSections(before) + (set s | s in current)
    requires forall s :: s in current ==> Owned(s)
    ensures RestoredTo(Restored(st, before, current), before, st)
  {
    RestoredUnowned(st, before, current);
    UnownedTrans(Restored(st, before, current), st, before);
    RestoredSections(st, before, current);
    RestoredValues(st, before, current);
    RestoredEqual(st, before, current);
  }

  // --- with or without `sqm` -----------------------------------------------

  function SetOf(secs: seq<Section>): set<Section> {
    set s | s in secs
  }

  function WithoutSections(st: Store, secs: seq<Section>): Store {
    map k | k in st && k.sec !in secs :: st[k]
  }

  lemma NoSqmClean(st: Store)
    requires Clean(st)
    ensures Clean(NoSqm(st))
  {
    hide EntryOk;
  }

  lemma ShownClean(st: Store, sqm: bool)
    requires Clean(st)
    ensures Clean(Shown(st, sqm))
  {
    hide Clean;
    NoSqmClean(st);
  }

  lemma RestoredAt(st: Store, before: Store, current: seq<Section>, k: Key)
    ensures var r := Restored(st, before, current);
            && (k in r <==> k in OwnedPart(before)
                            || (k in st && (k.sec in current ==> k.sec in OwnedSections(before))))
            && (k in r ==> r[k] == if k in OwnedPart(before) then OwnedPart(before)[k] else st[k])
  {
    hide Owned, OwnedSections, OwnedPart;
  }

  lemma NoSqmAt(st: Store, k: Key)
    ensures k in NoSqm(st) <==> k in st && k.sec.config != SQM
    ensures k in NoSqm(st) ==> NoSqm(st)[k] == st[k]
  {
  }

  lemma ShownOwned(st: Store, sqm: bool, k: Key)
    requires k.sec.config != SQM
    ensures k in OwnedPart(Shown(st, sqm)) <==> k in OwnedPart(NoSqm(st))
    ensures k in OwnedPart(NoSqm(st)) ==> OwnedPart(Shown(st, sqm))[k] == OwnedPart(NoSqm(st))[k]
    ensures k.sec in OwnedSections(Shown(st, sqm)) <==> k.sec in OwnedSections(NoSqm(st))
  {
    hide Owned;
    assert Decl(k.sec) in NoSqm(st) <==> Decl(k.sec) in st;
  }

  lemma NoSqmOwned(st: Store, k: Key)
    ensures k in OwnedPart(NoSqm(st)) ==> k.sec.config != SQM
  {
    hide Owned;
  }

  /** What is restored outside `sqm` does not depend on whether `sqm` was shown. */
  lemma RestoredNoSqm(st: Store, before: Store, current: seq<Section>, sqm: bool)
    ensures NoSqm(Restored(st, Shown(before, sqm), current)) == Restored(NoSqm(st), NoSqm(before), current)
  {
    hide Owned, NoSqm, OwnedPart, OwnedSections, Restored, Shown;
    var a, b := NoSqm(Restored(st, Shown(before, sqm), current)), Restored(NoSqm(st), NoSqm(before), current);
    forall k: Key ensures SameAt(a, b, k) {
      NoSqmAt(Restored(st, Shown(before, sqm), current), k);
      NoSqmAt(st, k);
      NoSqmOwned(before, k);
      RestoredAt(st, Shown(before, sqm), current, k);
      RestoredAt(NoSqm(st), NoSqm(before), current, k);
      if k.sec.config != SQM {
        ShownOwned(before, sqm, k);
      }
    }
    StoresEqual(a, b);
  }

  /** A section of `sqm` that was not shown: deleted if the push declared it, left alone otherwise. */
  lemma RestoredSqm(st: Store, before: Store, current: seq<Section>)
    ensures SqmPart(Restored(st, NoSqm(before), current)) == WithoutSections(SqmPart(st), current)
  {
    hide Owned;
  }

  lemma NoSqmGood(st: Store, before: Store, current: seq<Section>)
    requires Good(st, before, OwnedSections(before) + SetOf(current))
    ensures Closed(NoSqm(st)) && SameUnowned(NoSqm(st), NoSqm(before))
    ensures OwnedSections(NoSqm(st)) <= OwnedSections(NoSqm(before)) + SetOf(current)
  {
    hide EntryOk, Owned;
    forall k: Key | !Owned(k.sec) ensures SameAt(NoSqm(st), NoSqm(before), k) {
      assert SameAt(st, before, k);
    }
    forall s | s in OwnedSections(NoSqm(st)) && s !in current ensures s in OwnedSections(NoSqm(before)) {
      assert s in OwnedSections(st) && s in OwnedSections(before);
    }
  }

  // --- the theorem ---------------------------------------------------------

  /** What a rollback from `now` makes of the router, with the layer `before` at the push: outside `sqm` nothing is
      left staged and the layer from before is restored; within `sqm`, if it was shown, the staged layer is restored
      too, and if not, the sections the push declared are gone and the others are as they were. The committed `sqm`
      is the staged one unless its commit failed. */
  ghost predicate Undone(r: World, before: Store, now: World, current: seq<Section>, shown: bool, landed: bool) {
    && Closed(r.staged) && NoSqm(r.staged) == NoSqm(r.committed)
    && RestoredTo(NoSqm(r.committed), NoSqm(before), NoSqm(now.staged))
    && (shown ==> RestoredTo(r.staged, before, now.staged))
    && (!shown ==> SqmPart(r.staged) == WithoutSections(SqmPart(now.staged), current))
    && SqmPart(r.committed) == SqmPart(if landed then r.staged else now.committed)
  }

  lemma RestoredClosed(st: Store, before: Store, current: seq<Section>)
    requires Closed(st) && Closed(before)
    ensures Closed(Restored(st, before, current))
  {
    hide Owned;
  }

  lemma RestoredParts(st: Store, before: Store, current: seq<Section>, shown: bool)
    requires Clean(before) && Good(st, before, OwnedSections(before) + SetOf(current))
    requires forall s :: s in current ==> Owned(s)
    ensures var r := Restored(st, Shown(before, shown), current);
            && Closed(r) && RestoredTo(NoSqm(r), NoSqm(before), NoSqm(st))
            && (shown ==> RestoredTo(r, before, st))
            && (!shown ==> SqmPart(r) == WithoutSections(SqmPart(st), current))
  {
    hide Restored, RestoredTo, EntryOk, Owned, NoSqm, OwnedSections;
    ShownClean(before, shown);
    RestoredClosed(st, Shown(before, shown), current);
    RestoredNoSqm(st, before, current, shown);
    NoSqmGood(st, before, current);
    NoSqmClean(before);
    RestoredExact(NoSqm(st), NoSqm(before), current);
    RestoredSqm(st, before, current);
    RestoredExact(st, before, current);
  }

  /** Whatever failed before - any command of the apply, any commit, any reload, any revert - a rollback whose own
      `uci` commands succeed, the commit of `sqm` perhaps excepted, undoes the push, outside `sqm` and, when `sqm` was
      shown, within: exactly the sections of before with every value of before, everything outside the owned namespace
      as it was, and the layer of before itself exactly when no section of before gained an option. */
  lemma RollbackRestores(e: Env, w: World, before: Store, snap: Snap, current: seq<Section>, radios: seq<string>,
                         shown: bool)
    requires Clean(before) && Captures(snap, Shown(before, shown)) && (forall s :: s in current ==> Owned(s))
    requires GoodWorld(w, before, OwnedSections(before) + SetOf(current))
    requires Quiet(e, w.tick, |RollbackCmds(snap, current)| + |OWNED_CONFIGS| - 1)
    ensures var landed := !e.fails(w.tick + |RollbackCmds(snap, current)| + |OWNED_CONFIGS| - 1);
            Undone(RollbackTo(e, w, snap, current, radios).0, before, w, current, shown, landed)
  {
    hide Captures, RollbackCmds, CommitFrom, Restored, RestoredTo, EntryOk, BestEffort, NoSqm, SqmPart, Shown, Laid,
         Reload;
    var cmds := RollbackCmds(snap, current);
    BestEffortQuiet(e, w, cmds);
    ShownClean(before, shown);
    RollbackExec(w.staged, Shown(before, shown), snap, current);
    RestoredParts(w.staged, before, current, shown);
    var st := Restored(w.staged, Shown(before, shown), current);
    var w1 := World(st, w.committed, w.tick + |cmds|);
    assert BestEffort(e, w, cmds) == w1;
    RestoredUnowned(w.staged, Shown(before, shown), current);
    UnownedMeet(w.committed, w.staged, st, before);
    CommitQuiet(e, w1);
    LaidParts(st, w.committed, !e.fails(w1.tick + |OWNED_CONFIGS| - 1));
    ReloadKeeps(e, CommitFrom(e, w1, 0).0, radios);
  }

  lemma UnownedMeet(c: Store, s: Store, t: Store, before: Store)
    requires SameUnowned(c, before) && SameUnowned(s, before) && SameUnowned(t, s)
    ensures SameUnowned(c, t)
  {
    forall k: Key | !Owned(k.sec) ensures SameAt(c, t, k) {
      assert SameAt(c, before, k) && SameAt(s, before, k) && SameAt(t, s, k);
    }
  }

  /** When `sqm` was shown and its commit did not fail, the whole router is undone. */
  lemma UndoneExact(r: World, before: Store, now: World, current: seq<Section>)
    requires Undone(r, before, now, current, true, true)
    ensures r.staged == r.committed && RestoredTo(r.committed, before, now.staged)
  {
    hide RestoredTo, NoSqm, SqmPart;
    PartsEqual(r.staged, r.committed);
  }

  /** No traffic shaper: neither the store before nor the push has a section in `sqm`. */
  ghost predicate NoShaper(before: Store, current: seq<Section>) {
    forall s :: s in OwnedSections(before) || s in current ==> s.config != SQM
  }

  lemma NoShaperKey(st: Store, before: Store, current: seq<Section>, k: Key)
    requires Closed(st) && OwnedSections(st) <= OwnedSections(before) + SetOf(current) && NoShaper(before, current)
    ensures k in st && Owned(k.sec) ==> k.sec.config != SQM
  {
    hide Owned;
    assert k in st ==> Decl(k.sec) in st;
  }

  lemma SameSqm(st: Store, before: Store, current: seq<Section>)
    requires Closed(st) && Closed(before) && SameUnowned(st, before) && NoShaper(before, current)
    requires OwnedSections(st) <= OwnedSections(before) + SetOf(current)
    ensures SqmPart(st) == SqmPart(before)
  {
    hide Owned, NoShaper;
    forall k: Key | k.sec.config == SQM ensures SameAt(st, before, k) {
      NoShaperKey(st, before, current, k);
      NoShaperKey(before, before, current, k);
      assert !Owned(k.sec) ==> SameAt(st, before, k);
    }
    forall k ensures k in SqmPart(st) <==> k in SqmPart(before) {
      assert k.sec.config == SQM ==> SameAt(st, before, k);
    }
    forall k | k in SqmPart(st) ensures SqmPart(st)[k] == SqmPart(before)[k] {
      assert SameAt(st, before, k);
    }
  }

  lemma NoShaperOwned(before: Store, current: seq<Section>, k: Key)
    requires Closed(before) && NoShaper(before, current)
    ensures k in OwnedPart(before) <==> k in OwnedPart(NoSqm(before))
    ensures k.sec in OwnedSections(before) <==> k.sec in OwnedSections(NoSqm(before))
  {
    hide Owned;
    assert Decl(k.sec) in NoSqm(before) <==> Decl(k.sec) in before && k.sec.config != SQM;
    assert k in before ==> Decl(k.sec) in before;
  }

  lemma NoShaperGained(before: Store, now: Store, current: seq<Section>, k: Key)
    requires Closed(before) && NoShaper(before, current)
    ensures GainedOption(now, before, k) <==> GainedOption(NoSqm(now), NoSqm(before), k)
  {
    hide Owned, NoSqm, OwnedSections, OwnedPart;
    NoShaperOwned(before, current, k);
    NoSqmAt(now, k);
    NoSqmAt(before, k);
    SectionOutside(before, k.sec);
  }

  lemma SectionOutside(before: Store, s: Section)
    ensures s in OwnedSections(NoSqm(before)) ==> s.config != SQM
  {
    hide Owned;
  }

  lemma NoSqmRestored(c: Store, before: Store, now: Store, current: seq<Section>)
    requires Closed(before) && NoShaper(before, current) && SqmPart(c) == SqmPart(before)
    requires RestoredTo(NoSqm(c), NoSqm(before), NoSqm(now))
    ensures RestoredTo(c, before, now)
  {
    hide Owned, NoShaper, NoSqm, SqmPart, OwnedSections, OwnedPart, Closed, SameAt, GainedOption;
    forall k: Key ensures SameAt(c, before, k) <==> k.sec.config == SQM || SameAt(NoSqm(c), NoSqm(before), k) {
      PartAt(c, before, k);
    }
    forall k | k in OwnedPart(before) ensures k in c && k in before && c[k] == before[k] {
      NoShaperOwned(before, current, k);
      NoSqmOwned(before, k);
      OwnedValue(before, k);
      NoSqmAt(c, k);
      NoSqmAt(before, k);
    }
    forall s ensures s in OwnedSections(c) <==> s in OwnedSections(before) {
      SectionIn(c, s);
      SectionIn(before, s);
      assert SameAt(c, before, Decl(s)) <==> s.config == SQM || SameAt(NoSqm(c), NoSqm(before), Decl(s));
      SectionsSame(NoSqm(c), NoSqm(before), c, before, s);
    }
    PartsEqual(c, before);
    forall k ensures GainedOption(now, before, k) <==> GainedOption(NoSqm(now), NoSqm(before), k) {
      NoShaperGained(before, now, current, k);
    }
  }

  lemma OwnedValue(st: Store, k: Key)
    ensures k in OwnedPart(st) ==> k in st && OwnedPart(st)[k] == st[k]
  {
    hide Owned;
  }

  lemma SectionIn(st: Store, s: Section)
    ensures s in OwnedSections(st) <==> Decl(s) in st && Owned(s)
    ensures s in OwnedSections(NoSqm(st)) <==> s in OwnedSections(st) && s.config != SQM
  {
    hide Owned;
  }

  lemma SectionsSame(a: Store, b: Store, c: Store, d: Store, s: Section)
    requires s.config == SQM ==> SameAt(c, d, Decl(s))
    requires s in OwnedSections(a) <==> s in OwnedSections(c) && s.config != SQM
    requires s in OwnedSections(b) <==> s in OwnedSections(d) && s.config != SQM
    requires OwnedSections(a) == OwnedSections(b)
    ensures s in OwnedSections(c) <==> s in OwnedSections(d)
  {
    hide Owned;
  }

  lemma PartAt(c: Store, before: Store, k: Key)
    requires SqmPart(c) == SqmPart(before)
    ensures SameAt(c, before, k) <==> k.sec.config == SQM || SameAt(NoSqm(c), NoSqm(before), k)
  {
    assert k.sec.config == SQM ==> (k in c <==> k in SqmPart(c)) && (k in before <==> k in SqmPart(before));
    assert k.sec.config == SQM && k in c ==> c[k] == SqmPart(c)[k];
    assert k.sec.config == SQM && k in before ==> before[k] == SqmPart(before)[k];
  }

  lemma UndoneSqm(r: World, before: Store, now: World, current: seq<Section>, shown: bool, landed: bool)
    requires Undone(r, before, now, current, shown, landed) && NoShaper(before, current) && Closed(before)
    requires GoodWorld(now, before, OwnedSections(before) + SetOf(current))
    ensures SqmPart(r.staged) == SqmPart(before) && SqmPart(r.committed) == SqmPart(before)
  {
    hide Owned, NoShaper, EntryOk, SqmPart, NoSqm, GainedOption, OwnedPart;
    SameSqm(now.staged, before, current);
    SameSqm(now.committed, before, current);
    if shown {
      assert OwnedSections(before) <= OwnedSections(before) + SetOf(current);
      SameSqm(r.staged, before, current);
    } else {
      NothingToDelete(before, current);
    }
  }

  lemma NothingToDelete(before: Store, current: seq<Section>)
    requires NoShaper(before, current)
    ensures WithoutSections(SqmPart(before), current) == SqmPart(before)
  {
  }

  /** On a device without a traffic shaper, whose `uci show sqm` and `uci commit sqm` always fail, the whole router is
      undone. */
  lemma UndoneWithoutSqm(r: World, before: Store, now: World, current: seq<Section>, shown: bool, landed: bool)
    requires Undone(r, before, now, current, shown, landed) && NoShaper(before, current) && Closed(before)
    requires GoodWorld(now, before, OwnedSections(before) + SetOf(current))
    ensures r.staged == r.committed && RestoredTo(r.committed, before, now.staged)
  {
    hide RestoredTo, NoSqm, SqmPart, NoShaper, GoodWorld, Closed;
    UndoneSqm(r, before, now, current, shown, landed);
    PartsEqual(r.staged, r.committed);
    NoSqmRestored(r.committed, before, now.staged, current);
  }
}
