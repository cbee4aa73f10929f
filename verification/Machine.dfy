/** The machine that drives `uci`, one command at a time, over a store it changes in place. Each method is proved
    against the function of the store that the theorems are about. */
module Machine {
  import opened Text
  import opened Uci
  import opened Snapshot
  import opened Rollback

  class ProvisionMachine {
    const env: Env
    const port: nat
    var staged: Store
    var committed: Store
    var tick: nat
    var marker: Option<string>
    var committedGated: Option<string>

    constructor (env: Env, port: nat, st: Store)
      ensures this.env == env && this.port == port && Router() == World(st, st, 0)
      ensures marker == None && committedGated == None
    {
      this.env, this.port := env, port;
      staged, committed, tick := st, st, 0;
      marker, committedGated := None, None;
    }

    function Router(): World
      reads this
    {
      World(staged, committed, tick)
    }

    // --- single commands -------------------------------------------------

    /** A command that changes no layer: a reload, a restart, a status. */
    method Other() returns (ok: bool)
      modifies this`tick
      ensures Router() == Pass(old(Router())) && ok == !env.fails(old(tick))
    {
      ok := !env.fails(tick);
      tick := tick + 1;
    }

    method Uci(c: Cmd) returns (ok: bool)
      modifies this`tick, this`staged
      ensures (Router(), ok) == Run(env, old(Router()), c)
    {
      ok := Other();
      if ok {
        match Exec(staged, c) {
          case None => ok := false;
          case Some(st) => staged := st;
        }
      }
    }

    method UciCommit(cfg: string) returns (ok: bool)
      modifies this`tick, this`committed
      ensures (Router(), ok) == Commit(env, old(Router()), cfg)
    {
      ok := Other();
      if ok {
        committed := PutConfig(committed, staged, cfg);
      }
    }

    // --- apply -----------------------------------------------------------

    method RevertOwned()
      modifies this`tick, this`staged
      ensures Router() == RevertFrom(env, old(Router()), 0)
    {
      hide PutConfig;
      for i := 0 to |OWNED_CONFIGS|
        invariant RevertFrom(env, Router(), i) == RevertFrom(env, old(Router()), 0)
        invariant committed == old(committed)
      {
        var ok := Other();
        if ok {
          staged := PutConfig(staged, committed, OWNED_CONFIGS[i]);
        }
      }
    }

    method ApplyWireless(batch: seq<Cmd>, radios: seq<string>) returns (ok: bool)
      modifies this`tick, this`staged, this`committed
      ensures (Router(), ok) == ApplyBatch(env, old(Router()), batch, radios)
    {
      hide Run, RevertFrom, CommitAndReload;
      for i := 0 to |batch|
        invariant ApplyCmds(env, Router(), batch[i..]) == ApplyCmds(env, old(Router()), batch)
      {
        assert batch[i..][1..] == batch[i + 1..];
        ok := Uci(batch[i]);
        if !ok && !batch[i].Delete? {
          RevertOwned();
          return false;
        }
      }
      ok := CommitAndReloadMulti(radios);
    }

    method ReloadRadioResilient(radio: string) returns (ok: bool)
      modifies this`tick
      ensures (Router(), ok) == ReloadRadio(env, old(Router()))
    {
      ok := Other();
      if ok { return; }
      ok := Other();
      if ok { return; }
      ok := Other();
    }

    method ReloadEach(radios: seq<string>) returns (ok: bool)
      modifies this`tick
      ensures (Router(), ok) == ReloadRadios(env, old(Router()), radios)
    {
      hide ReloadRadio;
      ok := true;
      for i := 0 to |radios|
        invariant var (w, rest) := ReloadRadios(env, Router(), radios[i..]);
                  ReloadRadios(env, old(Router()), radios) == (w, ok && rest)
      {
        assert radios[i..][1..] == radios[i + 1..];
        var one := ReloadRadioResilient(radios[i]);
        ok := ok && one;
      }
    }

    method RecoverDarkRadios(radios: seq<string>) returns (ok: bool)
      modifies this`tick
      ensures (Router(), ok) == RecoverDark(env, old(Router()), radios)
    {
      var down := DownRadios(env, tick, radios);
      var read := Other();
      if !read || down == [] {
        return true;
      }
      for i := 0 to |down|
        invariant Router() == old(Router()).(tick := old(tick) + 1 + i)
      {
        var _ := Other();
      }
      var still := DownRadios(env, tick, radios);
      read := Other();
      return !read || still == [];
    }

    /** The whole reload sequence and the liveness check run even when a step fails. */
    method ReloadAll(radios: seq<string>) returns (ok: bool)
      modifies this`tick
      ensures (Router(), ok) == Reload(env, old(Router()), radios)
    {
      var net := Other();
      var fw := Other();
      var up := ReloadEach(radios);
      var dns := Other();
      var _ := Other();
      var lit := RecoverDarkRadios(radios);
      ok := net && fw && up && dns && lit;
    }

    method CommitAndReloadMulti(radios: seq<string>) returns (ok: bool)
      modifies this`tick, this`staged, this`committed
      ensures (Router(), ok) == CommitAndReload(env, old(Router()), radios)
    {
      hide Commit, RevertFrom, Reload;
      for i := 0 to |OWNED_CONFIGS|
        invariant CommitFrom(env, Router(), i) == CommitFrom(env, old(Router()), 0)
      {
        ok := UciCommit(OWNED_CONFIGS[i]);
        if !ok && OWNED_CONFIGS[i] != "sqm" {
          RevertOwned();
          return false;
        }
      }
      ok := ReloadAll(radios);
    }

    // --- rollback --------------------------------------------------------

    method RollBackTo(snap: Snap, current: seq<Section>, radios: seq<string>) returns (ok: bool)
      modifies this`tick, this`staged, this`committed
      ensures (Router(), ok) == RollbackTo(env, old(Router()), snap, current, radios)
    {
      hide Run, CommitAndReload;
      DeleteAdded(snap, current, SetCmds(snap.prior) + ListCmds(snap.lists));
      RestoreScalars(snap.prior, ListCmds(snap.lists));
      RestoreLists(snap.lists);
      assert AddedDeletes(current, snap.existing) + (SetCmds(snap.prior) + ListCmds(snap.lists))
          == RollbackCmds(snap, current);
      ok := CommitAndReloadMulti(radios);
    }

    method DeleteAdded(snap: Snap, current: seq<Section>, ghost rest: seq<Cmd>)
      modifies this`tick, this`staged
      ensures BestEffort(env, Router(), rest)
           == BestEffort(env, old(Router()), AddedDeletes(current, snap.existing) + rest)
      ensures committed == old(committed)
    {
      hide Run;
      for i := 0 to |current|
        invariant BestEffort(env, Router(), AddedDeletes(current[i..], snap.existing) + rest)
               == BestEffort(env, old(Router()), AddedDeletes(current, snap.existing) + rest)
        invariant committed == old(committed)
      {
        assert current[i..][1..] == current[i + 1..];
        ghost var tail := AddedDeletes(current[i + 1..], snap.existing);
        if current[i] !in snap.existing {
          StepBestEffort(env, Router(), Delete(Decl(current[i])), tail, rest);
          var _ := Uci(Delete(Decl(current[i])));
        } else {
          assert [] + tail == tail;
        }
      }
      assert AddedDeletes(current[|current|..], snap.existing) + rest == rest;
    }

    method RestoreScalars(prior: Sorted<string>, ghost rest: seq<Cmd>)
      modifies this`tick, this`staged
      ensures BestEffort(env, Router(), rest) == BestEffort(env, old(Router()), SetCmds(prior) + rest)
      ensures committed == old(committed)
    {
      hide Run;
      for i := 0 to |prior|
        invariant BestEffort(env, Router(), SetCmds(prior[i..]) + rest)
               == BestEffort(env, old(Router()), SetCmds(prior) + rest)
        invariant committed == old(committed)
      {
        assert prior[i..][1..] == prior[i + 1..];
        StepBestEffort(env, Router(), Set(prior[i].0, prior[i].1), SetCmds(prior[i + 1..]), rest);
        var _ := Uci(Set(prior[i].0, prior[i].1));
      }
      assert SetCmds(prior[|prior|..]) + rest == rest;
    }

    method AppendAll(k: Key, es: seq<string>, ghost rest: seq<Cmd>)
      modifies this`tick, this`staged
      ensures BestEffort(env, Router(), rest) == BestEffort(env, old(Router()), AddCmds(k, es) + rest)
      ensures committed == old(committed)
    {
      hide Run;
      for i := 0 to |es|
        invariant BestEffort(env, Router(), AddCmds(k, es[i..]) + rest)
               == BestEffort(env, old(Router()), AddCmds(k, es) + rest)
        invariant committed == old(committed)
      {
        assert es[i..][1..] == es[i + 1..];
        StepBestEffort(env, Router(), AddList(k, es[i]), AddCmds(k, es[i + 1..]), rest);
        var _ := Uci(AddList(k, es[i]));
      }
      assert AddCmds(k, es[|es|..]) + rest == rest;
    }

    method RestoreLists(lists: Sorted<seq<string>>)
      modifies this`tick, this`staged
      ensures Router() == BestEffort(env, old(Router()), ListCmds(lists))
      ensures committed == old(committed)
    {
      hide Run;
      for i := 0 to |lists|
        invariant BestEffort(env, Router(), ListCmds(lists[i..])) == BestEffort(env, old(Router()), ListCmds(lists))
        invariant committed == old(committed)
      {
        assert lists[i..][1..] == lists[i + 1..];
        var (k, es) := lists[i];
        ghost var rest := ListCmds(lists[i + 1..]);
        assert ListCmds(lists[i..]) == [Delete(k)] + AddCmds(k, es) + rest;
        StepBestEffort(env, Router(), Delete(k), AddCmds(k, es), rest);
        var _ := Uci(Delete(k));
        AppendAll(k, es, rest);
      }
    }

    // --- snapshot --------------------------------------------------------

    /** Read one `uci show` text into the snapshot, line by line. */
    static method ReadShow(snap0: Snap, text: string) returns (snap: Snap)
      ensures snap == ParseShow(snap0, text)
    {
      hide Lines, ParseKey, ParseUciList, Unquote, Insert, EndsWith, IsOwnedText;
      var lines := Lines(text);
      snap := snap0;
      for i := 0 to |lines|
        invariant ParseShowLines(snap, lines[i..]) == ParseShowLines(snap0, lines)
      {
        assert lines[i..][1..] == lines[i + 1..];
        ghost var before := snap;
        var line := Trim(lines[i]);
        if line != "" {
          match SplitOnce(line, '=') {
            case None =>
            case Some((key, val)) =>
              if IsOwnedText(key) {
                match ParseKey(key) {
                  case None =>
                  case Some(k) =>
                    if k.Decl? && k.sec !in snap.existing {
                      snap := snap.(existing := snap.existing + [k.sec]);
                    }
                    if EndsWith(key, "." + MACLIST) {
                      snap := snap.(lists := Insert(snap.lists, k, ParseUciList(val)));
                    } else {
                      snap := snap.(prior := Insert(snap.prior, k, Unquote(val)));
                    }
                }
              }
          }
        }
        assert snap == ParseShowLine(before, lines[i]);
      }
    }

    method SnapshotWireless() returns (r: Option<Snap>)
      modifies this`tick
      ensures (Router(), r) == TakeSnapshot(env, old(Router()))
    {
      hide ParseShow, ShowText;
      var snap := EMPTY;
      for i := 0 to |OWNED_CONFIGS|
        invariant staged == old(staged) && committed == old(committed)
        invariant TakeFrom(env, Router(), i, snap) == TakeSnapshot(env, old(Router()))
      {
        var text := ShowText(env, staged, OWNED_CONFIGS[i]);
        var ok := Other();
        if ok {
          snap := ReadShow(snap, text);
        } else if OWNED_CONFIGS[i] != "sqm" {
          return None;
        }
      }
      r := Some(snap);
    }
  }

  lemma StepBestEffort(e: Env, w: World, c: Cmd, mid: seq<Cmd>, rest: seq<Cmd>)
    ensures BestEffort(e, w, [c] + mid + rest) == BestEffort(e, Run(e, w, c).0, mid + rest)
  {
    assert ([c] + mid + rest)[1..] == mid + rest;
  }
}
