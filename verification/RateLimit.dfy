/** The bounded token-bucket limiter: it answers as an unbounded one would, and admits no more than its rate. Tokens
    and times are reals. */
module RateLimit {

  datatype Config = Config(capacity: real, refill: real, maxKeys: nat)

  predicate ConfigOk(c: Config) {
    c.capacity >= 0.0 && c.refill >= 0.0
  }

  datatype Bucket = Bucket(tokens: real, last: real)

  type Buckets = map<string, Bucket>

  datatype Call = Call(ip: string, now: real)

  datatype Verdict = Admitted | OverRate | TurnedAway

  /** What a bucket gains between two times. */
  function Gain(c: Config, t: real, u: real): real { (u - t) * c.refill }

  function Min(a: real, b: real): real { if a < b then a else b }

  /** The tokens of a bucket at a later time; a clock that went back refills nothing. */
  function Refilled(c: Config, b: Bucket, now: real): real {
    Min(b.tokens + (if now > b.last then Gain(c, b.last, now) else 0.0), c.capacity)
  }

  /** Drop the buckets that are full again. */
  function Prune(c: Config, m: Buckets, now: real): Buckets {
    map ip | ip in m && Refilled(c, m[ip], now) < c.capacity :: m[ip]
  }

  function Pruned(c: Config, m: Buckets, now: real): Buckets {
    if |m| >= c.maxKeys then Prune(c, m, now) else m
  }

  /** Refill the bucket of `ip`, and take one token if there is one. */
  function Charge(c: Config, m: Buckets, ip: string, now: real): (Buckets, Verdict) {
    var b := if ip in m then m[ip] else Bucket(c.capacity, now);
    var tokens := Refilled(c, b, now);
    if tokens >= 1.0 then (m[ip := Bucket(tokens - 1.0, now)], Admitted) else (m[ip := Bucket(tokens, now)], OverRate)
  }

  /** A new source is turned away when pruning left no room for it. */
  function Check(c: Config, m: Buckets, k: Call): (Buckets, Verdict) {
    var m1 := Pruned(c, m, k.now);
    if k.ip !in m1 && |m1| >= c.maxKeys then (m1, TurnedAway) else Charge(c, m1, k.ip, k.now)
  }

  function CheckAll(c: Config, m: Buckets, ks: seq<Call>): (r: (Buckets, seq<Verdict>))
    ensures |r.1| == |ks|
  {
    if ks == [] then (m, [])
    else
      var (m1, vs) := CheckAll(c, m, ks[..|ks| - 1]);
      var (m2, v) := Check(c, m1, ks[|ks| - 1]);
      (m2, vs + [v])
  }

  class RateLimiter {
    const cfg: Config
    var buckets: Buckets

    constructor (cfg: Config)
      ensures this.cfg == cfg && buckets == map[]
    {
      this.cfg, buckets := cfg, map[];
    }

    method CheckAt(ip: string, now: real) returns (ok: bool)
      modifies this
      ensures buckets == Check(cfg, old(buckets), Call(ip, now)).0
      ensures ok <==> Check(cfg, old(buckets), Call(ip, now)).1 == Admitted
    {
      if |buckets| >= cfg.maxKeys {
        buckets := Prune(cfg, buckets, now);
      }
      if ip !in buckets && |buckets| >= cfg.maxKeys {
        return false;
      }
      var b := if ip in buckets then buckets[ip] else Bucket(cfg.capacity, now);
      var tokens := Refilled(cfg, b, now);
      ok := tokens >= 1.0;
      buckets := buckets[ip := Bucket(if ok then tokens - 1.0 else tokens, now)];
    }
  }

  // --- the map stays bounded -----------------------------------------------

  lemma PruneSmaller(c: Config, m: Buckets, now: real)
    ensures |Prune(c, m, now)| <= |m|
  {
    assert Prune(c, m, now).Keys <= m.Keys;
    SubsetSize(Prune(c, m, now).Keys, m.Keys);
  }

  lemma SubsetSize(a: set<string>, b: set<string>)
    requires a <= b
    ensures |a| <= |b|
  {
    assert b == a + (b - a);
  }

  lemma CheckBounded(c: Config, m: Buckets, k: Call)
    requires |m| <= c.maxKeys
    ensures |Check(c, m, k).0| <= c.maxKeys
  {
    PruneSmaller(c, m, k.now);
  }

  /** Whatever the calls, and whatever the times, the map never holds more than `maxKeys` sources. */
  lemma {:induction false} MapBounded(c: Config, m: Buckets, ks: seq<Call>)
    requires |m| <= c.maxKeys
    ensures |CheckAll(c, m, ks).0| <= c.maxKeys
  {
    hide Check;
    if ks != [] {
      MapBounded(c, m, ks[..|ks| - 1]);
      CheckBounded(c, CheckAll(c, m, ks[..|ks| - 1]).0, ks[|ks| - 1]);
    }
  }

  // --- levels --------------------------------------------------------------

  /** The tokens `ip` would find at `now`: a source without a bucket would find a full one. */
  function Level(c: Config, m: Buckets, ip: string, now: real): real {
    if ip in m then Refilled(c, m[ip], now) else c.capacity
  }

  /** No bucket is over-full, in debt, or from the future. */
  predicate Sound(c: Config, m: Buckets, now: real) {
    forall ip :: ip in m ==> 0.0 <= m[ip].tokens <= c.capacity && m[ip].last <= now
  }

  lemma GainNonNeg(c: Config, t: real, u: real)
    requires c.refill >= 0.0 && t <= u
    ensures Gain(c, t, u) >= 0.0
  {
    var a, b := u - t, c.refill;
    assert a * b >= 0.0;
  }

  lemma GainAdds(c: Config, t: real, u: real, v: real)
    ensures Gain(c, t, u) + Gain(c, u, v) == Gain(c, t, v)
  {
  }

  lemma RefillSplits(c: Config, b: Bucket, t: real, u: real)
    requires ConfigOk(c) && b.last <= t <= u && b.tokens <= c.capacity
    ensures Refilled(c, b, t) <= Refilled(c, b, u) <= Refilled(c, b, t) + Gain(c, t, u)
  {
    hide Gain;
    GainNonNeg(c, b.last, t);
    GainNonNeg(c, t, u);
    GainAdds(c, b.last, t, u);
    GainAdds(c, t, t, t);
  }

  lemma LevelGrows(c: Config, m: Buckets, ip: string, t: real, u: real)
    requires ConfigOk(c) && Sound(c, m, t) && t <= u
    ensures Level(c, m, ip, t) <= Level(c, m, ip, u) <= Level(c, m, ip, t) + Gain(c, t, u)
    ensures 0.0 <= Level(c, m, ip, t) <= c.capacity
  {
    hide Refilled, Gain;
    GainNonNeg(c, t, u);
    if ip in m {
      RefillSplits(c, m[ip], t, u);
      RefillRange(c, m[ip], t);
    }
  }

  lemma RefillRange(c: Config, b: Bucket, t: real)
    requires ConfigOk(c) && 0.0 <= b.tokens <= c.capacity && b.last <= t
    ensures 0.0 <= Refilled(c, b, t) <= c.capacity
  {
    hide Gain;
    GainNonNeg(c, b.last, t);
  }

  lemma PruneLevels(c: Config, m: Buckets, now: real, ip: string, u: real)
    requires ConfigOk(c) && Sound(c, m, now) && now <= u
    ensures Level(c, Prune(c, m, now), ip, u) == Level(c, m, ip, u)
    ensures Sound(c, Prune(c, m, now), now)
  {
    hide Refilled;
    if ip in m && ip !in Prune(c, m, now) {
      RefillSplits(c, m[ip], now, u);
      RefillRange(c, m[ip], u);
    }
  }

  lemma PrunedLevels(c: Config, m: Buckets, now: real, ip: string, u: real)
    requires ConfigOk(c) && Sound(c, m, now) && now <= u
    ensures Level(c, Pruned(c, m, now), ip, u) == Level(c, m, ip, u)
    ensures Sound(c, Pruned(c, m, now), now)
  {
    hide Level, Sound, Prune;
    PruneLevels(c, m, now, ip, u);
  }

  /** What a charge does: the answer and the new bucket depend on the level alone. */
  lemma ChargeIs(c: Config, m: Buckets, ip: string, now: real)
    requires ConfigOk(c) && Sound(c, m, now)
    ensures var (m1, v) := Charge(c, m, ip, now);
            var l := Level(c, m, ip, now);
            && v == (if l >= 1.0 then Admitted else OverRate)
            && m1 == m[ip := Bucket(if l >= 1.0 then l - 1.0 else l, now)] && Sound(c, m1, now)
  {
    LevelGrows(c, m, ip, now, now);
  }

  lemma FreshLevel(c: Config, m: Buckets, ip: string, now: real, tokens: real, jp: string, u: real)
    requires ConfigOk(c) && 0.0 <= tokens <= c.capacity && now <= u
    ensures Level(c, m[ip := Bucket(tokens, now)], ip, now) == tokens
    ensures jp != ip ==> Level(c, m[ip := Bucket(tokens, now)], jp, u) == Level(c, m, jp, u)
  {
  }

  // --- the bounded limiter is the unbounded one ----------------------------

  /** From `now` on the two maps hold the same level for every source. */
  ghost predicate SameLevels(c: Config, a: Buckets, b: Buckets, now: real) {
    forall ip, u :: now <= u ==> Level(c, a, ip, u) == Level(c, b, ip, u)
  }

  /** An unbounded limiter, run on the calls the bounded one did not turn away. */
  function ChargeKept(c: Config, m: Buckets, ks: seq<Call>, vs: seq<Verdict>): (r: (Buckets, seq<Verdict>))
    requires |ks| == |vs|
    ensures |r.1| == |ks|
  {
    if ks == [] then (m, [])
    else
      var n := |ks| - 1;
      var (m1, ws) := ChargeKept(c, m, ks[..n], vs[..n]);
      if vs[n] == TurnedAway then (m1, ws + [TurnedAway])
      else var (m2, w) := Charge(c, m1, ks[n].ip, ks[n].now); (m2, ws + [w])
  }

  predicate Ordered(ks: seq<Call>, from: real) {
    (ks != [] ==> from <= ks[0].now) && forall i, j :: 0 <= i < j < |ks| ==> ks[i].now <= ks[j].now
  }

  function LastTime(ks: seq<Call>, from: real): real {
    if ks == [] then from else ks[|ks| - 1].now
  }

  lemma SoundLater(c: Config, m: Buckets, t: real, u: real)
    requires Sound(c, m, t) && t <= u
    ensures Sound(c, m, u)
  {
  }

  lemma CheckSound(c: Config, m: Buckets, k: Call)
    requires ConfigOk(c) && Sound(c, m, k.now)
    ensures Sound(c, Check(c, m, k).0, k.now)
  {
    hide Level, Sound, Pruned, Charge;
    PrunedLevels(c, m, k.now, k.ip, k.now);
    ChargeIs(c, Pruned(c, m, k.now), k.ip, k.now);
  }

  lemma ChargeSame(c: Config, a: Buckets, b: Buckets, ip: string, now: real)
    requires ConfigOk(c) && Sound(c, a, now) && Sound(c, b, now) && SameLevels(c, a, b, now)
    ensures Charge(c, a, ip, now).1 == Charge(c, b, ip, now).1 != TurnedAway
    ensures SameLevels(c, Charge(c, a, ip, now).0, Charge(c, b, ip, now).0, now)
    ensures Sound(c, Charge(c, b, ip, now).0, now)
  {
    hide Level, Sound, Charge;
    ChargeIs(c, a, ip, now);
    ChargeIs(c, b, ip, now);
    LevelGrows(c, a, ip, now, now);
    var l := Level(c, a, ip, now);
    assert l == Level(c, b, ip, now);
    var bucket := Bucket(if l >= 1.0 then l - 1.0 else l, now);
    var a1, b1 := a[ip := bucket], b[ip := bucket];
    forall jp, u | now <= u ensures Level(c, a1, jp, u) == Level(c, b1, jp, u) {
      if jp == ip {
        LevelOfSame(c, a1, b1, ip, u);
      } else {
        FreshLevel(c, a, ip, now, bucket.tokens, jp, u);
        FreshLevel(c, b, ip, now, bucket.tokens, jp, u);
        assert Level(c, a, jp, u) == Level(c, b, jp, u);
      }
    }
  }

  lemma LevelOfSame(c: Config, a: Buckets, b: Buckets, ip: string, u: real)
    requires ip in a && ip in b && a[ip] == b[ip]
    ensures Level(c, a, ip, u) == Level(c, b, ip, u)
  {
  }

  lemma CheckSame(c: Config, a: Buckets, b: Buckets, k: Call)
    requires ConfigOk(c) && Sound(c, a, k.now) && Sound(c, b, k.now) && SameLevels(c, a, b, k.now)
    ensures var (a1, v) := Check(c, a, k);
            if v == TurnedAway then SameLevels(c, a1, b, k.now)
            else v == Charge(c, b, k.ip, k.now).1 && SameLevels(c, a1, Charge(c, b, k.ip, k.now).0, k.now)
  {
    hide Level, Sound, Pruned, Charge;
    var a0 := Pruned(c, a, k.now);
    forall ip, u | k.now <= u ensures Level(c, a0, ip, u) == Level(c, b, ip, u) {
      PrunedLevels(c, a, k.now, ip, u);
      assert Level(c, a, ip, u) == Level(c, b, ip, u);
    }
    PrunedLevels(c, a, k.now, k.ip, k.now);
    ChargeSame(c, a0, b, k.ip, k.now);
  }

  /** With time that does not go back, pruning is invisible: the bounded limiter answers every call as an unbounded
      one does that is only shown the calls not turned away. */
  lemma {:induction false} BoundedIsUnbounded(c: Config, ks: seq<Call>, from: real)
    requires ConfigOk(c) && Ordered(ks, from)
    ensures var (a, vs) := CheckAll(c, map[], ks);
            var (b, ws) := ChargeKept(c, map[], ks, vs);
            && ws == vs && SameLevels(c, a, b, LastTime(ks, from))
            && Sound(c, a, LastTime(ks, from)) && Sound(c, b, LastTime(ks, from))
  {
    hide Check, Charge, Level;
    if ks != [] {
      var n := |ks| - 1;
      var init, k := ks[..n], ks[n];
      BoundedIsUnbounded(c, init, from);
      var (a, vs) := CheckAll(c, map[], init);
      var b := ChargeKept(c, map[], init, vs).0;
      assert CheckAll(c, map[], ks).1[..n] == vs;
      SoundLater(c, a, LastTime(init, from), k.now);
      SoundLater(c, b, LastTime(init, from), k.now);
      CheckSame(c, a, b, k);
      CheckSound(c, a, k);
      ChargeSame(c, b, b, k.ip, k.now);
    }
  }

  // --- the rate ------------------------------------------------------------

  function Admissions(ks: seq<Call>, vs: seq<Verdict>, ip: string): nat
    requires |ks| == |vs|
  {
    if ks == [] then 0
    else
      var n := |ks| - 1;
      Admissions(ks[..n], vs[..n], ip) + (if ks[n].ip == ip && vs[n] == Admitted then 1 else 0)
  }

  /** A call costs its source one token if admitted, and costs no other source anything. */
  lemma CheckCosts(c: Config, m: Buckets, k: Call, ip: string)
    requires ConfigOk(c) && Sound(c, m, k.now)
    ensures var (m1, v) := Check(c, m, k);
            Level(c, m1, ip, k.now) == Level(c, m, ip, k.now) - (if k.ip == ip && v == Admitted then 1.0 else 0.0)
  {
    hide Level, Sound, Pruned, Charge;
    var m0 := Pruned(c, m, k.now);
    PrunedLevels(c, m, k.now, ip, k.now);
    PrunedLevels(c, m, k.now, k.ip, k.now);
    ChargeIs(c, m0, k.ip, k.now);
    LevelGrows(c, m0, k.ip, k.now, k.now);
    var l := Level(c, m0, k.ip, k.now);
    FreshLevel(c, m0, k.ip, k.now, if l >= 1.0 then l - 1.0 else l, ip, k.now);
  }

  lemma {:induction false} TokensConserved(c: Config, m: Buckets, ks: seq<Call>, from: real, ip: string)
    requires ConfigOk(c) && Sound(c, m, from) && Ordered(ks, from)
    ensures var (m1, vs) := CheckAll(c, m, ks);
            var end := LastTime(ks, from);
            && Sound(c, m1, end)
            && Level(c, m1, ip, end) + (Admissions(ks, vs, ip) as real) <= Level(c, m, ip, from) + Gain(c, from, end)
  {
    hide Check, Level, Sound, Gain;
    if ks != [] {
      var n := |ks| - 1;
      var init, k := ks[..n], ks[n];
      TokensConserved(c, m, init, from, ip);
      var (m0, vs) := CheckAll(c, m, init);
      assert CheckAll(c, m, ks).1[..n] == vs;
      var mid := LastTime(init, from);
      LevelGrows(c, m0, ip, mid, k.now);
      SoundLater(c, m0, mid, k.now);
      CheckCosts(c, m0, k, ip);
      CheckSound(c, m0, k);
      GainAdds(c, from, mid, k.now);
    } else {
      GainAdds(c, from, from, from);
    }
  }

  lemma WindowBound(c: Config, before: seq<Call>, window: seq<Call>, from: real, ip: string)
    requires ConfigOk(c) && Ordered(before, from) && window != [] && Ordered(window, LastTime(before, from))
    ensures var m := CheckAll(c, map[], before).0;
            (Admissions(window, CheckAll(c, m, window).1, ip) as real)
            <= c.capacity + Gain(c, window[0].now, window[|window| - 1].now)
  {
    hide Gain, Check, Level, Sound, CheckAll, ChargeKept, SameLevels, Admissions;
    BoundedIsUnbounded(c, before, from);
    var m := CheckAll(c, map[], before).0;
    var start, end := window[0].now, window[|window| - 1].now;
    SoundLater(c, m, LastTime(before, from), start);
    TokensConserved(c, m, window, start, ip);
    LevelGrows(c, m, ip, start, start);
    LevelGrows(c, CheckAll(c, m, window).0, ip, end, end);
  }

  /** Over any window of calls, after any history, each source is admitted at most `capacity` times plus the refill of
      the window. */
  lemma RateHolds(c: Config, before: seq<Call>, window: seq<Call>, from: real, ip: string)
    requires ConfigOk(c) && Ordered(before, from) && window != [] && Ordered(window, LastTime(before, from))
    ensures var m := CheckAll(c, map[], before).0;
            (Admissions(window, CheckAll(c, m, window).1, ip) as real)
            <= c.capacity + (window[|window| - 1].now - window[0].now) * c.refill
  {
    hide Gain, CheckAll, Admissions;
    WindowBound(c, before, window, from, ip);
    GainIs(c, window[0].now, window[|window| - 1].now);
  }

  lemma GainIs(c: Config, t: real, u: real)
    ensures Gain(c, t, u) == (u - t) * c.refill
  {
  }

  // --- and no less ---------------------------------------------------------

  /** A bucket refills exactly, or is full. */
  lemma RefillExact(c: Config, b: Bucket, t: real, u: real)
    requires ConfigOk(c) && b.last <= t <= u && b.tokens <= c.capacity
    ensures Refilled(c, b, u) == c.capacity || Refilled(c, b, u) == Refilled(c, b, t) + Gain(c, t, u)
  {
    hide Gain;
    GainNonNeg(c, b.last, t);
    GainNonNeg(c, t, u);
    GainAdds(c, b.last, t, u);
    GainAdds(c, t, t, t);
  }

  lemma LevelExact(c: Config, m: Buckets, ip: string, t: real, u: real)
    requires ConfigOk(c) && Sound(c, m, t) && t <= u
    ensures Level(c, m, ip, u) == c.capacity || Level(c, m, ip, u) == Level(c, m, ip, t) + Gain(c, t, u)
  {
    hide Refilled, Gain;
    if ip in m {
      RefillExact(c, m[ip], t, u);
    }
  }

  /** The admissions of `ip` among the calls from the i-th on. */
  function AdmittedFrom(ks: seq<Call>, vs: seq<Verdict>, i: nat, ip: string): nat
    requires i <= |ks| == |vs|
  {
    Admissions(ks[i..], vs[i..], ip)
  }

  lemma AdmittedSnoc(ks: seq<Call>, vs: seq<Verdict>, i: nat, ip: string)
    requires i < |ks| == |vs|
    ensures var n := |ks| - 1;
            AdmittedFrom(ks, vs, i, ip)
            == AdmittedFrom(ks[..n], vs[..n], i, ip) + (if ks[n].ip == ip && vs[n] == Admitted then 1 else 0)
  {
    var n := |ks| - 1;
    assert ks[i..][..n - i] == ks[..n][i..] && vs[i..][..n - i] == vs[..n][i..];
  }

  lemma AdmittedNone(ks: seq<Call>, vs: seq<Verdict>, ip: string)
    requires |ks| == |vs|
    ensures AdmittedFrom(ks, vs, |ks|, ip) == 0
  {
  }

  /** From call `i` on, a call of `ip`, the level at `u` is a full bucket and its refill less the admissions: the bucket
      was full then and never since. */
  ghost predicate FullSince(c: Config, ks: seq<Call>, vs: seq<Verdict>, i: nat, ip: string, level: real, u: real) {
    && i < |ks| == |vs| && ks[i].ip == ip
    && level == c.capacity + Gain(c, ks[i].now, u) - (AdmittedFrom(ks, vs, i, ip) as real)
  }

  ghost predicate Accounted(c: Config, ks: seq<Call>, vs: seq<Verdict>, ip: string, level: real, u: real) {
    level == c.capacity || exists i: nat :: FullSince(c, ks, vs, i, ip, level, u)
  }

  lemma AccountedLater(c: Config, ks: seq<Call>, vs: seq<Verdict>, ip: string, l: real, t: real, l1: real, u: real)
    requires Accounted(c, ks, vs, ip, l, t) && (l1 == c.capacity || l1 == l + Gain(c, t, u))
    requires l == c.capacity ==> l1 == c.capacity
    ensures Accounted(c, ks, vs, ip, l1, u)
  {
    if l1 != c.capacity {
      var i: nat :| FullSince(c, ks, vs, i, ip, l, t);
      GainAdds(c, ks[i].now, t, u);
      assert FullSince(c, ks, vs, i, ip, l1, u);
    }
  }

  lemma AccountedCall(c: Config, ks: seq<Call>, vs: seq<Verdict>, ip: string, l: real, l1: real)
    requires |ks| == |vs| > 0
    requires var n := |ks| - 1;
             && Accounted(c, ks[..n], vs[..n], ip, l, ks[n].now)
             && l1 == l - (if ks[n].ip == ip && vs[n] == Admitted then 1.0 else 0.0)
    ensures Accounted(c, ks, vs, ip, l1, ks[|ks| - 1].now)
  {
    var n := |ks| - 1;
    if l == c.capacity {
      if ks[n].ip == ip {
        GainAdds(c, ks[n].now, ks[n].now, ks[n].now);
        AdmittedSnoc(ks, vs, n, ip);
        AdmittedNone(ks[..n], vs[..n], ip);
        assert FullSince(c, ks, vs, n, ip, l1, ks[n].now);
      }
    } else {
      var i: nat :| FullSince(c, ks[..n], vs[..n], i, ip, l, ks[n].now);
      AdmittedSnoc(ks, vs, i, ip);
      assert FullSince(c, ks, vs, i, ip, l1, ks[n].now);
    }
  }

  /** Every level is accounted for by the calls and their verdicts. */
  lemma {:induction false} LevelsAccounted(c: Config, ks: seq<Call>, from: real, ip: string)
    requires ConfigOk(c) && Ordered(ks, from)
    ensures var (m, vs) := CheckAll(c, map[], ks);
            var end := LastTime(ks, from);
            Sound(c, m, end) && Accounted(c, ks, vs, ip, Level(c, m, ip, end), end)
  {
    hide Check, Level, Sound, Gain, Accounted;
    if ks == [] {
      NothingSpent(c, from, ip);
    } else {
      var n := |ks| - 1;
      var init, k := ks[..n], ks[n];
      LevelsAccounted(c, init, from, ip);
      var (m0, heads) := CheckAll(c, map[], init);
      var vs := CheckAll(c, map[], ks).1;
      assert vs[..n] == heads;
      var mid := LastTime(init, from);
      LevelExact(c, m0, ip, mid, k.now);
      LevelGrows(c, m0, ip, mid, k.now);
      SoundLater(c, m0, mid, k.now);
      LevelGrows(c, m0, ip, k.now, k.now);
      AccountedLater(c, init, heads, ip, Level(c, m0, ip, mid), mid, Level(c, m0, ip, k.now), k.now);
      CheckCosts(c, m0, k, ip);
      CheckSound(c, m0, k);
      AccountedCall(c, ks, vs, ip, Level(c, m0, ip, k.now), Level(c, CheckAll(c, map[], ks).0, ip, k.now));
    }
  }

  lemma NothingSpent(c: Config, from: real, ip: string)
    ensures Sound(c, map[], from) && Accounted(c, [], [], ip, Level(c, map[], ip, from), from)
  {
  }

  /** A verdict read off the level before the call. */
  lemma VerdictIs(c: Config, m: Buckets, k: Call)
    requires ConfigOk(c) && Sound(c, m, k.now)
    ensures Check(c, m, k).1 == OverRate ==> Level(c, m, k.ip, k.now) < 1.0
    ensures Check(c, m, k).1 == Admitted ==> Level(c, m, k.ip, k.now) >= 1.0
  {
    hide Level, Sound, Pruned, Charge;
    PrunedLevels(c, m, k.now, k.ip, k.now);
    ChargeIs(c, Pruned(c, m, k.now), k.ip, k.now);
  }

  lemma {:induction false} CallsPrefix(c: Config, ks: seq<Call>, n: nat)
    requires n <= |ks|
    ensures CheckAll(c, map[], ks).1[..n] == CheckAll(c, map[], ks[..n]).1
  {
    hide Check;
    if n < |ks| {
      CallsPrefix(c, ks[..|ks| - 1], n);
      assert ks[..|ks| - 1][..n] == ks[..n];
      assert CheckAll(c, map[], ks).1[..n] == CheckAll(c, map[], ks[..|ks| - 1]).1[..n];
    } else {
      assert ks[..n] == ks;
    }
  }

  /** Since call `i` the admissions of `ip` and one more exceed the capacity and the refill until `u`. */
  predicate UsedUp(c: Config, ks: seq<Call>, vs: seq<Verdict>, i: nat, ip: string, u: real)
    requires i < |ks| == |vs|
  {
    ks[i].ip == ip && (AdmittedFrom(ks, vs, i, ip) as real) + 1.0 > c.capacity + Gain(c, ks[i].now, u)
  }

  /** The source was over its rate from some call on, or the capacity is below one. */
  lemma RateUsedUp(c: Config, ks: seq<Call>, from: real, k: Call)
    requires ConfigOk(c) && Ordered(ks + [k], from)
    requires Check(c, CheckAll(c, map[], ks).0, k).1 == OverRate
    ensures var vs := CheckAll(c, map[], ks).1;
            c.capacity < 1.0 || exists i: nat :: i < |ks| && UsedUp(c, ks, vs, i, k.ip, k.now)
  {
    hide Check, Level, Sound, Accounted, CheckAll, AdmittedFrom, Gain;
    var (m0, heads) := CheckAll(c, map[], ks);
    var mid := LastTime(ks, from);
    assert Ordered(ks, from) && mid <= k.now by {
      assert forall i :: 0 <= i < |ks| ==> (ks + [k])[i] == ks[i];
      assert (ks + [k])[|ks|] == k;
    }
    LevelsAccounted(c, ks, from, k.ip);
    LevelExact(c, m0, k.ip, mid, k.now);
    LevelGrows(c, m0, k.ip, mid, k.now);
    SoundLater(c, m0, mid, k.now);
    LevelGrows(c, m0, k.ip, k.now, k.now);
    var l := Level(c, m0, k.ip, k.now);
    AccountedLater(c, ks, heads, k.ip, Level(c, m0, k.ip, mid), mid, l, k.now);
    VerdictIs(c, m0, k);
    Spent(c, ks, heads, k.ip, l, k.now);
  }

  lemma Spent(c: Config, ks: seq<Call>, vs: seq<Verdict>, ip: string, level: real, u: real)
    requires |ks| == |vs| && Accounted(c, ks, vs, ip, level, u) && level < 1.0
    ensures c.capacity < 1.0 || exists i: nat :: i < |ks| && UsedUp(c, ks, vs, i, ip, u)
  {
    hide AdmittedFrom, Gain;
    if level != c.capacity {
      var i: nat :| FullSince(c, ks, vs, i, ip, level, u);
      assert UsedUp(c, ks, vs, i, ip, u);
    }
  }

  /** The other half of the rate: a call is answered over-rate only to a source that used its rate up. Since some call
      of it, possibly this one, the admissions and one more exceed the capacity and the refill of the time between. */
  lemma OverRateEarned(c: Config, ks: seq<Call>, from: real, n: nat) returns (i: nat)
    requires ConfigOk(c) && Ordered(ks, from) && n < |ks| && CheckAll(c, map[], ks).1[n] == OverRate
    ensures i <= n && ks[i].ip == ks[n].ip
    ensures var vs := CheckAll(c, map[], ks).1;
            (Admissions(ks[i..n], vs[i..n], ks[n].ip) as real) + 1.0
            > c.capacity + (ks[n].now - ks[i].now) * c.refill
  {
    hide Check, CheckAll, Admissions, Gain;
    var init, k, vs := ks[..n], ks[n], CheckAll(c, map[], ks).1;
    CallVerdict(c, ks, n);
    CallsPrefix(c, ks, n);
    assert init + [k] == ks[..n + 1];
    RateUsedUp(c, init, from, k);
    if c.capacity < 1.0 {
      i := n;
      assert ks[n..n] == [] && vs[n..n] == [];
      NoCalls(k.ip);
      GainNothing(c, k.now);
    } else {
      i :| i < n && UsedUp(c, init, vs[..n], i, k.ip, k.now);
      assert ks[i..n] == init[i..] && vs[i..n] == vs[..n][i..] && init[i] == ks[i];
    }
    OverRefill(c, Admissions(ks[i..n], vs[i..n], k.ip), ks[i].now, ks[n].now);
  }

  lemma OverRefill(c: Config, n: nat, t: real, u: real)
    requires (n as real) + 1.0 > c.capacity + Gain(c, t, u)
    ensures (n as real) + 1.0 > c.capacity + (u - t) * c.refill
  {
  }

  lemma GainNothing(c: Config, t: real)
    ensures Gain(c, t, t) == 0.0
  {
  }

  lemma NoCalls(ip: string)
    ensures Admissions([], [], ip) == 0
  {
  }

  lemma CallVerdict(c: Config, ks: seq<Call>, n: nat)
    requires n < |ks|
    ensures CheckAll(c, map[], ks).1[n] == Check(c, CheckAll(c, map[], ks[..n]).0, ks[n]).1
  {
    hide Check;
    CallsPrefix(c, ks, n + 1);
    assert ks[..n + 1][..n] == ks[..n];
    assert CheckAll(c, map[], ks).1[n] == CheckAll(c, map[], ks).1[..n + 1][n];
  }

  // --- who is turned away --------------------------------------------------

  /** Since some call of `ip` it was admitted more often than its bucket refilled. */
  ghost predicate Busy(c: Config, ks: seq<Call>, vs: seq<Verdict>, ip: string, u: real)
    requires |ks| == |vs|
  {
    exists i: nat :: i < |ks| && ks[i].ip == ip
                     && (Admissions(ks[i..], vs[i..], ip) as real) > (u - ks[i].now) * c.refill
  }

  lemma SpentBusy(c: Config, ks: seq<Call>, vs: seq<Verdict>, ip: string, level: real, u: real)
    requires |ks| == |vs| && Accounted(c, ks, vs, ip, level, u) && level < c.capacity
    ensures Busy(c, ks, vs, ip, u)
  {
    hide Admissions;
    var i: nat :| FullSince(c, ks, vs, i, ip, level, u);
  }

  lemma FullOfBusy(c: Config, m: Buckets, k: Call)
    requires Check(c, m, k).1 == TurnedAway
    ensures |Pruned(c, m, k.now).Keys| >= c.maxKeys && k.ip !in Pruned(c, m, k.now)
    ensures forall ip :: ip in Pruned(c, m, k.now) ==> Level(c, m, ip, k.now) < c.capacity
  {
    hide Refilled;
    var m1 := Pruned(c, m, k.now);
    assert |m1.Keys| == |m1|;
  }

  /** A source is turned away only while `maxKeys` other sources are busy: their buckets are not full again. */
  lemma TurnedAwayOnlyFull(c: Config, ks: seq<Call>, from: real, n: nat) returns (others: set<string>)
    requires ConfigOk(c) && Ordered(ks, from) && n < |ks| && CheckAll(c, map[], ks).1[n] == TurnedAway
    ensures |others| >= c.maxKeys && ks[n].ip !in others
    ensures forall ip :: ip in others ==> Busy(c, ks[..n], CheckAll(c, map[], ks).1[..n], ip, ks[n].now)
  {
    hide CheckAll, Charge, Busy, Refilled, Sound, Accounted;
    CallVerdict(c, ks, n);
    CallsPrefix(c, ks, n);
    var init, k := ks[..n], ks[n];
    var (m0, heads) := CheckAll(c, map[], init);
    FullOfBusy(c, m0, k);
    others := Pruned(c, m0, k.now).Keys;
    forall ip | ip in others ensures Busy(c, init, heads, ip, k.now) {
      var mid := LastTime(init, from);
      assert Ordered(init, from) && mid <= k.now;
      LevelsAccounted(c, init, from, ip);
      LevelExact(c, m0, ip, mid, k.now);
      LevelGrows(c, m0, ip, mid, k.now);
      AccountedLater(c, init, heads, ip, Level(c, m0, ip, mid), mid, Level(c, m0, ip, k.now), k.now);
      SpentBusy(c, init, heads, ip, Level(c, m0, ip, k.now), k.now);
    }
  }

  // --- a clock that goes back ----------------------------------------------

  /** No call is later than the one before it. */
  predicate Falling(ks: seq<Call>) {
    forall i, j :: 0 <= i < j < |ks| ==> ks[j].now <= ks[i].now
  }

  /** The bucket of `ip` holds what its admissions left of a full one, and is not older than `now`. */
  predicate Spends(c: Config, m: Buckets, ip: string, admitted: nat, now: real) {
    if ip in m then m[ip].tokens == c.capacity - (admitted as real) && m[ip].last >= now else admitted == 0
  }

  lemma FallingCheck(c: Config, m: Buckets, k: Call, ip: string, admitted: nat)
    requires ConfigOk(c) && Spends(c, m, ip, admitted, k.now)
    ensures var (m1, v) := Check(c, m, k);
            && Spends(c, m1, ip, admitted + (if k.ip == ip && v == Admitted then 1 else 0), k.now)
            && (k.ip == ip && v != TurnedAway ==> (v == Admitted <==> (admitted as real) + 1.0 <= c.capacity))
  {
    hide Gain;
  }

  /** While the clock does not advance nothing is refilled: a source that is not turned away is admitted exactly as long
      as its admissions fit the capacity. */
  lemma {:induction false} FallingExact(c: Config, ks: seq<Call>, ip: string)
    requires ConfigOk(c) && Falling(ks)
    ensures var (m, vs) := CheckAll(c, map[], ks);
            && (ks != [] ==> Spends(c, m, ip, Admissions(ks, vs, ip), ks[|ks| - 1].now))
            && forall n :: 0 <= n < |ks| && ks[n].ip == ip && vs[n] != TurnedAway ==>
                 (vs[n] == Admitted <==> (Admissions(ks[..n], vs[..n], ip) as real) + 1.0 <= c.capacity)
  {
    hide Check, Spends;
    if ks != [] {
      var e := |ks| - 1;
      var init, k := ks[..e], ks[e];
      FallingExact(c, init, ip);
      var (m0, heads) := CheckAll(c, map[], init);
      var vs := CheckAll(c, map[], ks).1;
      assert vs[..e] == heads;
      SpendsLater(c, m0, init, heads, ip, k.now);
      FallingCheck(c, m0, k, ip, Admissions(init, heads, ip));
      forall n | 0 <= n < e && ks[n].ip == ip && vs[n] != TurnedAway
        ensures vs[n] == Admitted <==> (Admissions(ks[..n], vs[..n], ip) as real) + 1.0 <= c.capacity
      {
        assert init[..n] == ks[..n] && heads[..n] == vs[..n] && init[n] == ks[n] && heads[n] == vs[n];
      }
    }
  }

  lemma SpendsLater(c: Config, m: Buckets, ks: seq<Call>, vs: seq<Verdict>, ip: string, now: real)
    requires (m, vs) == CheckAll(c, map[], ks) && (ks != [] ==> now <= ks[|ks| - 1].now)
    requires ks != [] ==> Spends(c, m, ip, Admissions(ks, vs, ip), ks[|ks| - 1].now)
    ensures Spends(c, m, ip, Admissions(ks, vs, ip), now)
  {
    hide Check;
  }
}
