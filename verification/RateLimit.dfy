/** The fixed-window rate limiter, with its opportunistic sweep. */
module RateLimit {
  import opened Clock
  import opened Option

  type Key = string

  datatype Options = Options(limit: int, windowMs: int)

  datatype Bucket = Bucket(count: int, expiresAt: int)

  type Buckets = map<Key, Bucket>

  const SWEEP_MS := 60_000

  // ---------------------------------------------------------------- one bucket

  /** What a request at `now` does to the bucket it finds, and whether it is let through. */
  function Hit(bucket: Option<Bucket>, o: Options, now: int): (Bucket, bool) {
    if bucket.None? || bucket.value.expiresAt <= now then (Bucket(1, now + o.windowMs), true)
    else if bucket.value.count >= o.limit then (bucket.value, false)
    else (bucket.value.(count := bucket.value.count + 1), true)
  }

  function Lookup(buckets: Buckets, key: Key): Option<Bucket> {
    if key in buckets then Some(buckets[key]) else None
  }

  /** The bucket a request at `now` would be counted in. */
  function Current(buckets: Buckets, key: Key, now: int): Option<Bucket> {
    if key in buckets && buckets[key].expiresAt > now then Some(buckets[key]) else None
  }

  function Unexpired(buckets: Buckets, now: int): Buckets {
    map k | k in buckets && buckets[k].expiresAt > now :: buckets[k]
  }

  // ---------------------------------------------------------------- specification

  datatype State = State(buckets: Buckets, lastSweep: int)

  /** The guard as it comes up. */
  const START := State(map[], 0)

  datatype Request = Request(key: Key, now: int, options: Options)

  function Swept(s: State, now: int): State {
    if now - s.lastSweep < SWEEP_MS then s else State(Unexpired(s.buckets, now), now)
  }

  function Guard(s: State, r: Request): (State, bool) {
    var swept := Swept(s, r.now);
    var (bucket, allowed) := Hit(Lookup(swept.buckets, r.key), r.options, r.now);
    (swept.(buckets := swept.buckets[r.key := bucket]), allowed)
  }

  // ---------------------------------------------------------------- the guard

  class RateLimitGuard {
    var buckets: Buckets
    var lastSweep: int

    constructor ()
      ensures buckets == map[] && lastSweep == 0
    {
      buckets, lastSweep := map[], 0;
    }

    /** The opportunistic clean-up: no effect until a minute after the last one. */
    method Sweep(now: int)
      modifies this
      ensures State(buckets, lastSweep) == Swept(State(old(buckets), old(lastSweep)), now)
    {
      if now - lastSweep < SWEEP_MS {
        return;
      }
      lastSweep := now;
      var left := buckets.Keys;
      while left != {}
        invariant left <= buckets.Keys <= old(buckets).Keys
        invariant forall k :: k in buckets ==> buckets[k] == old(buckets)[k]
        invariant forall k :: k in old(buckets) && k !in left ==> (k in buckets <==> old(buckets)[k].expiresAt > now)
        invariant lastSweep == now
      {
        var key :| key in left;
        if buckets[key].expiresAt <= now {
          buckets := buckets - {key};
        }
        left := left - {key};
      }
      assert buckets == Unexpired(old(buckets), now);
    }

    /** False where the guard answers 429. A route without options is not limited. */
    method CanActivate(options: Option<Options>, key: Key, now: int) returns (allowed: bool)
      modifies this
      ensures options.None? ==> allowed && buckets == old(buckets) && lastSweep == old(lastSweep)
      ensures options.Some? ==>
                (State(buckets, lastSweep), allowed) == Guard(State(old(buckets), old(lastSweep)), Request(key, now, options.value))
    {
      if options.None? {
        return true;
      }
      var o := options.value;
      Sweep(now);
      if key !in buckets || buckets[key].expiresAt <= now {
        buckets := buckets[key := Bucket(1, now + o.windowMs)];
        return true;
      }
      var bucket := buckets[key];
      if bucket.count >= o.limit {
        assert buckets == buckets[key := bucket];
        return false;
      }
      buckets := buckets[key := bucket.(count := bucket.count + 1)];
      return true;
    }
  }

  // ---------------------------------------------------------------- runs

  /** The guard's decisions on a run of requests. */
  function Decisions(s: State, rs: seq<Request>): (ds: seq<bool>)
    ensures |ds| == |rs|
    decreases |rs|
  {
    if rs == [] then [] else [Guard(s, rs[0]).1] + Decisions(Guard(s, rs[0]).0, rs[1..])
  }

  /** The same guard, never sweeping. */
  function PlainDecisions(buckets: Buckets, rs: seq<Request>): (ds: seq<bool>)
    ensures |ds| == |rs|
    decreases |rs|
  {
    if rs == [] then []
    else
      var (bucket, allowed) := Hit(Lookup(buckets, rs[0].key), rs[0].options, rs[0].now);
      [allowed] + PlainDecisions(buckets[rs[0].key := bucket], rs[1..])
  }

  function At(r: Request): int {
    r.now
  }

  /** Two tables that no request at `now` or later can tell apart. */
  ghost predicate SameFrom(a: Buckets, b: Buckets, now: int) {
    forall k :: Current(a, k, now) == Current(b, k, now)
  }

  lemma HitSeesCurrentOnly(buckets: Buckets, key: Key, o: Options, now: int)
    ensures Hit(Lookup(buckets, key), o, now) == Hit(Current(buckets, key, now), o, now)
  {
  }

  lemma SameLater(a: Buckets, b: Buckets, now: int, later: int)
    requires SameFrom(a, b, now) && now <= later
    ensures SameFrom(a, b, later)
  {
    forall k
      ensures Current(a, k, later) == Current(b, k, later)
    {
      assert Current(a, k, now) == Current(b, k, now);
    }
  }

  lemma SweepKeepsCurrent(s: State, plain: Buckets, now: int)
    requires SameFrom(s.buckets, plain, now)
    ensures SameFrom(Swept(s, now).buckets, plain, now)
  {
    forall k
      ensures Current(Swept(s, now).buckets, k, now) == Current(plain, k, now)
    {
      assert Current(s.buckets, k, now) == Current(plain, k, now);
    }
  }

  lemma SetBoth(a: Buckets, b: Buckets, key: Key, bucket: Bucket, now: int)
    requires SameFrom(a, b, now)
    ensures SameFrom(a[key := bucket], b[key := bucket], now)
  {
    var a', b' := a[key := bucket], b[key := bucket];
    forall k
      ensures Current(a', k, now) == Current(b', k, now)
    {
      assert Current(a, k, now) == Current(b, k, now);
    }
  }

  /** Sweeping is invisible: whatever came before, every later decision is the one an unswept guard makes. */
  lemma {:induction false} SweepIsInvisible(s: State, plain: Buckets, now: int, rs: seq<Request>)
    requires SameFrom(s.buckets, plain, now) && Clocked(At, now, rs)
    ensures Decisions(s, rs) == PlainDecisions(plain, rs)
    decreases |rs|
  {
    if rs != [] {
      var r := rs[0];
      SameLater(s.buckets, plain, now, r.now);
      var swept := Swept(s, r.now);
      SweepKeepsCurrent(s, plain, r.now);
      HitSeesCurrentOnly(swept.buckets, r.key, r.options, r.now);
      HitSeesCurrentOnly(plain, r.key, r.options, r.now);
      var bucket := Hit(Lookup(plain, r.key), r.options, r.now).0;
      SetBoth(swept.buckets, plain, r.key, bucket, r.now);
      SweepIsInvisible(Guard(s, r).0, plain[r.key := bucket], r.now, rs[1..]);
    }
  }

  // ---------------------------------------------------------------- the bound

  /** How many requests for `key` were accepted at times in [lo, hi). */
  function Accepted(rs: seq<Request>, ds: seq<bool>, key: Key, lo: int, hi: int): nat
    requires |rs| == |ds|
  {
    if rs == [] then 0
    else (if ds[0] && rs[0].key == key && lo <= rs[0].now < hi then 1 else 0) + Accepted(rs[1..], ds[1..], key, lo, hi)
  }

  /** `key` names one route, whose options are fixed. */
  ghost predicate OneRoute(rs: seq<Request>, key: Key, o: Options) {
    forall i :: 0 <= i < |rs| && rs[i].key == key ==> rs[i].options == o
  }

  /** A limit below one still lets the request that opens a window through. */
  function EffectiveLimit(o: Options): int {
    if o.limit < 1 then 1 else o.limit
  }

  ghost predicate WithinLimit(buckets: Buckets, key: Key, o: Options) {
    key in buckets ==> 1 <= buckets[key].count <= EffectiveLimit(o)
  }

  function AfterPlain(buckets: Buckets, r: Request): Buckets {
    buckets[r.key := Hit(Lookup(buckets, r.key), r.options, r.now).0]
  }

  lemma PlainUnfolds(buckets: Buckets, rs: seq<Request>, key: Key, lo: int, hi: int)
    requires rs != []
    ensures Accepted(rs, PlainDecisions(buckets, rs), key, lo, hi) ==
            (if Hit(Lookup(buckets, rs[0].key), rs[0].options, rs[0].now).1 && rs[0].key == key && lo <= rs[0].now < hi then 1 else 0)
            + Accepted(rs[1..], PlainDecisions(AfterPlain(buckets, rs[0]), rs[1..]), key, lo, hi)
  {
  }

  /** Until the open window ends, only what is left of its allowance is accepted. */
  lemma {:induction false} RestOfWindow(buckets: Buckets, rs: seq<Request>, key: Key, o: Options, now: int, lo: int, hi: int)
    requires Clocked(At, now, rs) && OneRoute(rs, key, o) && WithinLimit(buckets, key, o)
    requires key in buckets && hi <= buckets[key].expiresAt
    ensures Accepted(rs, PlainDecisions(buckets, rs), key, lo, hi) <= EffectiveLimit(o) - buckets[key].count
    decreases |rs|
  {
    if rs != [] {
      PlainUnfolds(buckets, rs, key, lo, hi);
      var r := rs[0];
      if r.now < hi {
        RestOfWindow(AfterPlain(buckets, r), rs[1..], key, o, r.now, lo, hi);
      } else {
        NothingBelow(buckets, rs, key, lo, hi);
      }
    }
  }

  lemma {:induction false} NothingBelow(buckets: Buckets, rs: seq<Request>, key: Key, lo: int, hi: int)
    requires Clocked(At, hi, rs)
    ensures Accepted(rs, PlainDecisions(buckets, rs), key, lo, hi) == 0
    decreases |rs|
  {
    if rs != [] {
      PlainUnfolds(buckets, rs, key, lo, hi);
      NothingBelow(AfterPlain(buckets, rs[0]), rs[1..], key, lo, hi);
    }
  }

  /** From `lo` on: what is left of the window found there, then at most one more window. */
  lemma {:induction false} FromLowerEdge(buckets: Buckets, rs: seq<Request>, key: Key, o: Options, lo: int)
    requires Clocked(At, lo, rs) && OneRoute(rs, key, o) && WithinLimit(buckets, key, o)
    ensures Accepted(rs, PlainDecisions(buckets, rs), key, lo, lo + o.windowMs) <=
            EffectiveLimit(o) + if key in buckets then EffectiveLimit(o) - buckets[key].count else 0
    decreases |rs|
  {
    if rs != [] {
      var r, hi := rs[0], lo + o.windowMs;
      PlainUnfolds(buckets, rs, key, lo, hi);
      var after := AfterPlain(buckets, r);
      if r.key == key && (key !in buckets || buckets[key].expiresAt <= r.now) {
        RestOfWindow(after, rs[1..], key, o, r.now, lo, hi);
      } else {
        FromLowerEdge(after, rs[1..], key, o, lo);
      }
    }
  }

  lemma {:induction false} AnyInterval(buckets: Buckets, rs: seq<Request>, key: Key, o: Options, now: int, lo: int)
    requires Clocked(At, now, rs) && OneRoute(rs, key, o) && WithinLimit(buckets, key, o)
    ensures Accepted(rs, PlainDecisions(buckets, rs), key, lo, lo + o.windowMs) <= 2 * EffectiveLimit(o) - 1 ||
            (key !in buckets && lo <= now)
    ensures key !in buckets && lo <= now ==>
              Accepted(rs, PlainDecisions(buckets, rs), key, lo, lo + o.windowMs) <= EffectiveLimit(o)
    decreases |rs|
  {
    if rs == [] {
    } else if lo <= rs[0].now {
      FromLowerEdge(buckets, rs, key, o, lo);
    } else {
      PlainUnfolds(buckets, rs, key, lo, lo + o.windowMs);
      AnyInterval(AfterPlain(buckets, rs[0]), rs[1..], key, o, rs[0].now, lo);
    }
  }

  /**
   * The guard as it runs, sweeping, from its initial state: whatever the other
   * keys do, no half-open interval of one window's length lets through more
   * than twice the limit, less one.
   */
  lemma AcceptsAtMostTwiceLessOne(rs: seq<Request>, key: Key, o: Options, start: int, lo: int)
    requires Clocked(At, start, rs) && OneRoute(rs, key, o)
    ensures Accepted(rs, Decisions(START, rs), key, lo, lo + o.windowMs) <= 2 * EffectiveLimit(o) - 1
  {
    SweepIsInvisible(START, map[], start, rs);
    AnyInterval(map[], rs, key, o, start, lo);
  }

  // ---------------------------------------------------------------- the bound is met

  function Burst(key: Key, o: Options, now: int, n: nat): seq<Request> {
    if n == 0 then [] else [Request(key, now, o)] + Burst(key, o, now, n - 1)
  }

  lemma {:induction false} BurstIsClocked(key: Key, o: Options, now: int, n: nat)
    ensures |Burst(key, o, now, n)| == n
    ensures forall i :: 0 <= i < n ==> Burst(key, o, now, n)[i] == Request(key, now, o)
  {
    if n > 0 {
      BurstIsClocked(key, o, now, n - 1);
    }
  }

  lemma OpenHit(b: Bucket, key: Key, o: Options, now: int, rs: seq<Request>, lo: int, hi: int)
    requires rs != [] && rs[0] == Request(key, now, o)
    requires now < b.expiresAt && b.count < o.limit && lo <= now < hi
    ensures Accepted(rs, PlainDecisions(map[key := b], rs), key, lo, hi) ==
            1 + Accepted(rs[1..], PlainDecisions(map[key := b.(count := b.count + 1)], rs[1..]), key, lo, hi)
  {
    PlainUnfolds(map[key := b], rs, key, lo, hi);
    assert AfterPlain(map[key := b], rs[0]) == map[key := b.(count := b.count + 1)];
  }

  lemma BurstUnfolds(key: Key, o: Options, now: int, n: nat, rest: seq<Request>)
    requires n > 0
    ensures var rs := Burst(key, o, now, n) + rest;
            rs[0] == Request(key, now, o) && rs[1..] == Burst(key, o, now, n - 1) + rest
  {
    assert Burst(key, o, now, n)[1..] == Burst(key, o, now, n - 1);
  }

  /** A burst inside an open window with allowance left is accepted whole, and so is whatever follows it. */
  lemma {:induction false} BurstAccepted(b: Bucket, key: Key, o: Options, now: int, n: nat, rest: seq<Request>, lo: int, hi: int)
    requires now < b.expiresAt && b.count + n <= o.limit && lo <= now < hi
    ensures Accepted(Burst(key, o, now, n) + rest, PlainDecisions(map[key := b], Burst(key, o, now, n) + rest), key, lo, hi) ==
            n + Accepted(rest, PlainDecisions(map[key := b.(count := b.count + n)], rest), key, lo, hi)
    decreases n
  {
    var rs := Burst(key, o, now, n) + rest;
    if n == 0 {
      assert rs == rest;
      assert b.(count := b.count + n) == b;
    } else {
      BurstUnfolds(key, o, now, n, rest);
      OpenHit(b, key, o, now, rs, lo, hi);
      BurstAccepted(b.(count := b.count + 1), key, o, now, n - 1, rest, lo, hi);
    }
  }

  /** A request that finds no open window, and as many more as the limit allows. */
  function Fill(key: Key, o: Options, now: int): seq<Request>
    requires o.limit >= 1
  {
    [Request(key, now, o)] + (Burst(key, o, now, o.limit - 1) + [])
  }

  /** One request, the rest of the allowance at the end of its window, and a full allowance as the next one opens. */
  function Straddle(key: Key, o: Options): seq<Request>
    requires o.limit >= 1
  {
    [Request(key, 0, o)] + (Burst(key, o, o.windowMs - 1, o.limit - 1) + Fill(key, o, o.windowMs))
  }

  lemma FillAccepted(b: Bucket, key: Key, o: Options, now: int, lo: int, hi: int)
    requires o.limit >= 1 && o.windowMs > 0 && b.expiresAt <= now && lo <= now < hi
    ensures Accepted(Fill(key, o, now), PlainDecisions(map[key := b], Fill(key, o, now)), key, lo, hi) == o.limit
  {
    var rs := Fill(key, o, now);
    PlainUnfolds(map[key := b], rs, key, lo, hi);
    assert AfterPlain(map[key := b], rs[0]) == map[key := Bucket(1, now + o.windowMs)];
    assert rs[1..] == Burst(key, o, now, o.limit - 1) + [];
    BurstAccepted(Bucket(1, now + o.windowMs), key, o, now, o.limit - 1, [], lo, hi);
  }

  lemma StraddleIsARun(key: Key, o: Options)
    requires o.limit >= 1 && o.windowMs >= 2
    ensures Clocked(At, 0, Straddle(key, o)) && OneRoute(Straddle(key, o), key, o)
  {
    BurstIsClocked(key, o, o.windowMs - 1, o.limit - 1);
    BurstIsClocked(key, o, o.windowMs, o.limit - 1);
  }

  /** The bound cannot be lowered: the straddling run reaches it for every limit. */
  lemma BoundIsMet(key: Key, o: Options)
    requires o.limit >= 1 && o.windowMs >= 2
    ensures Clocked(At, 0, Straddle(key, o)) && OneRoute(Straddle(key, o), key, o)
    ensures Accepted(Straddle(key, o), Decisions(START, Straddle(key, o)), key, 1, 1 + o.windowMs) == 2 * o.limit - 1
  {
    var w, n, lo, hi := o.windowMs, o.limit - 1, 1, 1 + o.windowMs;
    var rs := Straddle(key, o);
    StraddleIsARun(key, o);
    SweepIsInvisible(START, map[], 0, rs);
    PlainUnfolds(map[], rs, key, lo, hi);
    assert AfterPlain(map[], rs[0]) == map[key := Bucket(1, w)];
    assert rs[1..] == Burst(key, o, w - 1, n) + Fill(key, o, w);
    BurstAccepted(Bucket(1, w), key, o, w - 1, n, Fill(key, o, w), lo, hi);
    FillAccepted(Bucket(o.limit, w), key, o, w, lo, hi);
  }

  // ---------------------------------------------------------------- no request is refused without cause

  function AfterAll(buckets: Buckets, rs: seq<Request>): Buckets
    decreases |rs|
  {
    if rs == [] then buckets else AfterAll(AfterPlain(buckets, rs[0]), rs[1..])
  }

  lemma {:induction false} PlainConcat(buckets: Buckets, xs: seq<Request>, ys: seq<Request>)
    ensures AfterAll(buckets, xs + ys) == AfterAll(AfterAll(buckets, xs), ys)
    ensures PlainDecisions(buckets, xs + ys) == PlainDecisions(buckets, xs) + PlainDecisions(AfterAll(buckets, xs), ys)
    decreases |xs|
  {
    if xs == [] {
      assert xs + ys == ys;
    } else {
      assert (xs + ys)[0] == xs[0] && (xs + ys)[1..] == xs[1..] + ys;
      PlainConcat(AfterPlain(buckets, xs[0]), xs[1..], ys);
    }
  }

  lemma PlainAppend(buckets: Buckets, rs: seq<Request>, r: Request)
    ensures AfterAll(buckets, rs + [r]) == AfterPlain(AfterAll(buckets, rs), r)
    ensures PlainDecisions(buckets, rs + [r]) ==
            PlainDecisions(buckets, rs) + [Hit(Lookup(AfterAll(buckets, rs), r.key), r.options, r.now).1]
  {
    PlainConcat(buckets, rs, [r]);
    assert AfterAll(AfterPlain(AfterAll(buckets, rs), r), []) == AfterPlain(AfterAll(buckets, rs), r);
  }

  lemma {:induction false} AcceptedAppend(rs: seq<Request>, ds: seq<bool>, r: Request, d: bool, key: Key, lo: int, hi: int)
    requires |rs| == |ds|
    ensures Accepted(rs + [r], ds + [d], key, lo, hi) ==
            Accepted(rs, ds, key, lo, hi) + if d && r.key == key && lo <= r.now < hi then 1 else 0
  {
    if rs == [] {
      assert rs + [r] == [r] && ds + [d] == [d];
    } else {
      assert (rs + [r])[1..] == rs[1..] + [r] && (ds + [d])[1..] == ds[1..] + [d];
      AcceptedAppend(rs[1..], ds[1..], r, d, key, lo, hi);
    }
  }

  /** A longer interval holds no less. */
  lemma {:induction false} AcceptedWidens(rs: seq<Request>, ds: seq<bool>, key: Key, lo: int, from: int, hi: int)
    requires |rs| == |ds| && from <= lo
    ensures Accepted(rs, ds, key, lo, hi) <= Accepted(rs, ds, key, from, hi)
  {
    if rs != [] {
      AcceptedWidens(rs[1..], ds[1..], key, lo, from, hi);
    }
  }

  /** What the key's bucket counts was accepted since its window opened. */
  ghost predicate CountWasAccepted(buckets: Buckets, rs: seq<Request>, ds: seq<bool>, key: Key, o: Options, hi: int)
    requires |rs| == |ds|
  {
    key in buckets ==>
      var since := buckets[key].expiresAt - o.windowMs;
      rs != [] && since <= rs[|rs| - 1].now && 1 <= buckets[key].count <= Accepted(rs, ds, key, since, hi)
  }

  lemma CountWasAcceptedNext(buckets: Buckets, rs: seq<Request>, ds: seq<bool>, r: Request, key: Key, o: Options, hi: int)
    requires |rs| == |ds| && CountWasAccepted(buckets, rs, ds, key, o, hi) && (r.key == key ==> r.options == o)
    requires r.now < hi && (rs != [] ==> rs[|rs| - 1].now <= r.now)
    ensures CountWasAccepted(AfterPlain(buckets, r), rs + [r], ds + [Hit(Lookup(buckets, r.key), r.options, r.now).1], key, o, hi)
  {
    var d, after := Hit(Lookup(buckets, r.key), r.options, r.now).1, AfterPlain(buckets, r);
    if key in after {
      AcceptedAppend(rs, ds, r, d, key, after[key].expiresAt - o.windowMs, hi);
    }
  }

  lemma {:induction false} CountsAreAccepted(rs: seq<Request>, key: Key, o: Options, start: int, hi: int)
    requires Clocked(At, start, rs) && OneRoute(rs, key, o)
    requires forall i :: 0 <= i < |rs| ==> rs[i].now < hi
    ensures CountWasAccepted(AfterAll(map[], rs), rs, PlainDecisions(map[], rs), key, o, hi)
    decreases |rs|
  {
    if rs != [] {
      var init, r := rs[..|rs| - 1], rs[|rs| - 1];
      assert rs == init + [r];
      CountsAreAccepted(init, key, o, start, hi);
      PlainAppend(map[], init, r);
      CountWasAcceptedNext(AfterAll(map[], init), init, PlainDecisions(map[], init), r, key, o, hi);
    }
  }

  /** One request in the midst of a run, decided on what the requests before it left behind. */
  lemma PlainSplit(buckets: Buckets, past: seq<Request>, r: Request, rest: seq<Request>)
    ensures var before := AfterAll(buckets, past);
            PlainDecisions(buckets, past + ([r] + rest)) ==
            PlainDecisions(buckets, past) +
            ([Hit(Lookup(before, r.key), r.options, r.now).1] + PlainDecisions(AfterPlain(before, r), rest))
  {
    PlainConcat(buckets, past, [r] + rest);
    assert ([r] + rest)[1..] == rest;
  }

  lemma ClockedParts(past: seq<Request>, r: Request, rest: seq<Request>, start: int)
    requires Clocked(At, start, past + ([r] + rest))
    ensures Clocked(At, start, past) && Clocked(At, start, past + rest) && forall i :: 0 <= i < |past| ==> past[i].now <= r.now
  {
    var all := past + ([r] + rest);
    assert forall i :: 0 <= i < |past| ==> all[i] == past[i];
    assert forall i :: |past| <= i < |past + rest| ==> all[i + 1] == (past + rest)[i];
    assert all[|past|] == r;
  }

  /** The guard's decisions on such a run. */
  lemma DecisionsSplit(past: seq<Request>, r: Request, rest: seq<Request>, start: int)
    requires Clocked(At, start, past + ([r] + rest))
    ensures var before := AfterAll(map[], past);
            Decisions(START, past + ([r] + rest)) ==
            Decisions(START, past) + ([Hit(Lookup(before, r.key), r.options, r.now).1] + PlainDecisions(AfterPlain(before, r), rest))
    ensures Decisions(START, past) == PlainDecisions(map[], past) && Decisions(START, past + rest) == PlainDecisions(map[], past + rest)
  {
    ClockedParts(past, r, rest, start);
    PlainSplit(map[], past, r, rest);
    SweepIsInvisible(START, map[], start, past + ([r] + rest));
    SweepIsInvisible(START, map[], start, past);
    SweepIsInvisible(START, map[], start, past + rest);
  }

  lemma RefusedHit(buckets: Buckets, r: Request)
    requires !Hit(Lookup(buckets, r.key), r.options, r.now).1
    ensures r.key in buckets && buckets[r.key].expiresAt > r.now && buckets[r.key].count >= r.options.limit
    ensures AfterPlain(buckets, r) == buckets
  {
  }

  /** A bucket that refuses counts a whole allowance, all of it accepted within the window's length. */
  lemma RefusedInFull(buckets: Buckets, past: seq<Request>, ds: seq<bool>, r: Request, o: Options)
    requires |past| == |ds| && r.options == o && CountWasAccepted(buckets, past, ds, r.key, o, r.now + 1)
    requires !Hit(Lookup(buckets, r.key), r.options, r.now).1
    ensures Accepted(past, ds, r.key, r.now - o.windowMs + 1, r.now + 1) >= EffectiveLimit(o)
  {
    RefusedHit(buckets, r);
    AcceptedWidens(past, ds, r.key, buckets[r.key].expiresAt - o.windowMs, r.now - o.windowMs + 1, r.now + 1);
  }

  /** What the guard says of a request after these ones, whatever follows. */
  lemma DecisionAfter(past: seq<Request>, r: Request, rest: seq<Request>, start: int)
    requires Clocked(At, start, past + ([r] + rest))
    ensures Decisions(START, past + ([r] + rest))[|past|] == Hit(Lookup(AfterAll(map[], past), r.key), r.options, r.now).1
    ensures Decisions(START, past) == PlainDecisions(map[], past)
  {
    DecisionsSplit(past, r, rest, start);
  }

  lemma RouteParts(past: seq<Request>, r: Request, rest: seq<Request>, o: Options)
    requires OneRoute(past + ([r] + rest), r.key, o)
    ensures OneRoute(past, r.key, o) && r.options == o
  {
    var all := past + ([r] + rest);
    assert forall i :: 0 <= i < |past| ==> all[i] == past[i];
    assert all[|past|] == r;
  }

  lemma RefusedAfter(past: seq<Request>, r: Request, o: Options, start: int)
    requires Clocked(At, start, past) && OneRoute(past, r.key, o) && r.options == o
    requires forall i :: 0 <= i < |past| ==> past[i].now < r.now + 1
    requires !Hit(Lookup(AfterAll(map[], past), r.key), r.options, r.now).1
    ensures Accepted(past, PlainDecisions(map[], past), r.key, r.now - o.windowMs + 1, r.now + 1) >= EffectiveLimit(o)
  {
    CountsAreAccepted(past, r.key, o, start, r.now + 1);
    RefusedInFull(AfterAll(map[], past), past, PlainDecisions(map[], past), r, o);
  }

  /**
   * A refusal has its cause: at least the whole allowance was accepted for the
   * key in the window's length up to the refused request.
   */
  lemma RefusedOnlyWhenFull(past: seq<Request>, r: Request, rest: seq<Request>, o: Options, start: int)
    requires Clocked(At, start, past + ([r] + rest)) && OneRoute(past + ([r] + rest), r.key, o)
    requires !Decisions(START, past + ([r] + rest))[|past|]
    ensures Accepted(past, Decisions(START, past), r.key, r.now - o.windowMs + 1, r.now + 1) >= EffectiveLimit(o)
  {
    ClockedParts(past, r, rest, start);
    RouteParts(past, r, rest, o);
    DecisionAfter(past, r, rest, start);
    RefusedAfter(past, r, o, start);
  }

  /** Every request for the key let through so far was at `now` or before. */
  ghost predicate NoneSince(rs: seq<Request>, ds: seq<bool>, key: Key, now: int)
    requires |rs| == |ds|
  {
    forall i :: 0 <= i < |rs| && ds[i] && rs[i].key == key ==> rs[i].now <= now
  }

  lemma {:induction false} NoneAccepted(rs: seq<Request>, ds: seq<bool>, key: Key, now: int, hi: int)
    requires |rs| == |ds| && NoneSince(rs, ds, key, now)
    ensures Accepted(rs, ds, key, now + 1, hi) == 0
  {
    if rs != [] {
      assert forall i :: 0 <= i < |rs| - 1 ==> rs[1..][i] == rs[i + 1] && ds[1..][i] == ds[i + 1];
      NoneAccepted(rs[1..], ds[1..], key, now, hi);
    }
  }

  lemma FullIsNotQuiet(past: seq<Request>, ds: seq<bool>, r: Request, o: Options)
    requires |past| == |ds| && Accepted(past, ds, r.key, r.now - o.windowMs + 1, r.now + 1) >= EffectiveLimit(o)
    ensures !NoneSince(past, ds, r.key, r.now - o.windowMs)
  {
    if NoneSince(past, ds, r.key, r.now - o.windowMs) {
      NoneAccepted(past, ds, r.key, r.now - o.windowMs, r.now + 1);
    }
  }

  /** So a request is let through whenever none for its key was, in the window's length up to it. */
  lemma QuietIsAccepted(past: seq<Request>, r: Request, rest: seq<Request>, o: Options, start: int)
    requires Clocked(At, start, past + ([r] + rest)) && OneRoute(past + ([r] + rest), r.key, o)
    requires NoneSince(past, Decisions(START, past), r.key, r.now - o.windowMs)
    ensures Decisions(START, past + ([r] + rest))[|past|]
  {
    if !Decisions(START, past + ([r] + rest))[|past|] {
      RefusedOnlyWhenFull(past, r, rest, o, start);
      FullIsNotQuiet(past, Decisions(START, past), r, o);
    }
  }

  lemma MiddleOf(ds: seq<bool>, d: bool, es: seq<bool>)
    ensures (ds + ([d] + es))[|ds|] == d && (ds + ([d] + es))[|ds| + 1..] == es
  {
  }

  /** A refused request leaves no trace: without it every other decision of the run is the same. */
  lemma RefusedLeavesNoTrace(past: seq<Request>, r: Request, rest: seq<Request>, start: int)
    requires Clocked(At, start, past + ([r] + rest))
    requires !Decisions(START, past + ([r] + rest))[|past|]
    ensures Decisions(START, past + rest) == Decisions(START, past) + Decisions(START, past + ([r] + rest))[|past| + 1..]
  {
    var before := AfterAll(map[], past);
    DecisionsSplit(past, r, rest, start);
    MiddleOf(Decisions(START, past), Hit(Lookup(before, r.key), r.options, r.now).1, PlainDecisions(AfterPlain(before, r), rest));
    RefusedHit(before, r);
    PlainConcat(map[], past, rest);
  }

  function OnlyAccepted(rs: seq<Request>, ds: seq<bool>): seq<Request>
    requires |rs| == |ds|
  {
    if rs == [] then [] else (if ds[0] then [rs[0]] else []) + OnlyAccepted(rs[1..], ds[1..])
  }

  lemma {:induction false} AcceptedAlone(buckets: Buckets, rs: seq<Request>)
    ensures forall d :: d in PlainDecisions(buckets, OnlyAccepted(rs, PlainDecisions(buckets, rs))) ==> d
    decreases |rs|
  {
    if rs != [] {
      var after := AfterPlain(buckets, rs[0]);
      AcceptedAlone(after, rs[1..]);
      var rest := OnlyAccepted(rs[1..], PlainDecisions(after, rs[1..]));
      if PlainDecisions(buckets, rs)[0] {
        assert ([rs[0]] + rest)[1..] == rest;
      } else {
        RefusedHit(buckets, rs[0]);
        assert [] + rest == rest;
      }
    }
  }

  // ---------------------------------------------------------------- the table stays small

  function Final(s: State, rs: seq<Request>): State
    decreases |rs|
  {
    if rs == [] then s else Final(Guard(s, rs[0]).0, rs[1..])
  }

  /** Between two sweeps lies a minute: until it is over, the table loses nothing but what the requests' own windows replace. */
  lemma {:induction false} NoSweepWithinAMinute(s: State, rs: seq<Request>, key: Key)
    requires forall i :: 0 <= i < |rs| ==> rs[i].now < s.lastSweep + 60 * 1000 && rs[i].key != key
    ensures Final(s, rs).lastSweep == s.lastSweep && Lookup(Final(s, rs).buckets, key) == Lookup(s.buckets, key)
    decreases |rs|
  {
    if rs != [] {
      NoSweepWithinAMinute(Guard(s, rs[0]).0, rs[1..], key);
    }
  }

  /** Each bucket's window was opened by a request for its key. */
  ghost predicate OpenedBy(b: Bucket, rs: seq<Request>, k: Key) {
    exists i :: 0 <= i < |rs| && rs[i].key == k && b.expiresAt == rs[i].now + rs[i].options.windowMs
  }

  /** Nothing the last sweep would have dropped is left, and every bucket is some request's. */
  ghost predicate Kept(s: State, rs: seq<Request>) {
    forall k :: k in s.buckets ==> s.buckets[k].expiresAt > s.lastSweep && OpenedBy(s.buckets[k], rs, k)
  }

  /** The last sweep is under a minute old as well. */
  ghost predicate Tidy(s: State, rs: seq<Request>, now: int) {
    s.lastSweep <= now && now - s.lastSweep < SWEEP_MS && Kept(s, rs)
  }

  lemma {:induction false} FinalAppend(s: State, rs: seq<Request>, r: Request)
    ensures Final(s, rs + [r]) == Guard(Final(s, rs), r).0
    decreases |rs|
  {
    if rs == [] {
      assert rs + [r] == [r];
      assert Final(Guard(s, r).0, []) == Guard(s, r).0;
    } else {
      assert (rs + [r])[1..] == rs[1..] + [r];
      FinalAppend(Guard(s, rs[0]).0, rs[1..], r);
    }
  }

  lemma OpenedByMore(b: Bucket, rs: seq<Request>, r: Request, k: Key)
    requires OpenedBy(b, rs, k)
    ensures OpenedBy(b, rs + [r], k)
  {
    var i :| 0 <= i < |rs| && rs[i].key == k && b.expiresAt == rs[i].now + rs[i].options.windowMs;
    assert (rs + [r])[i] == rs[i];
  }

  lemma GuardKeepsTidy(s: State, rs: seq<Request>, r: Request)
    requires Kept(s, rs)
    requires s.lastSweep <= r.now && r.options.windowMs > 0
    ensures Tidy(Guard(s, r).0, rs + [r], r.now)
  {
    var t := Guard(s, r).0;
    forall k | k in t.buckets
      ensures t.buckets[k].expiresAt > t.lastSweep && OpenedBy(t.buckets[k], rs + [r], k)
    {
      if k == r.key && t.buckets[k].expiresAt == r.now + r.options.windowMs {
        assert (rs + [r])[|rs|] == r;
      } else {
        assert k in s.buckets && s.buckets[k].expiresAt == t.buckets[k].expiresAt;
        OpenedByMore(s.buckets[k], rs, r, k);
      }
    }
  }

  /** A run from time zero on, of requests whose windows last. */
  ghost predicate Lasting(rs: seq<Request>) {
    Clocked(At, 0, rs) && forall i :: 0 <= i < |rs| ==> rs[i].options.windowMs > 0
  }

  lemma LastingParts(rs: seq<Request>, r: Request)
    requires Lasting(rs + [r])
    ensures Lasting(rs) && r.now >= 0 && r.options.windowMs > 0 && (rs != [] ==> rs[|rs| - 1].now <= r.now)
  {
    var all := rs + [r];
    assert forall i :: 0 <= i < |rs| ==> all[i] == rs[i];
    assert all[|rs|] == r;
  }

  lemma {:induction false} EveryStateIsTidy(rs: seq<Request>)
    requires rs != [] && Lasting(rs)
    ensures Tidy(Final(START, rs), rs, rs[|rs| - 1].now)
    decreases |rs|
  {
    var init, r := rs[..|rs| - 1], rs[|rs| - 1];
    assert rs == init + [r];
    FinalAppend(START, init, r);
    LastingParts(init, r);
    if init != [] {
      EveryStateIsTidy(init);
    }
    GuardKeepsTidy(Final(START, init), init, r);
  }

  /**
   * Cycling keys cannot grow the table without bound: after any run, each
   * surviving bucket belongs to a request whose window had not ended a minute
   * before the last request.
   */
  lemma OnlyRecentKeysSurvive(rs: seq<Request>)
    requires rs != [] && Lasting(rs)
    ensures forall k :: k in Final(START, rs).buckets ==>
              exists i :: 0 <= i < |rs| && rs[i].key == k && rs[i].now + rs[i].options.windowMs > rs[|rs| - 1].now - SWEEP_MS
  {
    EveryStateIsTidy(rs);
    var s := Final(START, rs);
    forall k | k in s.buckets
      ensures exists i :: 0 <= i < |rs| && rs[i].key == k && rs[i].now + rs[i].options.windowMs > rs[|rs| - 1].now - SWEEP_MS
    {
      assert OpenedBy(s.buckets[k], rs, k);
    }
  }
}
