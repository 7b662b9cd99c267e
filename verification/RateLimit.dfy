/** The fixed-window limiter: one counter per key, expired counters evicted when
    the table is full. Times are milliseconds. */
module RateLimit {
  import opened Common

  const MAX_KEYS: nat := 10_000

  datatype Window = Window(count: nat, resetAt: int)

  datatype Result = Result(allowed: bool, remaining: int, retryAfterSec: int)

  type Windows = map<string, Window>

  predicate Running(w: Windows, key: string, now: int) {
    key in w && w[key].resetAt > now
  }

  function Max(a: int, b: int): int { if a > b then a else b }

  /** ceil(ms / 1000) */
  function CeilSeconds(ms: int): int { -((-ms) / 1000) }

  function Namespaced(key: string): string { "rl:" + key }

  /** One hit on a limiter that never evicts anything. */
  function Hit(w: Windows, key: string, limit: int, windowSec: nat, now: int): (Windows, Result) {
    if !Running(w, key, now)
    then (w[key := Window(1, now + windowSec * 1000)], Result(true, limit - 1, 0))
    else
      var n := Window(w[key].count + 1, w[key].resetAt);
      (w[key := n], Result(n.count <= limit, Max(0, limit - n.count), Max(1, CeilSeconds(n.resetAt - now))))
  }

  /** Forgetting a key gives its whole budget back, and no other key notices. */
  lemma ClearRefunds(w: Windows, key: string, other: string, limit: int, sec: nat, now: int)
    requires other != key
    ensures Hit(w - {Namespaced(key)}, Namespaced(key), limit, sec, now).1 == Result(true, limit - 1, 0)
    ensures Hit(w - {Namespaced(key)}, Namespaced(other), limit, sec, now).1 ==
      Hit(w, Namespaced(other), limit, sec, now).1
  {
    if Namespaced(other) == Namespaced(key) { NamespacedInjective(other, key); }
  }

  /** The first hit of a window goes through whatever the limit, and under a limit
      of zero or less the second does not: the bounds below cannot read `limit`. */
  lemma FirstHitWitness(key: string, limit: int, sec: nat, at: int)
    requires limit <= 0 && sec > 0
    ensures Through(map[], [Count(key, limit, sec, at), Count(key, limit, sec, at)], key) == [at]
    ensures CountIn([at], at, at + sec * 1000) == 1 > 2 * limit
  {
    var hit := Count(key, limit, sec, at);
    var after := AfterHit(map[], Namespaced(key), limit, sec, at);
    assert [hit, hit][1..] == [hit] && [hit][1..] == [];
    assert Through(after, [hit], key) == [];
    assert [at][..0] == [];
  }

  /** A hit on a key with no window running begins one, of the length asked for, and
      goes through; later hits go through while fewer than the limit came before. */
  lemma HitCounts(w: Windows, key: string, limit: int, sec: nat, now: int)
    ensures var (v, r) := Hit(w, key, limit, sec, now);
      && key in v && v - {key} == w - {key}
      && (key !in w || w[key].resetAt <= now ==> r.allowed && v[key] == Window(1, now + sec * 1000))
      && (key in w && w[key].resetAt > now ==>
            v[key] == Window(w[key].count + 1, w[key].resetAt) && (r.allowed <==> w[key].count < limit))
  {
  }

  /** What an answer says of the hits to come: while its window runs, the next one
      goes through if and only if some remain, and then one fewer remains. */
  lemma RemainingExactly(w: Windows, key: string, limit: int, sec: nat, now: int, next: int)
    requires var v := Hit(w, key, limit, sec, now).0; key in v && v[key].resetAt > next
    requires now <= next
    ensures var (v, r) := Hit(w, key, limit, sec, now); var later := Hit(v, key, limit, sec, next).1;
      && (later.allowed <==> r.remaining > 0)
      && later.remaining == if r.remaining > 0 then r.remaining - 1 else 0
  {
  }

  /** And of the wait: after that many whole seconds the window is over, and after one
      second less it is not, unless one second is all that is asked. */
  lemma RetryAfterExactly(w: Windows, key: string, limit: int, sec: nat, now: int)
    ensures var (v, r) := Hit(w, key, limit, sec, now);
      if key in w && w[key].resetAt > now
      then r.retryAfterSec >= 1 && v[key].resetAt <= now + 1000 * r.retryAfterSec
           && (r.retryAfterSec > 1 ==> v[key].resetAt > now + 1000 * (r.retryAfterSec - 1))
      else r.retryAfterSec == 0
  {
    if key in w { CeilIsCeil(w[key].resetAt - now); }
  }

  lemma CeilIsCeil(ms: int)
    ensures 1000 * (CeilSeconds(ms) - 1) < ms <= 1000 * CeilSeconds(ms)
  {
  }

  // ----- eviction is invisible ---------------------------------------------------------------

  /** Two tables a caller cannot tell apart from `now` on: they agree on every
      window that is still running. */
  predicate Indistinct(a: Windows, b: Windows, now: int) {
    && (forall k <- a :: a[k].resetAt > now ==> k in b && b[k] == a[k])
    && (forall k <- b :: b[k].resetAt > now ==> k in a && a[k] == b[k])
  }

  class Limiter {
    var windows: Windows

    constructor ()
      ensures windows == map[]
    {
      windows := map[];
    }

    method EvictExpired(now: int)
      modifies this
      ensures windows == map k | k in old(windows) && old(windows)[k].resetAt > now :: old(windows)[k]
    {
      var keys := windows.Keys;
      ghost var was := windows;
      while keys != {}
        invariant keys <= was.Keys
        invariant windows == map k | k in was && (k in keys || was[k].resetAt > now) :: was[k]
        decreases keys
      {
        var key :| key in keys;
        if windows[key].resetAt <= now {
          windows := windows - {key};
        }
        keys := keys - {key};
      }
    }

    /** Counts one hit: answers what a never-evicting limiter in the same state
        answers, and leaves a table that cannot be told apart from its. */
    method CountHit(key: string, limit: int, windowSec: nat, now: int) returns (r: Result)
      modifies this
      ensures r == Hit(old(windows), Namespaced(key), limit, windowSec, now).1
      ensures Indistinct(windows, Hit(old(windows), Namespaced(key), limit, windowSec, now).0, now)
      ensures windows == AfterCall(old(windows), Count(key, limit, windowSec, now))
      ensures Some(r) == Answer(old(windows), Count(key, limit, windowSec, now))
    {
      var name := "rl:" + key;
      if name !in windows || windows[name].resetAt <= now {
        if |windows| >= MAX_KEYS { EvictExpired(now); }
        windows := windows[name := Window(1, now + windowSec * 1000)];
        return Result(true, limit - 1, 0);
      }
      var w := windows[name];
      var count := w.count + 1;
      windows := windows[name := Window(count, w.resetAt)];
      r := Result(count <= limit, Max(0, limit - count), Max(1, CeilSeconds(w.resetAt - now)));
    }

    /** Forgets a key: the other call of a run. */
    method Clear(key: string, ghost now: int)
      modifies this
      ensures windows == AfterCall(old(windows), Forget(key, now))
      ensures Namespaced(key) !in windows && forall k <- old(windows) :: k == Namespaced(key) || k in windows
    {
      windows := windows - {"rl:" + key};
    }

    /** The per-address window and the global one; both are always counted. */
    method WriteBudget(scope: string, ip: string, ipLimit: int, ipWindow: nat, limit: int, window: nat, now: int)
      returns (ok: bool)
      modifies this
      ensures ok == (BudgetHits(old(windows), scope, ip, ipLimit, ipWindow, limit, window, now).1)
      ensures windows == BudgetHits(old(windows), scope, ip, ipLimit, ipWindow, limit, window, now).0
    {
      var byIp := CountHit(scope + ":ip:" + (if ip == "" then "unknown" else ip), ipLimit, ipWindow, now);
      var overall := CountHit(scope + ":all", limit, window, now);
      ok := byIp.allowed && overall.allowed;
    }
  }

  function Unexpired(w: Windows, now: int): Windows {
    map k | k in w && w[k].resetAt > now :: w[k]
  }

  /** One hit on the evicting limiter. */
  function AfterHit(w: Windows, key: string, limit: int, windowSec: nat, now: int): Windows {
    if !Running(w, key, now) && |w| >= MAX_KEYS
    then Hit(Unexpired(w, now), key, limit, windowSec, now).0 else Hit(w, key, limit, windowSec, now).0
  }

  /** A hit that starts a window in a full table first throws out every window that is
      over, and only those; no other hit throws anything out. */
  lemma EvictsExactly(w: Windows, key: string, limit: int, sec: nat, now: int, other: string)
    requires other != key && other in w
    ensures var v := AfterHit(w, key, limit, sec, now);
      var full := |w| >= 10_000 && (key !in w || w[key].resetAt <= now);
      && (other in v <==> !(full && w[other].resetAt <= now))
      && (other in v ==> v[other] == w[other])
  {
  }

  function BudgetHits(
      w: Windows, scope: string, ip: string, ipLimit: int, ipWindow: nat, limit: int, window: nat, now: int):
      (Windows, bool)
  {
    var ipKey := Namespaced(scope + ":ip:" + if ip == "" then "unknown" else ip);
    var mid := AfterHit(w, ipKey, ipLimit, ipWindow, now);
    (AfterHit(mid, Namespaced(scope + ":all"), limit, window, now),
     && Hit(w, ipKey, ipLimit, ipWindow, now).1.allowed
     && Hit(mid, Namespaced(scope + ":all"), limit, window, now).1.allowed)
  }

  /** A write may proceed exactly when its address's window and the scope's both let it
      through, and both have counted it. */
  lemma BothMustAllow(
      w: Windows, scope: string, ip: string, ipLimit: int, ipWindow: nat, limit: int, window: nat, now: int)
    ensures var name := "rl:" + (scope + ":ip:" + if ip == "" then "unknown" else ip);
      var all := "rl:" + (scope + ":all");
      var (after, ok) := BudgetHits(w, scope, ip, ipLimit, ipWindow, limit, window, now);
      && (ok <==> Hit(w, name, ipLimit, ipWindow, now).1.allowed && Hit(w, all, limit, window, now).1.allowed)
      && (ipWindow > 0 ==> name in after && after[name] == Hit(w, name, ipLimit, ipWindow, now).0[name])
      && all in after && after[all] == Hit(w, all, limit, window, now).0[all]
  {
    var who := if ip == "" then "unknown" else ip;
    IpKeyIsNotGlobal(scope, who);
    OtherKeyKept(w, scope + ":ip:" + who, scope + ":all", ipLimit, ipWindow, now);
    var mid := AfterHit(w, Namespaced(scope + ":ip:" + who), ipLimit, ipWindow, now);
    OtherKeyKept(mid, scope + ":all", scope + ":ip:" + who, limit, window, now);
  }

  /** Another address's own window is not touched: its next hit is answered as if this
      write had not been. */
  lemma AddressesApart(
      w: Windows, scope: string, ip: string, other: string, ipLimit: int, ipWindow: nat, limit: int, window: nat,
      now: int, next: int)
    requires ip != "" && other != "" && ip != other && now <= next
    ensures var name := "rl:" + (scope + ":ip:" + other);
      var after := BudgetHits(w, scope, ip, ipLimit, ipWindow, limit, window, now).0;
      Hit(after, name, ipLimit, ipWindow, next).1 == Hit(w, name, ipLimit, ipWindow, next).1
  {
    IpKeyIsNotGlobal(scope, other);
    assert (scope + ":ip:" + ip)[|scope| + 4..] == ip && (scope + ":ip:" + other)[|scope| + 4..] == other;
    OtherKeyKept(w, scope + ":ip:" + ip, scope + ":ip:" + other, ipLimit, ipWindow, now);
    var mid := AfterHit(w, Namespaced(scope + ":ip:" + ip), ipLimit, ipWindow, now);
    OtherKeyKept(mid, scope + ":all", scope + ":ip:" + other, limit, window, now);
  }

  lemma OtherKeyKept(w: Windows, key: string, other: string, limit: int, sec: nat, now: int)
    requires key != other
    ensures var v := AfterHit(w, Namespaced(key), limit, sec, now); var name := Namespaced(other);
      && (name in v ==> name in w && v[name] == w[name])
      && (name in w && w[name].resetAt > now ==> name in v)
  {
    if Namespaced(key) == Namespaced(other) { NamespacedInjective(key, other); }
  }

  datatype Call =
    | Count(key: string, limit: int, windowSec: nat, at: int)
    | Forget(key: string, at: int)

  function AfterCall(w: Windows, c: Call): Windows {
    if c.Count? then AfterHit(w, Namespaced(c.key), c.limit, c.windowSec, c.at) else w - {Namespaced(c.key)}
  }

  function Answer(w: Windows, c: Call): Option<Result> {
    match c
    case Count(key, limit, sec, at) => Some(Hit(w, Namespaced(key), limit, sec, at).1)
    case Forget(_, _) => None
  }

  /** What each call answers, with and without eviction. */
  function Evicting(w: Windows, calls: seq<Call>): seq<Option<Result>>
    decreases |calls|
  {
    if calls == [] then [] else [Answer(w, calls[0])] + Evicting(AfterCall(w, calls[0]), calls[1..])
  }

  function NeverEvicting(w: Windows, calls: seq<Call>): seq<Option<Result>>
    decreases |calls|
  {
    if calls == [] then []
    else match calls[0]
      case Count(key, limit, sec, at) =>
        [Some(Hit(w, Namespaced(key), limit, sec, at).1)] +
        NeverEvicting(Hit(w, Namespaced(key), limit, sec, at).0, calls[1..])
      case Forget(key, at) => [None] + NeverEvicting(w - {Namespaced(key)}, calls[1..])
  }

  predicate Monotone(calls: seq<Call>, from: int) {
    calls == [] || (from <= calls[0].at && Monotone(calls[1..], calls[0].at))
  }

  lemma IndistinctHit(a: Windows, b: Windows, key: string, limit: int, sec: nat, from: int, at: int)
    requires Indistinct(a, b, from) && from <= at
    ensures Hit(a, key, limit, sec, at).1 == Hit(b, key, limit, sec, at).1
    ensures Indistinct(AfterHit(a, key, limit, sec, at), Hit(b, key, limit, sec, at).0, at)
  {
  }

  lemma {:induction false} EvictionSimulated(a: Windows, b: Windows, calls: seq<Call>, from: int)
    requires Indistinct(a, b, from) && Monotone(calls, from)
    ensures Evicting(a, calls) == NeverEvicting(b, calls)
    decreases |calls|
  {
    if calls != [] {
      match calls[0]
      case Count(key, limit, sec, at) =>
        IndistinctHit(a, b, Namespaced(key), limit, sec, from, at);
        EvictionSimulated(
          AfterHit(a, Namespaced(key), limit, sec, at), Hit(b, Namespaced(key), limit, sec, at).0, calls[1..], at);
      case Forget(key, at) =>
        EvictionSimulated(a - {Namespaced(key)}, b - {Namespaced(key)}, calls[1..], at);
    }
  }

  /** On any call sequence with a monotone clock, evicting changes no answer. */
  lemma EvictionInvisible(calls: seq<Call>, from: int)
    requires Monotone(calls, from)
    ensures Evicting(map[], calls) == NeverEvicting(map[], calls)
  {
    EvictionSimulated(map[], map[], calls, from);
  }

  // ----- how much gets through ------------------------------------------------------------------

  /** How many of the times fall in the half-open interval [lo, hi). */
  function CountIn(times: seq<int>, lo: int, hi: int): nat {
    if times == [] then 0
    else
      var t := times[|times| - 1];
      CountIn(times[..|times| - 1], lo, hi) + if lo <= t < hi then 1 else 0
  }

  lemma {:induction false} CountSplits(times: seq<int>, lo: int, mid: int, hi: int)
    requires lo <= mid <= hi
    ensures CountIn(times, lo, hi) == CountIn(times, lo, mid) + CountIn(times, mid, hi)
  {
    if times != [] { CountSplits(times[..|times| - 1], lo, mid, hi); }
  }

  lemma {:induction false} CountEmpty(times: seq<int>, lo: int, hi: int)
    requires forall i | 0 <= i < |times| :: times[i] < lo || hi <= times[i]
    ensures CountIn(times, lo, hi) == 0
  {
    if times != [] {
      CountEmpty(times[..|times| - 1], lo, hi);
    }
  }

  lemma CountAdd(times: seq<int>, t: int, lo: int, hi: int)
    ensures CountIn(times + [t], lo, hi) == CountIn(times, lo, hi) + if lo <= t < hi then 1 else 0
  {
    assert (times + [t])[..|times|] == times;
  }

  /** `times` are hits that went through on `key`, none after `now`; `start` is
      where the key's latest window began. The last clause is about one interval
      of a window's length beginning at `a`. */
  predicate Bounded(w: Windows, key: string, cap: int, length: nat, times: seq<int>, start: int, now: int, a: int) {
    && (forall i | 0 <= i < |times| :: times[i] <= now && times[i] < start + length)
    && start <= now && length > 0
    && CountIn(times, start, now + 1) <= cap
    && CountIn(times, start - length, start) <= cap
    && CountIn(times, a, a + length) <= 2 * cap
    && (|| (key in w && w[key].resetAt == start + length && CountIn(times, start, now + 1) <= w[key].count)
        || (start + length <= now && !Running(w, key, now)))
  }

  lemma LaterStillBounded(
      w: Windows, v: Windows, key: string, cap: int, length: nat, times: seq<int>,
      start: int, now: int, at: int, a: int)
    requires Bounded(w, key, cap, length, times, start, now, a) && now <= at
    requires key in v ==> key in w && v[key] == w[key]
    requires key in w && key !in v ==> w[key].resetAt <= at
    ensures Bounded(v, key, cap, length, times, start, at, a)
  {
    CountSplits(times, start, now + 1, at + 1);
    CountEmpty(times, now + 1, at + 1);
  }

  /** A hit on the key itself; `counts` says whether it is one of the times. */
  lemma OwnHitBounded(
      w: Windows, key: string, limit: int, sec: nat, times: seq<int>,
      start: int, now: int, at: int, counts: bool, a: int)
    returns (began: int)
    requires Bounded(w, key, Max(1, limit), sec * 1000, times, start, now, a) && now <= at
    requires counts ==> Hit(w, key, limit, sec, at).1.allowed
    ensures Bounded(AfterHit(w, key, limit, sec, at), key, Max(1, limit), sec * 1000,
        if counts then times + [at] else times, began, at, a)
    ensures var v := AfterHit(w, key, limit, sec, at);
      Running(v, key, at) ==> began == v[key].resetAt - sec * 1000
  {
    var length, cap := sec * 1000, Max(1, limit);
    LaterStillBounded(w, w, key, cap, length, times, start, now, at, a);
    if Running(w, key, at) {
      began := start;
      SameWindow(times, start, at, cap, length, a);
    } else {
      began := at;
      NewWindow(times, start, at, cap, length, a);
    }
    if counts {
      CountAdd(times, at, began, at + 1);
      CountAdd(times, at, began - length, began);
      CountAdd(times, at, a, a + length);
    }
  }

  /** Inside a running window an interval reaching `at` meets this window and at
      most one more. */
  lemma SameWindow(times: seq<int>, start: int, at: int, cap: int, length: nat, a: int)
    requires (forall i | 0 <= i < |times| :: times[i] <= at) && start <= at < start + length
    requires CountIn(times, start - length, start) <= cap
    ensures a <= at < a + length ==> CountIn(times, a, a + length) <= cap + CountIn(times, start, at + 1)
  {
    if a <= at < a + length {
      CountSplits(times, a, at + 1, a + length);
      CountEmpty(times, at + 1, a + length);
      if a < start {
        CountSplits(times, start - length, a, start);
        CountSplits(times, a, start, at + 1);
      } else {
        CountSplits(times, start, a, at + 1);
      }
    }
  }

  lemma NewWindow(times: seq<int>, start: int, at: int, cap: int, length: nat, a: int)
    requires (forall i | 0 <= i < |times| :: times[i] < start + length) && start + length <= at
    requires CountIn(times, start, at + 1) <= cap
    ensures CountIn(times, at - length, at) <= cap && CountIn(times, at, at + 1) == 0
    ensures a <= at < a + length ==> CountIn(times, a, a + length) <= cap
  {
    CountSplits(times, start, at - length, at + 1);
    CountSplits(times, at - length, at, at + 1);
    CountEmpty(times, at, at + 1);
    if a <= at < a + length {
      CountSplits(times, at - length, a, at + 1);
      CountSplits(times, a, at + 1, a + length);
      CountEmpty(times, at + 1, a + length);
    }
  }

  /** The times at which a hit on `key` goes through. */
  function Through(w: Windows, calls: seq<Call>, key: string): seq<int>
    decreases |calls|
  {
    if calls == [] then []
    else match calls[0]
      case Count(k, limit, sec, at) =>
        (if k == key && Hit(w, Namespaced(k), limit, sec, at).1.allowed then [at] else []) +
        Through(AfterHit(w, Namespaced(k), limit, sec, at), calls[1..], key)
      case Forget(k, at) => Through(w - {Namespaced(k)}, calls[1..], key)
  }

  /** The key is only ever used with these parameters, and never cleared. */
  predicate FixedUse(calls: seq<Call>, key: string, limit: int, sec: nat) {
    forall i | 0 <= i < |calls| ::
      calls[i].key == key ==> calls[i].Count? && calls[i].limit == limit && calls[i].windowSec == sec
  }

  lemma NamespacedInjective(a: string, b: string)
    requires Namespaced(a) == Namespaced(b)
    ensures a == b
  {
    assert Namespaced(a)[3..] == a && Namespaced(b)[3..] == b;
  }

  lemma OtherCallBounded(
      w: Windows, call: Call, key: string, cap: int, length: nat, times: seq<int>, start: int, now: int, a: int)
    requires Bounded(w, Namespaced(key), cap, length, times, start, now, a) && now <= call.at && call.key != key
    ensures Bounded(AfterCall(w, call), Namespaced(key), cap, length, times, start, call.at, a)
  {
    if Namespaced(call.key) == Namespaced(key) { NamespacedInjective(call.key, key); }
    LaterStillBounded(w, AfterCall(w, call), Namespaced(key), cap, length, times, start, now, call.at, a);
  }

  lemma OwnCallStep(w: Windows, calls: seq<Call>, key: string, times: seq<int>)
    requires calls != [] && calls[0].Count? && calls[0].key == key
    ensures var c := calls[0];
      var counts := Hit(w, Namespaced(key), c.limit, c.windowSec, c.at).1.allowed;
      times + Through(w, calls, key) ==
      (if counts then times + [c.at] else times) +
      Through(AfterHit(w, Namespaced(key), c.limit, c.windowSec, c.at), calls[1..], key)
  {
  }

  lemma OtherCallStep(w: Windows, calls: seq<Call>, key: string)
    requires calls != [] && calls[0].key != key
    ensures Through(w, calls, key) == Through(AfterCall(w, calls[0]), calls[1..], key)
  {
  }

  lemma {:induction false} ThroughBounded(
      w: Windows, calls: seq<Call>, key: string, limit: int, sec: nat, times: seq<int>, start: int, now: int, a: int)
    requires Bounded(w, Namespaced(key), Max(1, limit), sec * 1000, times, start, now, a)
    requires Monotone(calls, now) && FixedUse(calls, key, limit, sec)
    ensures CountIn(times + Through(w, calls, key), a, a + sec * 1000) <= 2 * Max(1, limit)
    decreases |calls|
  {
    if calls == [] {
      assert times + [] == times;
    } else {
      var c := calls[0];
      assert FixedUse(calls[1..], key, limit, sec);
      if c.key == key {
        var counts := Hit(w, Namespaced(key), limit, sec, c.at).1.allowed;
        var began := OwnHitBounded(w, Namespaced(key), limit, sec, times, start, now, c.at, counts, a);
        OwnCallStep(w, calls, key, times);
        ThroughBounded(AfterHit(w, Namespaced(key), limit, sec, c.at), calls[1..], key, limit, sec,
                       if counts then times + [c.at] else times, began, c.at, a);
      } else {
        OtherCallBounded(w, c, key, Max(1, limit), sec * 1000, times, start, now, a);
        OtherCallStep(w, calls, key);
        ThroughBounded(AfterCall(w, c), calls[1..], key, limit, sec, times, start, c.at, a);
      }
    }
  }

  lemma FreshBounded(key: string, cap: nat, length: nat, from: int, a: int)
    requires length > 0
    ensures Bounded(map[], key, cap, length, [], from - length, from, a)
  {
  }

  /** A key always used with the same limit and window, and never cleared: any
      half-open interval one window long lets at most twice the limit through.
      (The first hit of a window is let through whatever the limit.) */
  lemma SlidingBound(calls: seq<Call>, key: string, limit: int, sec: nat, from: int, a: int)
    requires Monotone(calls, from) && FixedUse(calls, key, limit, sec)
    ensures CountIn(Through(map[], calls, key), a, a + sec * 1000) <= 2 * Max(1, limit)
  {
    if sec == 0 {
      CountEmpty(Through(map[], calls, key), a, a);
    } else {
      FreshBounded(Namespaced(key), Max(1, limit), sec * 1000, from, a);
      ThroughBounded(map[], calls, key, limit, sec, [], from - sec * 1000, from, a);
      assert [] + Through(map[], calls, key) == Through(map[], calls, key);
    }
  }

  // ----- the write budget ---------------------------------------------------------------------------

  /** Budgeted writes of one scope, with any other use of the limiter between. */
  datatype Use =
    | Write(ip: string, at: int)
    | Elsewhere(call: Call)

  function At(u: Use): int {
    match u case Write(_, at) => at case Elsewhere(c) => c.at
  }

  /** The time of the last use. */
  function LastAt(uses: seq<Use>, from: int): int {
    if uses == [] then from else At(uses[|uses| - 1])
  }

  predicate MonotoneUses(uses: seq<Use>, from: int) {
    uses == [] || (from <= At(uses[0]) && MonotoneUses(uses[1..], At(uses[0])))
  }

  datatype Budget = Budget(scope: string, ipLimit: int, ipWindow: nat, limit: int, window: nat)

  function GlobalKey(b: Budget): string { b.scope + ":all" }

  function AfterUse(w: Windows, b: Budget, u: Use): Windows {
    match u
    case Write(ip, at) => BudgetHits(w, b.scope, ip, b.ipLimit, b.ipWindow, b.limit, b.window, at).0
    case Elsewhere(c) => AfterCall(w, c)
  }

  function AfterUses(w: Windows, b: Budget, uses: seq<Use>): Windows
    decreases |uses|
  {
    if uses == [] then w else AfterUses(AfterUse(w, b, uses[0]), b, uses[1..])
  }

  /** The times of the writes that may proceed. */
  function Granted(w: Windows, b: Budget, uses: seq<Use>): seq<int>
    decreases |uses|
  {
    if uses == [] then [] else GrantedBy(w, b, uses[0]) + Granted(AfterUse(w, b, uses[0]), b, uses[1..])
  }

  function GrantedBy(w: Windows, b: Budget, u: Use): seq<int> {
    if u.Write? && BudgetHits(w, b.scope, u.ip, b.ipLimit, b.ipWindow, b.limit, b.window, u.at).1 then [u.at] else []
  }

  predicate GlobalKeyAlone(uses: seq<Use>, b: Budget) {
    forall i | 0 <= i < |uses| :: uses[i].Elsewhere? ==> uses[i].call.key != GlobalKey(b)
  }

  lemma IpKeyIsNotGlobal(scope: string, ip: string)
    ensures scope + ":ip:" + ip != scope + ":all"
  {
    assert (scope + ":ip:" + ip)[|scope| + 1] == 'i';
    assert (scope + ":all")[|scope| + 1] == 'a';
  }

  lemma UseBounded(w: Windows, b: Budget, u: Use, times: seq<int>, start: int, now: int, a: int)
    returns (began: int)
    requires Bounded(w, Namespaced(GlobalKey(b)), Max(1, b.limit), b.window * 1000, times, start, now, a)
    requires now <= At(u) && GlobalKeyAlone([u], b)
    ensures Bounded(AfterUse(w, b, u), Namespaced(GlobalKey(b)), Max(1, b.limit), b.window * 1000,
        times + GrantedBy(w, b, u), began, At(u), a)
  {
    assert u == [u][0];
    var cap, length := Max(1, b.limit), b.window * 1000;
    match u
    case Write(ip, at) =>
      var ipKey := b.scope + ":ip:" + if ip == "" then "unknown" else ip;
      IpKeyIsNotGlobal(b.scope, if ip == "" then "unknown" else ip);
      OtherCallBounded(w, Count(ipKey, b.ipLimit, b.ipWindow, at), GlobalKey(b), cap, length, times, start, now, a);
      var mid := AfterHit(w, Namespaced(ipKey), b.ipLimit, b.ipWindow, at);
      var granted := BudgetHits(w, b.scope, ip, b.ipLimit, b.ipWindow, b.limit, b.window, at).1;
      began := OwnHitBounded(mid, Namespaced(GlobalKey(b)), b.limit, b.window, times, start, at, at, granted, a);
      assert GrantedBy(w, b, u) == if granted then [at] else [];
      assert times + [] == times;
    case Elsewhere(call) =>
      OtherCallBounded(w, call, GlobalKey(b), cap, length, times, start, now, a);
      began := start;
      assert GrantedBy(w, b, u) == [] && times + [] == times;
  }

  lemma GrantedStep(w: Windows, b: Budget, uses: seq<Use>, times: seq<int>)
    requires uses != []
    ensures times + Granted(w, b, uses) ==
      (times + GrantedBy(w, b, uses[0])) + Granted(AfterUse(w, b, uses[0]), b, uses[1..])
  {
    SeqAssociates(times, GrantedBy(w, b, uses[0]), Granted(AfterUse(w, b, uses[0]), b, uses[1..]));
  }

  lemma SeqAssociates(a: seq<int>, b: seq<int>, c: seq<int>)
    ensures a + (b + c) == (a + b) + c
  {
  }

  lemma {:induction false} UsesBounded(
      w: Windows, b: Budget, uses: seq<Use>, times: seq<int>, start: int, now: int, a: int)
    returns (began: int, end: int)
    requires Bounded(w, Namespaced(GlobalKey(b)), Max(1, b.limit), b.window * 1000, times, start, now, a)
    requires MonotoneUses(uses, now) && GlobalKeyAlone(uses, b)
    ensures Bounded(AfterUses(w, b, uses), Namespaced(GlobalKey(b)), Max(1, b.limit), b.window * 1000,
        times + Granted(w, b, uses), began, end, a)
    ensures end == if uses == [] then now else At(uses[|uses| - 1])
    decreases |uses|
  {
    if uses == [] {
      began, end := start, now;
      assert times + [] == times;
    } else {
      assert [uses[0]][0] == uses[0] && GlobalKeyAlone([uses[0]], b) && GlobalKeyAlone(uses[1..], b);
      var mid := UseBounded(w, b, uses[0], times, start, now, a);
      GrantedStep(w, b, uses, times);
      began, end := UsesBounded(
        AfterUse(w, b, uses[0]), b, uses[1..], times + GrantedBy(w, b, uses[0]), mid, At(uses[0]), a);
    }
  }

  lemma BoundedMeans(w: Windows, key: string, cap: int, length: nat, times: seq<int>, start: int, now: int, a: int)
    requires Bounded(w, key, cap, length, times, start, now, a)
    ensures Running(w, key, now) ==> CountIn(times, w[key].resetAt - length, now + 1) <= cap
    ensures CountIn(times, a, a + length) <= 2 * cap
  {
  }

  /** Where the global window stands after a run of budgeted writes. */
  ghost predicate BudgetOk(b: Budget, w: Windows, times: seq<int>, now: int, a: int) {
    exists start: int :: Bounded(w, Namespaced(GlobalKey(b)), Max(1, b.limit), b.window * 1000, times, start, now, a)
  }

  /** The global window running at `now`, if there is one, has granted no more
      than its limit since it began. */
  predicate WithinWindow(b: Budget, w: Windows, times: seq<int>, now: int) {
    var key := Namespaced(GlobalKey(b));
    Running(w, key, now) ==> CountIn(times, w[key].resetAt - b.window * 1000, now + 1) <= Max(1, b.limit)
  }

  lemma BudgetOkMeans(b: Budget, w: Windows, times: seq<int>, now: int, a: int)
    requires BudgetOk(b, w, times, now, a)
    ensures CountIn(times, a, a + b.window * 1000) <= 2 * Max(1, b.limit)
    ensures WithinWindow(b, w, times, now)
  {
    var start: int :| Bounded(w, Namespaced(GlobalKey(b)), Max(1, b.limit), b.window * 1000, times, start, now, a);
    BoundedMeans(w, Namespaced(GlobalKey(b)), Max(1, b.limit), b.window * 1000, times, start, now, a);
  }

  lemma BudgetRun(b: Budget, uses: seq<Use>, from: int, a: int)
    requires MonotoneUses(uses, from) && GlobalKeyAlone(uses, b) && b.window > 0
    ensures BudgetOk(b, AfterUses(map[], b, uses), Granted(map[], b, uses), LastAt(uses, from), a)
  {
    FreshBounded(Namespaced(GlobalKey(b)), Max(1, b.limit), b.window * 1000, from, a);
    var began, end := UsesBounded(map[], b, uses, [], from - b.window * 1000, from, a);
    assert [] + Granted(map[], b, uses) == Granted(map[], b, uses);
  }

  /** Whatever addresses the callers claim, no interval of a window's length sees
      more than twice the global limit. */
  lemma WriteBudgetSlidingBound(b: Budget, uses: seq<Use>, from: int, a: int)
    requires MonotoneUses(uses, from) && GlobalKeyAlone(uses, b)
    ensures CountIn(Granted(map[], b, uses), a, a + b.window * 1000) <= 2 * Max(1, b.limit)
  {
    if b.window == 0 {
      CountEmpty(Granted(map[], b, uses), a, a);
    } else {
      BudgetRun(b, uses, from, a);
      BudgetOkMeans(b, AfterUses(map[], b, uses), Granted(map[], b, uses), LastAt(uses, from), a);
    }
  }

  /** And if a global window is running, no more writes than its limit have been
      granted since it began. */
  lemma WriteBudgetWindowBound(b: Budget, uses: seq<Use>, from: int)
    requires MonotoneUses(uses, from) && GlobalKeyAlone(uses, b) && b.window > 0
    ensures WithinWindow(b, AfterUses(map[], b, uses), Granted(map[], b, uses), LastAt(uses, from))
  {
    BudgetRun(b, uses, from, 0);
    BudgetOkMeans(b, AfterUses(map[], b, uses), Granted(map[], b, uses), LastAt(uses, from), 0);
  }
}
