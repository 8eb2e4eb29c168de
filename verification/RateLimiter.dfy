/**
 * The request rate limiter: a token bucket per key that refills when its window
 * expires, with a sweep of stale buckets that runs when the table grows large.
 * Time is a natural number read from a monotone clock.
 */
module RateLimiting {

  datatype Bucket = Bucket(tokens: int, lastReset: nat)

  datatype Request = Request(now: nat, key: string)

  type Table = map<string, Bucket>

  const SWEEP_SIZE := 100

  predicate StaleAt(b: Bucket, now: nat, window: int) {
    b.lastReset < now - 2 * window
  }

  /** The table after the sweep at the start of a call. */
  function Swept(t: Table, now: nat, window: int): Table {
    if |t| > SWEEP_SIZE then
      map k | k in t && !StaleAt(t[k], now, window) :: t[k]
    else t
  }

  /** The token decision on its own, without any sweep. */
  function Spend(t: Table, limit: int, window: int, req: Request): (Table, bool) {
    if req.key !in t || req.now - t[req.key].lastReset >= window then
      (t[req.key := Bucket(limit - 1, req.now)], true)
    else if t[req.key].tokens <= 0 then
      (t, false)
    else
      (t[req.key := t[req.key].(tokens := t[req.key].tokens - 1)], true)
  }

  function AllowNext(t: Table, limit: int, window: int, req: Request): (Table, bool) {
    Spend(Swept(t, req.now, window), limit, window, req)
  }

  /** Only beyond 100 buckets, and then exactly those untouched for more than two windows, are buckets swept. */
  lemma {:induction false} SweptExactly(t: Table, now: nat, window: int, key: string)
    ensures key in Swept(t, now, window) <==> key in t && (|t| > 100 ==> now - t[key].lastReset <= 2 * window)
    ensures key in Swept(t, now, window) ==> Swept(t, now, window)[key] == t[key]
  {
  }

  class RateLimiter {
    const limit: int
    const window: int
    var buckets: Table

    constructor (limit: int, window: int)
      ensures this.limit == limit && this.window == window && buckets == map[]
    {
      this.limit := limit;
      this.window := window;
      buckets := map[];
    }

    /** One call: sweep key by key, then spend a token. */
    method Allow(now: nat, key: string) returns (allowed: bool)
      modifies this`buckets
      ensures (buckets, allowed) == AllowNext(old(buckets), limit, window, Request(now, key))
    {
      if |buckets| > SWEEP_SIZE {
        var todo := buckets.Keys;
        while todo != {}
          invariant todo <= old(buckets).Keys
          invariant forall k :: k in todo ==> k in buckets && buckets[k] == old(buckets)[k]
          invariant forall k :: k in buckets ==> k in old(buckets) && buckets[k] == old(buckets)[k]
          invariant forall k :: k in old(buckets) && k !in todo ==>
                                  (k in buckets <==> !StaleAt(old(buckets)[k], now, window))
          decreases |todo|
        {
          var k :| k in todo;
          if StaleAt(buckets[k], now, window) {
            buckets := buckets - {k};
          }
          todo := todo - {k};
        }
      }
      assert buckets == Swept(old(buckets), now, window);
      if key !in buckets || now - buckets[key].lastReset >= window {
        buckets := buckets[key := Bucket(limit - 1, now)];
        return true;
      }
      if buckets[key].tokens <= 0 {
        return false;
      }
      buckets := buckets[key := buckets[key].(tokens := buckets[key].tokens - 1)];
      return true;
    }
  }

  /** Table and decisions after a whole run of the limiter from an empty table. */
  function Run(limit: int, window: int, reqs: seq<Request>): (r: (Table, seq<bool>))
    ensures |r.1| == |reqs|
  {
    if reqs == [] then (map[], [])
    else
      var before := Run(limit, window, reqs[..|reqs| - 1]);
      var step := AllowNext(before.0, limit, window, reqs[|reqs| - 1]);
      (step.0, before.1 + [step.1])
  }

  /** The same run of a limiter that never forgets a bucket. */
  function PlainRun(limit: int, window: int, reqs: seq<Request>): (r: (Table, seq<bool>))
    ensures |r.1| == |reqs|
  {
    if reqs == [] then (map[], [])
    else
      var before := PlainRun(limit, window, reqs[..|reqs| - 1]);
      var step := Spend(before.0, limit, window, reqs[|reqs| - 1]);
      (step.0, before.1 + [step.1])
  }

  ghost predicate Monotone(reqs: seq<Request>) {
    forall i, j :: 0 <= i < j < |reqs| ==> reqs[i].now <= reqs[j].now
  }

  /** What the sweeping table may have lost: only buckets that are already stale. */
  ghost predicate Agree(swept: Table, plain: Table, now: nat, window: int) {
    && swept.Keys <= plain.Keys
    && (forall k :: k in swept ==> swept[k] == plain[k])
    && (forall k :: k in plain && k !in swept ==> StaleAt(plain[k], now, window))
    && (forall k :: k in plain ==> plain[k].lastReset <= now)
  }

  lemma {:induction false} StepAgrees(swept: Table, plain: Table, limit: int, window: int, before: nat, req: Request)
    requires before <= req.now
    requires Agree(swept, plain, before, window)
    ensures AllowNext(swept, limit, window, req).1 == Spend(plain, limit, window, req).1
    ensures Agree(AllowNext(swept, limit, window, req).0, Spend(plain, limit, window, req).0, req.now, window)
  {
    var s := Swept(swept, req.now, window);
    assert Agree(s, plain, req.now, window);
    if req.key in plain && req.key !in s {
      assert StaleAt(plain[req.key], req.now, window);
      assert req.now - plain[req.key].lastReset >= window;
    }
  }

  lemma {:induction false} RunsAgree(limit: int, window: int, reqs: seq<Request>)
    requires Monotone(reqs)
    ensures Run(limit, window, reqs).1 == PlainRun(limit, window, reqs).1
    ensures Agree(Run(limit, window, reqs).0, PlainRun(limit, window, reqs).0,
                  if reqs == [] then 0 else reqs[|reqs| - 1].now, window)
  {
    if reqs != [] {
      var init, last := reqs[..|reqs| - 1], reqs[|reqs| - 1];
      RunsAgree(limit, window, init);
      StepAgrees(Run(limit, window, init).0, PlainRun(limit, window, init).0, limit, window,
                 if init == [] then 0 else init[|init| - 1].now, last);
    }
  }

  /** Sweeping stale buckets never changes a decision, for any limit and window. */
  lemma {:induction false} SweepingIsInvisible(limit: int, window: int, reqs: seq<Request>)
    requires Monotone(reqs)
    ensures Run(limit, window, reqs).1 == PlainRun(limit, window, reqs).1
  {
    RunsAgree(limit, window, reqs);
  }

  // ---- which requests are allowed

  /** The window a key is in: when it opened, and how many requests of the key came in it, allowed or not. */
  datatype Window = Closed | Open(start: nat, count: nat)

  predicate Over(w: Window, now: nat, window: int) { w.Closed? || now - w.start >= window }

  /** A request opens a new window when the last one is over; otherwise it counts in it. */
  function WindowOf(window: int, reqs: seq<Request>, key: string): Window {
    if reqs == [] then Closed
    else
      var w, r := WindowOf(window, reqs[..|reqs| - 1], key), reqs[|reqs| - 1];
      if r.key != key then w
      else if Over(w, r.now, window) then Open(r.now, 1)
      else w.(count := w.count + 1)
  }

  /** What a bucket says about the window it belongs to. */
  ghost predicate Mirrors(t: Table, key: string, w: Window, limit: int) {
    && (key in t <==> w.Open?)
    && (w.Open? ==>
      && w.count >= 1 && t[key].lastReset == w.start
      && t[key].tokens == if w.count <= limit then limit - w.count else if limit >= 1 then 0 else limit - 1)
  }

  lemma {:induction false} BucketsMirror(limit: int, window: int, reqs: seq<Request>, key: string)
    ensures Mirrors(PlainRun(limit, window, reqs).0, key, WindowOf(window, reqs, key), limit)
  {
    if reqs != [] { BucketsMirror(limit, window, reqs[..|reqs| - 1], key); }
  }

  /**
   * In every run a request is allowed exactly when it opens a new window, or fewer than
   * `limit` requests of its key came before it in this one. So a refused request neither
   * counts as one of the allowed nor puts off the end of the window.
   */
  lemma {:induction false} AllowedExactly(limit: int, window: int, reqs: seq<Request>)
    requires Monotone(reqs) && reqs != []
    ensures var n := |reqs| - 1;
      var w := WindowOf(window, reqs[..n], reqs[n].key);
      Run(limit, window, reqs).1[n] <==> Over(w, reqs[n].now, window) || w.count < limit
  {
    var n := |reqs| - 1;
    BucketsMirror(limit, window, reqs[..n], reqs[n].key);
    SweepingIsInvisible(limit, window, reqs);
  }

  /** Requests of `key` allowed at a time in `[from, from + window)`. */
  function AllowedIn(reqs: seq<Request>, decisions: seq<bool>, key: string, from: int, window: int): nat
    requires |reqs| == |decisions|
  {
    if reqs == [] then 0
    else
      var n := |reqs| - 1;
      AllowedIn(reqs[..n], decisions[..n], key, from, window)
      + if decisions[n] && reqs[n].key == key && from <= reqs[n].now < from + window then 1 else 0
  }

  lemma {:induction false} NothingBefore(reqs: seq<Request>, decisions: seq<bool>, key: string, from: int, window: int)
    requires |reqs| == |decisions|
    requires forall i :: 0 <= i < |reqs| ==> reqs[i].now < from
    ensures AllowedIn(reqs, decisions, key, from, window) == 0
  {
    if reqs != [] {
      var n := |reqs| - 1;
      NothingBefore(reqs[..n], decisions[..n], key, from, window);
    }
  }

  /** How many requests the interval can have let through, given the bucket left behind. */
  ghost predicate Budget(t: Table, key: string, allowed: nat, limit: int, from: int, window: int) {
    && allowed <= 2 * limit - 1
    && (key !in t ==> allowed == 0)
    && (key in t ==>
      && 0 <= t[key].tokens <= limit - 1
      && (t[key].lastReset < from ==> allowed <= limit - 1 - t[key].tokens)
      && (from <= t[key].lastReset < from + window ==> allowed <= 2 * limit - 1 - t[key].tokens))
  }

  lemma {:induction false} BudgetHolds(limit: int, window: int, reqs: seq<Request>, key: string, from: int)
    requires Monotone(reqs) && limit >= 1 && window > 0
    ensures Budget(PlainRun(limit, window, reqs).0, key,
                   AllowedIn(reqs, PlainRun(limit, window, reqs).1, key, from, window), limit, from, window)
  {
    if reqs != [] {
      var n := |reqs| - 1;
      BudgetHolds(limit, window, reqs[..n], key, from);
      RunsAgree(limit, window, reqs[..n]);
      var now := PlainRun(limit, window, reqs);
      assert now.1[..n] == PlainRun(limit, window, reqs[..n]).1;
      if reqs[n].now < from {
        NothingBefore(reqs, now.1, key, from, window);
        NothingBefore(reqs[..n], now.1[..n], key, from, window);
      }
    }
  }

  /** No interval of one window length lets through more than `2 * limit - 1` requests of a key. */
  lemma {:induction false} WindowBound(limit: int, window: int, reqs: seq<Request>, key: string, from: int)
    requires Monotone(reqs) && limit >= 1 && window > 0
    ensures AllowedIn(reqs, Run(limit, window, reqs).1, key, from, window) <= 2 * limit - 1
  {
    RunsAgree(limit, window, reqs);
    BudgetHolds(limit, window, reqs, key, from);
  }

  /** `n` requests of `key`, all at time `at`. */
  function Burst(key: string, at: nat, n: nat): seq<Request> {
    if n == 0 then [] else Burst(key, at, n - 1) + [Request(at, key)]
  }

  lemma {:induction false} BurstTimes(key: string, at: nat, n: nat)
    ensures |Burst(key, at, n)| == n
    ensures forall i :: 0 <= i < n ==> Burst(key, at, n)[i] == Request(at, key)
  {
    if n > 0 {
      BurstTimes(key, at, n - 1);
    }
  }

  /** A run of one more request is the run so far and one `Spend`. */
  lemma {:induction false} PlainRunSnoc(limit: int, window: int, pre: seq<Request>, req: Request, key: string, from: int)
    ensures var before, after := PlainRun(limit, window, pre), PlainRun(limit, window, pre + [req]);
            var step := Spend(before.0, limit, window, req);
            && after.0 == step.0
            && AllowedIn(pre + [req], after.1, key, from, window)
               == AllowedIn(pre, before.1, key, from, window)
                  + if step.1 && req.key == key && from <= req.now < from + window then 1 else 0
  {
    var all := pre + [req];
    assert all[..|all| - 1] == pre;
    var d := PlainRun(limit, window, all).1;
    assert d[..|d| - 1] == PlainRun(limit, window, pre).1;
  }

  /** After `reqs`, `key` holds bucket `b` and the interval has let `allowed` requests through. */
  ghost predicate Reaches(limit: int, window: int, reqs: seq<Request>, key: string, from: int, b: Bucket, allowed: nat) {
    && key in PlainRun(limit, window, reqs).0
    && PlainRun(limit, window, reqs).0[key] == b
    && AllowedIn(reqs, PlainRun(limit, window, reqs).1, key, from, window) == allowed
  }

  lemma {:induction false} SpendOne(limit: int, window: int, pre: seq<Request>, key: string, from: int, b: Bucket, allowed: nat, at: nat)
    requires Reaches(limit, window, pre, key, from, b, allowed)
    requires at - b.lastReset < window && b.tokens > 0 && from <= at < from + window
    ensures Reaches(limit, window, pre + [Request(at, key)], key, from, b.(tokens := b.tokens - 1), allowed + 1)
  {
    PlainRunSnoc(limit, window, pre, Request(at, key), key, from);
  }

  lemma {:induction false} SpendBurst(limit: int, window: int, pre: seq<Request>, key: string, from: int,
                                      b: Bucket, allowed: nat, at: nat, n: nat)
    requires Reaches(limit, window, pre, key, from, b, allowed)
    requires at - b.lastReset < window && n <= b.tokens && from <= at < from + window
    ensures Reaches(limit, window, pre + Burst(key, at, n), key, from, b.(tokens := b.tokens - n), allowed + n)
  {
    if n == 0 {
      assert pre + Burst(key, at, 0) == pre;
    } else {
      SpendBurst(limit, window, pre, key, from, b, allowed, at, n - 1);
      SpendOne(limit, window, pre + Burst(key, at, n - 1), key, from, b.(tokens := b.tokens - (n - 1)), allowed + n - 1, at);
      assert pre + Burst(key, at, n) == pre + Burst(key, at, n - 1) + [Request(at, key)];
    }
  }

  /** One request, `limit - 1` just before the window ends, `limit` right after it ends. */
  function WorstCase(limit: int, window: int, key: string): seq<Request>
    requires limit >= 1 && window >= 2
  {
    [Request(0, key)] + Burst(key, window - 1, limit - 1) + [Request(window, key)] + Burst(key, window, limit - 1)
  }

  lemma {:induction false} WorstCaseMonotone(limit: int, window: int, key: string)
    requires limit >= 1 && window >= 2
    ensures Monotone(WorstCase(limit, window, key))
  {
    BurstTimes(key, window - 1, limit - 1);
    BurstTimes(key, window, limit - 1);
  }

  /** A request that finds no live bucket opens a full one. */
  lemma {:induction false} Refill(limit: int, window: int, pre: seq<Request>, key: string, from: int, at: nat)
    requires var t := PlainRun(limit, window, pre).0; key !in t || at - t[key].lastReset >= window
    ensures Reaches(limit, window, pre + [Request(at, key)], key, from, Bucket(limit - 1, at),
                    AllowedIn(pre, PlainRun(limit, window, pre).1, key, from, window)
                    + if from <= at < from + window then 1 else 0)
  {
    PlainRunSnoc(limit, window, pre, Request(at, key), key, from);
  }

  lemma {:induction false} WorstCaseHalfway(limit: int, window: int, key: string)
    requires limit >= 1 && window >= 2
    ensures Reaches(limit, window, [Request(0, key)] + Burst(key, window - 1, limit - 1), key, window - 1,
                    Bucket(0, 0), limit - 1)
  {
    Refill(limit, window, [], key, window - 1, 0);
    assert [] + [Request(0, key)] == [Request(0, key)];
    SpendBurst(limit, window, [Request(0, key)], key, window - 1, Bucket(limit - 1, 0), 0, window - 1, limit - 1);
  }

  lemma {:induction false} WorstCaseReached(limit: int, window: int, key: string)
    requires limit >= 1 && window >= 2
    ensures Reaches(limit, window, WorstCase(limit, window, key), key, window - 1, Bucket(0, window), 2 * limit - 1)
  {
    WorstCaseHalfway(limit, window, key);
    var half := [Request(0, key)] + Burst(key, window - 1, limit - 1);
    Refill(limit, window, half, key, window - 1, window);
    SpendBurst(limit, window, half + [Request(window, key)], key, window - 1, Bucket(limit - 1, window), limit, window, limit - 1);
  }

  /** The bound of `WindowBound` is the best possible one, for every limit and every window of two ticks or more. */
  lemma {:induction false} WindowBoundIsTight(limit: int, window: int, key: string)
    requires limit >= 1 && window >= 2
    ensures Monotone(WorstCase(limit, window, key))
    ensures AllowedIn(WorstCase(limit, window, key), Run(limit, window, WorstCase(limit, window, key)).1,
                      key, window - 1, window) == 2 * limit - 1
  {
    WorstCaseReached(limit, window, key);
    WorstCaseMonotone(limit, window, key);
    SweepingIsInvisible(limit, window, WorstCase(limit, window, key));
  }
}
