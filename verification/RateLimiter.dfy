/** Per-key rate limiting with fixed windows that start at a key's first request. */
module RateLimiter {
  import opened Text

  datatype Window = Window(count: int, resetAt: int)

  /** One decision of Allow for a key. */
  function Decide(w: Option<Window>, limit: int, size: int, now: int): (Window, bool) {
    if w.None? || now > w.value.resetAt then (Window(1, now + size), true)
    else if w.value.count >= limit then (w.value, false)
    else (w.value.(count := w.value.count + 1), true)
  }

  class Limiter {
    const limit: int
    const size: int
    var windows: map<string, Window>

    ghost function WindowOf(key: string): Option<Window> reads this`windows {
      if key in windows then Some(windows[key]) else None
    }

    constructor (limit: int, size: int)
      ensures this.limit == limit && this.size == size && windows == map[]
    {
      this.limit, this.size, windows := limit, size, map[];
    }

    method Allow(key: string, now: int) returns (ok: bool)
      modifies this`windows
      ensures key in windows && (windows[key], ok) == Decide(old(WindowOf(key)), limit, size, now)
      ensures forall q :: q != key ==> WindowOf(q) == old(WindowOf(q))
    {
      if key !in windows || now > windows[key].resetAt {
        windows := windows[key := Window(1, now + size)];
        return true;
      }
      var w := windows[key];
      if w.count >= limit { return false; }
      windows := windows[key := w.(count := w.count + 1)];
      return true;
    }

    /** Remaining, for a limit of at least 1: something remains exactly when the next request at that time is allowed, and so
        many are allowed at that time and not one more. */
    method Remaining(key: string, now: int) returns (n: int)
      ensures limit >= 1 ==> n >= 0 && (n > 0 <==> Decide(WindowOf(key), limit, size, now).1)
      ensures limit >= 1 && size >= 0 ==> forall m: nat :: Granted(WindowOf(key), limit, size, now, m) == if m <= n then m else n
    {
      if limit >= 1 && size >= 0 {
        forall m: nat ensures Granted(WindowOf(key), limit, size, now, m) == Least(m, Left(WindowOf(key), limit, now)) {
          GrantedIs(WindowOf(key), limit, size, now, m);
        }
      }
      if key !in windows || now > windows[key].resetAt { return limit; }
      n := limit - windows[key].count;
      if n < 0 { n := 0; }
    }
  }

  // ---- what remains ----

  /** How many of the next `m` requests, all at the same time, are allowed. */
  function Granted(w: Option<Window>, limit: int, size: int, now: int, m: nat): nat
    decreases m
  {
    if m == 0 then 0
    else
      var (w', ok) := Decide(w, limit, size, now);
      (if ok then 1 else 0) + Granted(Some(w'), limit, size, now, m - 1)
  }

  function Least(a: nat, b: nat): nat {
    if a <= b then a else b
  }

  function Left(w: Option<Window>, limit: int, now: int): nat
    requires limit >= 1
  {
    if w.None? || now > w.value.resetAt then limit else if w.value.count >= limit then 0 else limit - w.value.count
  }

  lemma {:induction false} GrantedIs(w: Option<Window>, limit: int, size: int, now: int, m: nat)
    requires limit >= 1 && size >= 0
    ensures Granted(w, limit, size, now, m) == Least(m, Left(w, limit, now))
    decreases m
  {
    if m > 0 { GrantedIs(Some(Decide(w, limit, size, now).0), limit, size, now, m - 1); }
  }

  // ---- whole histories of one key ----

  /** The window after the first `n` requests; the requests come at these times. */
  function After(limit: int, size: int, times: seq<int>, n: nat): Option<Window>
    requires n <= |times|
  {
    if n == 0 then None else Some(Decide(After(limit, size, times, n - 1), limit, size, times[n - 1]).0)
  }

  /** How many of the first `n` requests that came at or after `from` were allowed. */
  function Allowed(limit: int, size: int, times: seq<int>, n: nat, from: int): nat
    requires n <= |times|
  {
    if n == 0 then 0
    else
      Allowed(limit, size, times, n - 1, from)
      + if times[n - 1] >= from && Decide(After(limit, size, times, n - 1), limit, size, times[n - 1]).1 then 1 else 0
  }

  predicate Sorted(times: seq<int>) {
    forall i, j :: 0 <= i <= j < |times| ==> times[i] <= times[j]
  }

  function AtLeastOne(limit: int): (l: nat)
    ensures l >= 1
  {
    if limit < 1 then 1 else limit
  }

  /** What the current window says about any span of its length that reaches up to now: a span that starts behind the
      window's first request sees only the others of its count; an earlier one sees at most a full window more. */
  lemma {:induction false} WindowCovers(limit: int, size: int, times: seq<int>, n: nat, from: int)
    requires size >= 0 && Sorted(times) && 1 <= n <= |times| && times[n - 1] - from <= size
    ensures var w := After(limit, size, times, n).value;
            && 1 <= w.count <= AtLeastOne(limit)
            && w.resetAt - size <= times[n - 1] <= w.resetAt
            && Allowed(limit, size, times, n, from) <= w.count - 1 + (if from > w.resetAt - size then 0 else AtLeastOne(limit))
  {
    if n == 1 {
      assert Allowed(limit, size, times, 0, from) == 0;
    } else {
      assert times[n - 2] <= times[n - 1];
      WindowCovers(limit, size, times, n - 1, from);
      if from > times[n - 1] { NoneLater(limit, size, times, n - 1, from); }
    }
  }

  lemma {:induction false} NoneLater(limit: int, size: int, times: seq<int>, n: nat, from: int)
    requires Sorted(times) && n <= |times| && (n > 0 ==> times[n - 1] < from)
    ensures Allowed(limit, size, times, n, from) == 0
  {
    if n > 0 {
      if n > 1 { assert times[n - 2] <= times[n - 1]; }
      NoneLater(limit, size, times, n - 1, from);
    }
  }

  /** In any span as long as the window, both ends included, fewer than twice the limit are allowed. A limit below 1 counts
      as 1: the first request of a window is always let through. */
  lemma {:induction false} UnderTwiceTheLimit(limit: int, size: int, times: seq<int>, from: int)
    requires size >= 0 && Sorted(times) && times != [] && times[|times| - 1] - from <= size
    ensures Allowed(limit, size, times, |times|, from) <= 2 * AtLeastOne(limit) - 1
  {
    WindowCovers(limit, size, times, |times|, from);
  }

  /** The window counts what was allowed since it began. */
  lemma {:induction false} WindowCounts(limit: int, size: int, times: seq<int>, n: nat)
    requires size >= 0 && Sorted(times) && 1 <= n <= |times|
    ensures var w := After(limit, size, times, n).value;
            w.resetAt - size <= times[n - 1] && Allowed(limit, size, times, n, w.resetAt - size) >= w.count
  {
    if n > 1 {
      assert times[n - 2] <= times[n - 1];
      WindowCounts(limit, size, times, n - 1);
    }
  }

  /** A request is refused only if so many as the limit were already allowed in the length of a window up to it. */
  lemma {:induction false} RefusedOnlyWhenFull(limit: int, size: int, times: seq<int>, n: nat)
    requires size >= 0 && Sorted(times) && n < |times| && !Decide(After(limit, size, times, n), limit, size, times[n]).1
    ensures Allowed(limit, size, times, n, times[n] - size) >= limit
  {
    WindowCounts(limit, size, times, n);
    MoreWhenLonger(limit, size, times, n, times[n] - size, After(limit, size, times, n).value.resetAt - size);
  }

  lemma {:induction false} MoreWhenLonger(limit: int, size: int, times: seq<int>, n: nat, from: int, from': int)
    requires n <= |times| && from <= from'
    ensures Allowed(limit, size, times, n, from) >= Allowed(limit, size, times, n, from')
  {
    if n > 0 { MoreWhenLonger(limit, size, times, n - 1, from, from'); }
  }

  // ---- and no smaller bound holds ----

  /** One request, the rest of the limit at the end of its window, and the whole limit right behind it. */
  function Rush(limit: nat, size: nat): seq<int> {
    seq(2 * limit, i => if i == 0 then 0 else if i < limit then size else size + 1)
  }

  lemma {:induction false} RushAllowed(limit: nat, size: nat, n: nat)
    requires size >= 1 && 1 <= n <= 2 * limit
    ensures var times := Rush(limit, size);
            && After(limit, size, times, n) == Some(if n <= limit then Window(n, size) else Window(n - limit, 2 * size + 1))
            && Allowed(limit, size, times, n, size) == n - 1
  {
    if n == 1 {
      assert After(limit, size, Rush(limit, size), 0) == None;
    } else {
      RushAllowed(limit, size, n - 1);
    }
  }

  /** Within two units of time all but one of twice the limit are allowed. */
  lemma {:induction false} BoundIsReached(limit: nat, size: nat)
    requires limit >= 1 && size >= 1
    ensures var times := Rush(limit, size);
            Sorted(times) && times[|times| - 1] == size + 1 && Allowed(limit, size, times, |times|, size) == 2 * limit - 1
  {
    RushAllowed(limit, size, 2 * limit);
  }
}
