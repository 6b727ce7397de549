// Fixed-window rate limiting: the per-account limiter of the billing service and the per-address
// middleware, and the bound they give on every sliding interval.
module FixedWindow {
  // The window a key is in, and the units it has let through.
  datatype Window = Window(start: int, count: int)
  type Windows = map<string, Window>

  datatype Request = Request(key: string, time: int, count: nat, limit: int)

  // The window a request falls in: a new one when there is none or it is over.
  function Current(ws: Windows, key: string, now: int, length: int): Window {
    if key !in ws || now - ws[key].start >= length then Window(now, 0) else ws[key]
  }

  // The windows after a request, and whether it is let through.
  function Admit(ws: Windows, r: Request, length: int): (Windows, bool) {
    var w := Current(ws, r.key, r.time, length);
    if w.count + r.count > r.limit then (ws[r.key := w], false)
    else (ws[r.key := Window(w.start, w.count + r.count)], true)
  }

  function After(rs: seq<Request>, length: int): Windows {
    if rs == [] then map[] else Admit(After(rs[..|rs| - 1], length), rs[|rs| - 1], length).0
  }

  // Units of `key` let through at times in [lo, hi).
  function Units(rs: seq<Request>, key: string, lo: int, hi: int, length: int): nat {
    if rs == [] then 0
    else
      var init, r := rs[..|rs| - 1], rs[|rs| - 1];
      Units(init, key, lo, hi, length) +
      (if r.key == key && lo <= r.time < hi && Admit(After(init, length), r, length).1 then r.count else 0)
  }

  // Units let through in the interval of one window length that starts at `lo`.
  function InWindow(rs: seq<Request>, key: string, lo: int, length: int): nat {
    Units(rs, key, lo, lo + length, length)
  }

  // ---- The billing limiter ----

  const RATE_WINDOW_MS: int := 60_000

  class AccountRateLimiter {
    var rateWindows: Windows

    constructor ()
      ensures rateWindows == map[]
    {
      rateWindows := map[];
    }

    // assertRateLimit; false is the 429 answer.
    method AssertRateLimit(accountId: string, rpm: int, count: nat, now: int) returns (ok: bool)
      modifies this
      ensures (rateWindows, ok) == Admit(old(rateWindows), Request(accountId, now, count, rpm), 60_000)
    {
      var entry: Window;
      if accountId !in rateWindows || now - rateWindows[accountId].start >= RATE_WINDOW_MS {
        entry := Window(now, 0);
        rateWindows := rateWindows[accountId := entry];
      } else {
        entry := rateWindows[accountId];
      }
      if entry.count + count > rpm {
        assert rateWindows == old(rateWindows)[accountId := entry];
        return false;
      }
      rateWindows := rateWindows[accountId := Window(entry.start, entry.count + count)];
      assert rateWindows == old(rateWindows)[accountId := Window(entry.start, entry.count + count)];
      return true;
    }
  }

  // ---- The public middleware ----

  datatype WindowState = WindowState(count: nat, resetAt: int)

  // The middleware also counts the requests it refuses, so its counter runs past the limit.
  ghost predicate Mirrors(states: map<string, WindowState>, ws: Windows, windowMs: int, max: nat) {
    && states.Keys == ws.Keys
    && forall k | k in states ::
         states[k].resetAt == ws[k].start + windowMs &&
         ws[k].count == if states[k].count <= max then states[k].count else max
  }

  // What the middleware asks of the limiter for a request: one unit under its own limit.
  predicate OneUnitEach(rs: seq<Request>, max: nat) {
    forall i | 0 <= i < |rs| :: rs[i].count == 1 && rs[i].limit == max
  }

  class PublicRateLimiter {
    const windowMs: int
    const max: nat
    var windows: map<string, WindowState>
    // All requests handled so far.
    ghost var asked: seq<Request>

    ghost predicate Valid()
      reads this
    {
      Mirrors(windows, After(asked, windowMs), windowMs, max) && OneUnitEach(asked, max)
    }

    constructor (windowMs: int, max: nat)
      ensures Valid() && asked == [] && this.windowMs == windowMs && this.max == max
    {
      this.windowMs, this.max := windowMs, max;
      windows, asked := map[], [];
    }

    // The window logic of createPublicRateLimitMiddleware for one bucket: lets a request through
    // exactly when a limiter counting one unit per admitted request does.
    method Handle(key: string, now: int) returns (ok: bool)
      requires Valid()
      modifies this
      ensures Valid() && asked == old(asked) + [Request(key, now, 1, max)]
      ensures ok == Admit(After(old(asked), windowMs), Request(key, now, 1, max), windowMs).1
    {
      hide After;
      var state: WindowState;
      if key !in windows || now >= windows[key].resetAt {
        state := WindowState(0, now + windowMs);
      } else {
        state := windows[key];
      }
      state := state.(count := state.count + 1);
      windows := windows[key := state];
      ok := state.count <= max;
      AfterSnoc(asked, Request(key, now, 1, max), windowMs);
      asked := asked + [Request(key, now, 1, max)];
    }

    // Whatever requests it has handled under a non-decreasing clock, an interval of one window length lets
    // through at most 2 * max - 1 requests of an address.
    lemma AddressBound(key: string, lo: int)
      requires Valid() && windowMs > 0
      requires forall i, j | 0 <= i < j < |asked| :: asked[i].time <= asked[j].time
      ensures InWindow(asked, key, lo, windowMs) <= if max == 0 then 0 else 2 * max - 1
    {
      SlidingBound(asked, key, windowMs, max, if max == 0 then 0 else 1);
    }
  }

  // ---- Sliding bound ----

  // A non-decreasing clock, and no limit in force above `limit`. With `slack` 1, every request also
  // asks for at least one unit and no more than its limit.
  predicate Orderly(rs: seq<Request>, limit: nat, slack: nat) {
    && slack <= 1 && slack <= limit
    && (forall i, j | 0 <= i < j < |rs| :: rs[i].time <= rs[j].time)
    && (forall i | 0 <= i < |rs| :: rs[i].limit <= limit)
    && (slack == 1 ==> forall i | 0 <= i < |rs| :: 1 <= rs[i].count <= rs[i].limit)
  }

  predicate Before(rs: seq<Request>, key: string, t: int) {
    forall i | 0 <= i < |rs| && rs[i].key == key :: rs[i].time < t
  }

  lemma {:induction false} UnitsSplit(rs: seq<Request>, key: string, lo: int, mid: int, hi: int, length: int)
    requires lo <= mid <= hi
    ensures Units(rs, key, lo, hi, length) == Units(rs, key, lo, mid, length) + Units(rs, key, mid, hi, length)
  {
    hide After, Admit;
    if rs != [] {
      UnitsSplit(rs[..|rs| - 1], key, lo, mid, hi, length);
    }
  }

  lemma {:induction false} UnitsAfterLast(rs: seq<Request>, key: string, lo: int, hi: int, length: int)
    requires Before(rs, key, lo)
    ensures Units(rs, key, lo, hi, length) == 0
  {
    hide After, Admit;
    if rs != [] {
      UnitsAfterLast(rs[..|rs| - 1], key, lo, hi, length);
    }
  }

  // What holds of a key's current window `w` after any number of requests: its counter is exactly
  // what it let through, and the stretch before it already let through no more than the limit.
  ghost predicate WindowOk(rs: seq<Request>, key: string, w: Window, length: int, limit: nat, slack: nat) {
    && Before(rs, key, w.start + length)
    && slack <= w.count <= limit
    && InWindow(rs, key, w.start, length) == w.count
    && (forall lo, hi | w.start <= lo :: Units(rs, key, lo, hi, length) <= w.count)
    && (forall lo, hi | w.start < lo :: Units(rs, key, lo, hi, length) <= w.count - slack)
    && (forall lo | lo > w.start - length :: Units(rs, key, lo, w.start, length) <= limit - slack)
  }

  predicate NoneOf(rs: seq<Request>, key: string) {
    forall i | 0 <= i < |rs| :: rs[i].key != key
  }

  ghost predicate KeyOk(rs: seq<Request>, key: string, length: int, limit: nat, slack: nat) {
    && (if key in After(rs, length)
        then WindowOk(rs, key, After(rs, length)[key], length, limit, slack) else NoneOf(rs, key))
    && (forall lo :: InWindow(rs, key, lo, length) <= 2 * limit - slack)
  }

  function Gain(rs: seq<Request>, r: Request, length: int): nat {
    if Admit(After(rs, length), r, length).1 then r.count else 0
  }

  lemma AfterSnoc(rs: seq<Request>, r: Request, length: int)
    ensures After(rs + [r], length) == Admit(After(rs, length), r, length).0
  {
    assert (rs + [r])[..|rs|] == rs;
  }

  lemma UnitsSnoc(rs: seq<Request>, r: Request, key: string, length: int)
    ensures forall lo, hi ::
              Units(rs + [r], key, lo, hi, length)
              == Units(rs, key, lo, hi, length) + if r.key == key && lo <= r.time < hi then Gain(rs, r, length) else 0
  {
    assert (rs + [r])[..|rs|] == rs;
  }

  lemma OtherKey(rs: seq<Request>, r: Request, key: string, length: int, limit: nat, slack: nat)
    requires KeyOk(rs, key, length, limit, slack) && r.key != key
    ensures KeyOk(rs + [r], key, length, limit, slack)
    ensures key in After(rs + [r], length) ==>
        key in After(rs, length) && After(rs + [r], length)[key] == After(rs, length)[key]
  {
    hide Units, After;
    AfterSnoc(rs, r, length);
    UnitsSnoc(rs, r, key, length);
    assert forall lo :: InWindow(rs + [r], key, lo, length) == InWindow(rs, key, lo, length);
  }

  // A request in the window that is already open.
  lemma SameWindow(rs: seq<Request>, r: Request, length: int, limit: nat, slack: nat, w: Window)
    requires KeyOk(rs, r.key, length, limit, slack) && r.limit <= limit
    requires r.key in After(rs, length) && After(rs, length)[r.key] == w && w.start <= r.time < w.start + length
    ensures KeyOk(rs + [r], r.key, length, limit, slack)
    ensures After(rs + [r], length)[r.key].start <= r.time
  {
    hide Units, After;
    var key, all := r.key, rs + [r];
    AfterSnoc(rs, r, length);
    UnitsSnoc(rs, r, key, length);
    forall lo ensures InWindow(all, key, lo, length) <= 2 * limit - slack {
      assert InWindow(rs, key, lo, length) <= 2 * limit - slack;
      if lo <= w.start < lo + length {
        UnitsSplit(all, key, lo, w.start, lo + length, length);
      }
    }
  }

  // A request that opens a window.
  lemma NewWindow(rs: seq<Request>, r: Request, length: int, limit: nat, slack: nat)
    requires KeyOk(rs, r.key, length, limit, slack) && r.limit <= limit && length > 0
    requires slack <= 1 && slack <= limit && (slack == 1 ==> 1 <= r.count <= r.limit)
    requires r.key in After(rs, length) ==> r.time >= After(rs, length)[r.key].start + length
    ensures KeyOk(rs + [r], r.key, length, limit, slack)
    ensures After(rs + [r], length)[r.key].start <= r.time
  {
    hide Units, After;
    var key, all := r.key, rs + [r];
    AfterSnoc(rs, r, length);
    UnitsSnoc(rs, r, key, length);
    forall lo, hi | r.time <= lo ensures Units(rs, key, lo, hi, length) == 0 {
      UnitsAfterLast(rs, key, lo, hi, length);
    }
    forall lo, hi | lo > r.time - length ensures Units(rs, key, lo, hi, length) <= limit - slack {
      if key !in After(rs, length) {
        UnitsAfterLast(rs, key, lo, hi, length);
      }
    }
    forall lo ensures InWindow(all, key, lo, length) <= 2 * limit - slack {
      assert InWindow(rs, key, lo, length) <= 2 * limit - slack;
    }
  }

  lemma NoRequests(key: string, length: int, limit: nat, slack: nat)
    requires slack <= limit
    ensures KeyOk([], key, length, limit, slack)
  {
  }

  // For every request sequence under a non-decreasing clock and every key: the current window's
  // counter is what was let through since it opened, at most the limit; and any half-open interval
  // of one window length lets through at most twice the limit, and at most one unit less when no
  // request asks for more than its limit.
  lemma {:induction false} SlidingBound(rs: seq<Request>, key: string, length: int, limit: nat, slack: nat)
    requires Orderly(rs, limit, slack) && length > 0
    ensures KeyOk(rs, key, length, limit, slack)
    ensures key in After(rs, length) ==> rs != [] && After(rs, length)[key].start <= rs[|rs| - 1].time
  {
    hide WindowOk, Units, Admit;
    if rs == [] {
      NoRequests(key, length, limit, slack);
    } else {
      var init, r := rs[..|rs| - 1], rs[|rs| - 1];
      assert rs == init + [r];
      SlidingBound(init, key, length, limit, slack);
      if r.key != key {
        OtherKey(init, r, key, length, limit, slack);
      } else if key in After(init, length) && r.time < After(init, length)[key].start + length {
        SameWindow(init, r, length, limit, slack, After(init, length)[key]);
      } else {
        NewWindow(init, r, length, limit, slack);
      }
    }
  }

  // The other direction: a request is refused exactly when it does not fit beside what its current
  // window let through, so one that fits beside everything let through in the window length that
  // ends with it is never refused.
  lemma RefusedOnlyWhenFull(rs: seq<Request>, r: Request, length: int, limit: nat, slack: nat)
    requires Orderly(rs + [r], limit, slack) && length > 0
    ensures Units(rs, r.key, r.time - length + 1, r.time + 1, length) + r.count <= r.limit ==>
        Admit(After(rs, length), r, length).1
    ensures var start := Current(After(rs, length), r.key, r.time, length).start;
            Admit(After(rs, length), r, length).1 <==> InWindow(rs, r.key, start, length) + r.count <= r.limit
  {
    hide Units, After;
    var all := rs + [r];
    assert forall i | 0 <= i < |rs| :: all[i] == rs[i] && all[i].time <= all[|rs|].time;
    assert Orderly(rs, limit, slack);
    SlidingBound(rs, r.key, length, limit, slack);
    var w := Current(After(rs, length), r.key, r.time, length);
    if r.key in After(rs, length) && r.time < After(rs, length)[r.key].start + length {
      UnitsSplit(rs, r.key, w.start, r.time + 1, w.start + length, length);
      UnitsAfterLast(rs, r.key, r.time + 1, w.start + length, length);
      UnitsSplit(rs, r.key, r.time - length + 1, w.start, r.time + 1, length);
    } else {
      UnitsAfterLast(rs, r.key, r.time, r.time + length, length);
      assert InWindow(rs, r.key, r.time, length) == 0;
    }
  }

  // Both bounds are reached: the first needs a request above its own limit, which opens a window
  // without using any of it.
  lemma BoundsReached(key: string, length: int, limit: nat)
    requires length >= 2 && limit >= 1
    ensures exists rs, lo :: Orderly(rs, limit, 0) && InWindow(rs, key, lo, length) == 2 * limit
    ensures exists rs, lo :: Orderly(rs, limit, 1) && InWindow(rs, key, lo, length) == 2 * limit - 1
  {
    var late, next := Request(key, length - 1, limit, limit), Request(key, length, limit, limit);
    var rs := [Request(key, 0, limit + 1, limit), late, next];
    hide Units, After, Admit;
    ThreeRequests(rs[0], late, next, length);
    assert Orderly(rs, limit, 0) && InWindow(rs, key, length - 1, length) == 2 * limit;
    SmallRequestsReach(key, length, limit);
  }

  lemma SmallRequestsReach(key: string, length: int, limit: nat)
    requires length >= 2 && limit >= 1
    ensures exists rs, lo :: Orderly(rs, limit, 1) && InWindow(rs, key, lo, length) == 2 * limit - 1
  {
    var one, next := Request(key, 0, 1, limit), Request(key, length, limit, limit);
    hide Units, After, Admit;
    if limit == 1 {
      OneRequest(one, length);
      assert Orderly([one], limit, 1) && InWindow([one], key, 0, length) == 2 * limit - 1;
    } else {
      var rs := [one, Request(key, length - 1, limit - 1, limit), next];
      ThreeRequests(one, rs[1], next, length);
      assert Orderly(rs, limit, 1) && InWindow(rs, key, length - 1, length) == 2 * limit - 1;
    }
  }

  lemma OneRequest(a: Request, length: int)
    requires a.time == 0 && length >= 2
    ensures After([a], length) == Admit(map[], a, length).0
    ensures InWindow([a], a.key, 0, length) == if a.count <= a.limit then a.count else 0
    ensures InWindow([a], a.key, length - 1, length) == 0
  {
    assert [] + [a] == [a];
    AfterSnoc([], a, length);
    UnitsSnoc([], a, a.key, length);
    assert forall lo, hi :: Units([], a.key, lo, hi, length) == 0;
    assert forall lo, hi :: Units([a], a.key, lo, hi, length) == if lo <= 0 < hi then Gain([], a, length) else 0;
  }

  lemma ThreeRequests(a: Request, b: Request, c: Request, length: int)
    requires length >= 2 && a.time == 0 && b.time == length - 1 && c.time == length
    requires a.key == b.key == c.key && b.count <= b.limit && c.count <= c.limit
    requires a.count > a.limit || a.count + b.count <= b.limit
    ensures InWindow([a, b, c], a.key, length - 1, length) == b.count + c.count
  {
    OneRequest(a, length);
    var u := [a] + [b];
    assert [a, b, c] == u + [c];
    AfterSnoc([a], b, length);
    UnitsSnoc([a], b, a.key, length);
    UnitsSnoc(u, c, a.key, length);
    assert Units([a], a.key, length - 1, 2 * length - 1, length) == InWindow([a], a.key, length - 1, length) == 0;
    assert Units([a, b, c], a.key, length - 1, 2 * length - 1, length)
        == InWindow([a, b, c], a.key, length - 1, length);
  }
}
