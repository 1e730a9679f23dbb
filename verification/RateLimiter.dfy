/**
 The order rate limiter: a counter per user that lives for one window. A Redis key is still
 there at the instant it expires, so a window that opened at s covers s to s + window inclusive.
 */
module RateLimiter {
  import opened Sets
  import opened Wrappers

  /** The counter key, set to expire at opened + window. */
  datatype Counter = Counter(start: nat, count: nat)

  predicate Alive(window: nat, key: Option<Counter>, now: nat) {
    key.Some? && now <= key.value.start + window
  }

  /** The script: INCR, and PEXPIRE when the counter was just created. */
  function Increment(window: nat, key: Option<Counter>, now: nat): Counter {
    if Alive(window, key, now) then key.value.(count := key.value.count + 1) else Counter(now, 1)
  }

  /** The counter after calls at these times. */
  function After(window: nat, times: seq<nat>): Option<Counter> {
    if times == [] then None
    else Some(Increment(window, After(window, times[..|times| - 1]), times[|times| - 1]))
  }

  /** The counter as call i left it. */
  function At(window: nat, times: seq<nat>, i: nat): Counter
    requires i < |times|
  {
    Increment(window, After(window, times[..i]), times[i])
  }

  predicate Ordered(times: seq<nat>) {
    forall i, j | 0 <= i < j < |times| :: times[i] <= times[j]
  }

  /** What Allow answered to call i. */
  predicate Allowed(window: nat, limit: int, times: seq<nat>, i: nat)
    requires i < |times|
  {
    At(window, times, i).count <= limit
  }

  class OrderRateLimiter {
    const limit: int
    const windowMs: int
    var key: Option<Counter>
    ghost var times: seq<nat>

    ghost predicate Valid()
      reads this
    {
      Ordered(times) && (windowMs > 0 ==> key == After(windowMs, times))
    }

    constructor (limit: int, windowMs: int)
      ensures Valid() && times == [] && this.limit == limit && this.windowMs == windowMs
    {
      this.limit, this.windowMs, key, times := limit, windowMs, None, [];
    }

    /** Allow; a window that is not positive is an error and counts nothing. */
    method Allow(now: nat) returns (allowed: bool, ok: bool)
      requires Valid() && (times == [] || times[|times| - 1] <= now)
      modifies this
      ensures Valid() && ok == (windowMs > 0)
      ensures times == if ok then old(times) + [now] else old(times)
      ensures ok ==> allowed == Allowed(windowMs, limit, times, |times| - 1)
      ensures !ok ==> !allowed
    {
      if windowMs <= 0 {
        return false, false;
      }
      var count := 1;
      if Alive(windowMs, key, now) {
        count := key.value.count + 1;
        key := Some(Counter(key.value.start, count));
      } else {
        key := Some(Counter(now, count));
      }
      assert (times + [now])[..|times|] == times;
      times := times + [now];
      return count <= limit, true;
    }
  }

  // ----- Windows -----

  lemma AtIsAfter(window: nat, times: seq<nat>, i: nat)
    requires i < |times|
    ensures After(window, times[..i + 1]) == Some(At(window, times, i))
  {
    assert times[..i + 1][..i] == times[..i];
  }

  /** A call either joins the window of the call before it or opens the next one. */
  lemma NextCall(window: nat, times: seq<nat>, i: nat)
    requires i + 1 < |times|
    ensures At(window, times, i + 1) ==
            if times[i + 1] <= At(window, times, i).start + window
            then Counter(At(window, times, i).start, At(window, times, i).count + 1)
            else Counter(times[i + 1], 1)
  {
    AtIsAfter(window, times, i);
  }

  lemma {:induction false} WindowsFollow(window: nat, times: seq<nat>, i: nat, j: nat)
    requires Ordered(times) && i < j < |times|
    ensures
      var a, b := At(window, times, i), At(window, times, j);
      if a.start == b.start then b.count == a.count + (j - i) else a.start + window < b.start
    ensures At(window, times, i).start <= times[i] <= At(window, times, i).start + window
    decreases j - i
  {
    OpenedBefore(window, times, i);
    NextCall(window, times, i);
    if i + 1 < j {
      WindowsFollow(window, times, i + 1, j);
    }
  }

  lemma {:induction false} OpenedBefore(window: nat, times: seq<nat>, i: nat)
    requires Ordered(times) && i < |times|
    ensures At(window, times, i).start <= times[i] <= At(window, times, i).start + window
    ensures At(window, times, i).count >= 1
  {
    if i > 0 {
      OpenedBefore(window, times, i - 1);
      NextCall(window, times, i - 1);
    }
  }

  /** The calls up to i that fell into the window of call i. */
  function SameWindow(window: nat, times: seq<nat>, i: nat): set<nat>
    requires i < |times|
  {
    set j: nat | j <= i && At(window, times, j).start == At(window, times, i).start
  }

  /** The first call of call i's window opened it. */
  lemma {:induction false} WindowIsRun(window: nat, times: seq<nat>, i: nat)
    requires Ordered(times) && i < |times|
    ensures At(window, times, i).count <= i + 1
    ensures
      var first := i + 1 - At(window, times, i).count;
      && At(window, times, first).start == At(window, times, i).start == times[first]
      && forall j: nat | j <= i :: j in SameWindow(window, times, i) <==> first <= j
  {
    OpenedBefore(window, times, i);
    if i > 0 {
      WindowIsRun(window, times, i - 1);
      NextCall(window, times, i - 1);
      var first := i + 1 - At(window, times, i).count;
      forall j: nat | j < i
        ensures j in SameWindow(window, times, i) <==> first <= j
      {
        WindowsFollow(window, times, j, i);
        assert j in SameWindow(window, times, i - 1) <==> i - At(window, times, i - 1).count <= j;
      }
    }
  }

  /** Within a window exactly the first limit calls are allowed. */
  lemma FirstCallsAllowed(window: nat, limit: int, times: seq<nat>, i: nat)
    requires Ordered(times) && i < |times|
    ensures Allowed(window, limit, times, i) <==> |SameWindow(window, times, i)| <= limit
  {
    WindowIsRun(window, times, i);
    var count := At(window, times, i).count;
    assert SameWindow(window, times, i) == Span(i + 1 - count, count);
  }

  /** The allowed calls of a time interval as long as a window. */
  function AllowedWithin(window: nat, limit: int, times: seq<nat>, from: nat): set<nat> {
    set i: nat | i < |times| && from <= times[i] <= from + window && Allowed(window, limit, times, i)
  }

  function OfWindow(window: nat, limit: int, times: seq<nat>, start: nat): set<nat> {
    set i: nat | i < |times| && At(window, times, i).start == start && Allowed(window, limit, times, i)
  }

  lemma WindowAllowsLimit(window: nat, limit: int, times: seq<nat>, i: nat)
    requires Ordered(times) && i < |times| && limit >= 0
    ensures |OfWindow(window, limit, times, At(window, times, i).start)| <= limit
  {
    WindowIsRun(window, times, i);
    var start, first := At(window, times, i).start, i + 1 - At(window, times, i).count;
    forall j | j in OfWindow(window, limit, times, start) ensures first <= j < first + limit {
      if j < i {
        WindowsFollow(window, times, j, i);
        assert j in SameWindow(window, times, i);
      } else if i < j {
        WindowsFollow(window, times, i, j);
      }
    }
    SubsetSize(OfWindow(window, limit, times, start), Span(first, limit));
  }

  /** Three calls in three windows are further apart than one window. */
  lemma AtMostTwoWindows(window: nat, times: seq<nat>, i: nat, j: nat, k: nat)
    requires Ordered(times) && i < j < k < |times| && times[k] <= times[i] + window
    requires At(window, times, i).start != At(window, times, j).start
    ensures At(window, times, k).start == At(window, times, j).start
  {
    WindowsFollow(window, times, i, j);
    WindowsFollow(window, times, j, k);
    OpenedBefore(window, times, k);
  }

  lemma TwoParts(all: set<nat>, early: set<nat>, late: set<nat>)
    requires all <= early + late
    ensures |all| <= |early| + |late|
  {
    SubsetSize(all, early + late);
  }

  /** The allowed calls of call i's window but the one that opened it. */
  lemma OpenerApart(window: nat, limit: int, times: seq<nat>, i: nat) returns (opener: nat)
    requires Ordered(times) && i < |times| && limit >= 1
    ensures opener < |times| && times[opener] == At(window, times, i).start
    ensures |OfWindow(window, limit, times, At(window, times, i).start) - {opener}| <= limit - 1
  {
    WindowIsRun(window, times, i);
    WindowAllowsLimit(window, limit, times, i);
    opener := i + 1 - At(window, times, i).count;
    if opener < i {
      WindowsFollow(window, times, opener, i);
    }
    assert At(window, times, opener).count == 1;
    assert opener in OfWindow(window, limit, times, At(window, times, i).start);
  }

  /**
   Any interval of one window's length touches at most two windows, and then not the opening call of the
   first: at most 2 * limit - 1 calls are allowed in it.
   */
  lemma LessThanTwiceTheLimit(window: nat, limit: int, times: seq<nat>, from: nat)
    requires Ordered(times)
    ensures |AllowedWithin(window, limit, times, from)| <= if limit < 1 then 0 else 2 * limit - 1
  {
    var all := AllowedWithin(window, limit, times, from);
    if all == {} {
      return;
    }
    var i := FirstOf(all);
    OpenedBefore(window, times, i);
    var early := OfWindow(window, limit, times, At(window, times, i).start);
    WindowAllowsLimit(window, limit, times, i);
    var later := set k | k in all && At(window, times, k).start != At(window, times, i).start;
    if later == {} {
      assert forall k | k in all :: k !in later;
      SubsetSize(all, early);
      return;
    }
    var j := FirstOf(later);
    var late := OfWindow(window, limit, times, At(window, times, j).start);
    WindowAllowsLimit(window, limit, times, j);
    var opener := OpenerApart(window, limit, times, i);
    WindowsFollow(window, times, i, j);
    OpenedBefore(window, times, j);
    assert opener !in all;
    forall k | k in all ensures k in (early - {opener}) + late {
      if k in later && k != j {
        AtMostTwoWindows(window, times, i, j, k);
      }
    }
    TwoParts(all, early - {opener}, late);
  }

  /** One call at 0, limit - 1 calls when its window ends, limit calls in the next instant. */
  function Burst(window: nat, limit: nat): seq<nat> {
    seq(2 * limit, i => if i == 0 then 0 else if i < limit then window else window + 1)
  }

  lemma {:induction false} BurstWindows(window: nat, limit: nat, i: nat)
    requires window > 0 && limit > 0 && i < 2 * limit
    ensures At(window, Burst(window, limit), i) == if i < limit then Counter(0, i + 1) else Counter(window + 1, i - limit + 1)
  {
    if i > 0 {
      BurstWindows(window, limit, i - 1);
      NextCall(window, Burst(window, limit), i - 1);
    }
  }

  /** The bound is met for every window and limit. */
  lemma BoundIsMet(window: nat, limit: nat)
    requires window > 0 && limit > 0
    ensures Ordered(Burst(window, limit))
    ensures |AllowedWithin(window, limit, Burst(window, limit), window)| == 2 * limit - 1
  {
    forall i: nat
      ensures i in AllowedWithin(window, limit, Burst(window, limit), window) <==> i in Span(1, 2 * limit - 1)
    {
      if i < 2 * limit {
        BurstWindows(window, limit, i);
      }
    }
    assert AllowedWithin(window, limit, Burst(window, limit), window) == Span(1, 2 * limit - 1);
  }

  lemma {:induction false} FirstOf(s: set<nat>) returns (least: nat)
    requires s != {}
    ensures least in s && forall x | x in s :: least <= x
  {
    var x :| x in s;
    if s == {x} {
      least := x;
    } else {
      var rest := FirstOf(s - {x});
      least := if x < rest then x else rest;
      assert forall y | y in s :: y == x || y in s - {x};
    }
  }
}
