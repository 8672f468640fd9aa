/** The sliding-window log of the HTTP rate limiter. */
module RateWindow {

  const WINDOW := 60.0

  /** The deque without the entries that left the window. */
  function Recent(window: seq<real>, now: real): seq<real>
  {
    if window != [] && window[0] < now - WINDOW then Recent(window[1..], now) else window
  }

  datatype Verdict = Verdict(allowed: bool, remaining: int)

  function Check(window: seq<real>, limit: int, now: real): (seq<real>, Verdict) {
    var w := Recent(window, now);
    if |w| >= limit then (w, Verdict(false, limit - |w|)) else (w + [now], Verdict(true, limit - |w| - 1))
  }

  class RateLimiter {
    var counts: map<string, seq<real>>

    constructor ()
      ensures counts == map[]
    {
      counts := map[];
    }

    /** `_counts[key]` of a `defaultdict(deque)` */
    function Window(key: string): seq<real>
      reads this
    {
      if key in counts then counts[key] else []
    }

    method CheckRate(key: string, limit: int, now: real) returns (verdict: Verdict)
      modifies this
      ensures (Window(key), verdict) == Check(old(Window(key)), limit, now)
      ensures forall k :: k != key ==> Window(k) == old(Window(k))
    {
      var window := if key in counts then counts[key] else [];
      while window != [] && window[0] < now - WINDOW
        invariant Recent(window, now) == Recent(old(Window(key)), now)
        decreases |window|
      {
        window := window[1..];
      }
      counts := counts[key := window];
      if |window| >= limit {
        return Verdict(false, limit - |window|);
      }
      window := window + [now];
      counts := counts[key := window];
      verdict := Verdict(true, limit - |window|);
    }
  }

  // ---- What a run of requests is granted ----

  ghost predicate Nondecreasing(times: seq<real>) {
    forall i, j :: 0 <= i < j < |times| ==> times[i] <= times[j]
  }

  /** The window after a run of requests for one key. */
  function WindowAfter(times: seq<real>, limit: int): seq<real> {
    if times == [] then [] else
      Check(WindowAfter(times[..|times| - 1], limit), limit, times[|times| - 1]).0
  }

  /** The times of the requests that were let through. */
  function Accepted(times: seq<real>, limit: int): seq<real> {
    if times == [] then [] else
      var n := |times| - 1;
      var earlier := Accepted(times[..n], limit);
      if Check(WindowAfter(times[..n], limit), limit, times[n]).1.allowed then earlier + [times[n]] else earlier
  }

  /** How many of the times lie in the closed interval. */
  function CountIn(times: seq<real>, from: real, to: real): nat {
    if times == [] then 0 else
      (if from <= times[0] <= to then 1 else 0) + CountIn(times[1..], from, to)
  }

  lemma {:induction false} CountConcat(a: seq<real>, b: seq<real>, from: real, to: real)
    ensures CountIn(a + b, from, to) == CountIn(a, from, to) + CountIn(b, from, to)
  {
    if a == [] {
      assert a + b == b;
    } else {
      assert (a + b)[1..] == a[1..] + b;
      CountConcat(a[1..], b, from, to);
    }
  }

  lemma {:induction false} CountAtMost(times: seq<real>, from: real, to: real)
    ensures CountIn(times, from, to) <= |times|
  {
    if times != [] {
      CountAtMost(times[1..], from, to);
    }
  }

  lemma {:induction false} CountNone(times: seq<real>, from: real, to: real)
    requires forall i :: 0 <= i < |times| ==> times[i] < from || to < times[i]
    ensures CountIn(times, from, to) == 0
  {
    if times != [] {
      CountNone(times[1..], from, to);
    }
  }

  lemma {:induction false} CountAll(times: seq<real>, from: real, to: real)
    requires forall i :: 0 <= i < |times| ==> from <= times[i] <= to
    ensures CountIn(times, from, to) == |times|
  {
    if times != [] {
      CountAll(times[1..], from, to);
    }
  }

  lemma {:induction false} RecentSplits(window: seq<real>, now: real)
    requires Nondecreasing(window)
    ensures |Recent(window, now)| <= |window|
    ensures Recent(window, now) == window[|window| - |Recent(window, now)|..]
    ensures forall i :: 0 <= i < |window| - |Recent(window, now)| ==> window[i] < now - WINDOW
    ensures forall i :: 0 <= i < |Recent(window, now)| ==> now - WINDOW <= Recent(window, now)[i]
  {
    if window != [] && window[0] < now - WINDOW {
      RecentSplits(window[1..], now);
    }
  }

  /** The deque is the tail of the accepted times; what it lacks had left the window at the last request. */
  ghost predicate Holds(accepted: seq<real>, window: seq<real>, last: real) {
    && Nondecreasing(accepted) && (forall i :: 0 <= i < |accepted| ==> accepted[i] <= last)
    && |window| <= |accepted| && window == accepted[|accepted| - |window|..]
    && forall i :: 0 <= i < |accepted| - |window| ==> accepted[i] < last - WINDOW
  }

  /** What stays in the deque are the accepted times of the last sixty seconds. */
  lemma RecentOfAccepted(accepted: seq<real>, window: seq<real>, last: real, now: real)
    requires Holds(accepted, window, last) && last <= now
    ensures |Recent(window, now)| <= |accepted|
    ensures Recent(window, now) == accepted[|accepted| - |Recent(window, now)|..]
    ensures forall i :: 0 <= i < |accepted| - |Recent(window, now)| ==> accepted[i] < now - WINDOW
    ensures forall i :: 0 <= i < |Recent(window, now)| ==> now - WINDOW <= Recent(window, now)[i] <= now
  {
    hide Recent;
    RecentSplits(window, now);
    var k := |accepted| - |Recent(window, now)|;
    forall i | 0 <= i < k
      ensures accepted[i] < now - WINDOW
    {
      if i >= |accepted| - |window| {
        assert accepted[i] == window[i - (|accepted| - |window|)];
      }
    }
  }

  lemma RecentCount(accepted: seq<real>, r: seq<real>, now: real)
    requires |r| <= |accepted| && r == accepted[|accepted| - |r|..]
    requires forall i :: 0 <= i < |accepted| - |r| ==> accepted[i] < now - WINDOW
    requires forall i :: 0 <= i < |r| ==> now - WINDOW <= r[i] <= now
    ensures |r| == CountIn(accepted, now - WINDOW, now)
  {
    var k := |accepted| - |r|;
    assert accepted == accepted[..k] + r;
    CountConcat(accepted[..k], r, now - WINDOW, now);
    CountNone(accepted[..k], now - WINDOW, now);
    CountAll(r, now - WINDOW, now);
  }

  lemma AppendHolds(accepted: seq<real>, r: seq<real>, now: real)
    requires Holds(accepted, r, now)
    ensures Holds(accepted + [now], r + [now], now)
  {}

  lemma CheckHolds(accepted: seq<real>, window: seq<real>, last: real, limit: int, now: real)
    requires Holds(accepted, window, last) && last <= now
    ensures
      var (w, verdict) := Check(window, limit, now);
      Holds(if verdict.allowed then accepted + [now] else accepted, w, now)
    ensures |Recent(window, now)| == CountIn(accepted, now - WINDOW, now)
  {
    hide Recent, CountIn, Nondecreasing;
    RecentOfAccepted(accepted, window, last, now);
    RecentCount(accepted, Recent(window, now), now);
    AppendHolds(accepted, Recent(window, now), now);
  }

  lemma NothingHolds(now: real)
    ensures Holds([], [], now)
  {}

  lemma FrontIsNondecreasing(times: seq<real>, now: real)
    requires Nondecreasing(times + [now])
    ensures Nondecreasing(times) && (times != [] ==> times[|times| - 1] <= now)
  {
    assert forall i :: 0 <= i < |times| ==> (times + [now])[i] == times[i];
    assert (times + [now])[|times|] == now;
  }

  lemma {:induction false} RunHolds(times: seq<real>, limit: int)
    requires Nondecreasing(times) && times != []
    ensures Holds(Accepted(times, limit), WindowAfter(times, limit), times[|times| - 1])
  {
    hide Recent, CountIn, Nondecreasing, Holds;
    var n := |times| - 1;
    assert times[..n] + [times[n]] == times;
    FrontIsNondecreasing(times[..n], times[n]);
    if n == 0 {
      assert times[..0] == [];
      NothingHolds(times[0]);
      CheckHolds([], [], times[0], limit, times[0]);
    } else {
      RunHolds(times[..n], limit);
      CheckHolds(Accepted(times[..n], limit), WindowAfter(times[..n], limit), times[n - 1], limit, times[n]);
    }
  }

  /** A request is refused if and only if at least `limit` accepted ones lie in the last sixty seconds. */
  lemma {:induction false} RefusedIff(times: seq<real>, limit: int, now: real)
    requires Nondecreasing(times + [now])
    ensures Check(WindowAfter(times, limit), limit, now).1.allowed
            <==> CountIn(Accepted(times, limit), now - 60.0, now) < limit
  {
    hide Recent, CountIn, Nondecreasing, Holds;
    if times == [] {
      NothingHolds(now);
      CheckHolds([], [], now, limit, now);
    } else {
      FrontIsNondecreasing(times, now);
      RunHolds(times, limit);
      VerdictCounts(Accepted(times, limit), WindowAfter(times, limit), times[|times| - 1], limit, now);
    }
  }

  /** What a verdict says is left: the limit less the accepted requests of the last sixty seconds, this one included. */
  lemma RemainingIs(times: seq<real>, limit: int, now: real)
    requires Nondecreasing(times + [now])
    ensures Check(WindowAfter(times, limit), limit, now).1.remaining
         == limit - CountIn(Accepted(times + [now], limit), now - 60.0, now)
  {
    hide Recent, CountIn, Nondecreasing, Holds;
    var accepted := Accepted(times, limit);
    assert (times + [now])[..|times|] == times;
    if times == [] {
      NothingHolds(now);
      CheckHolds([], [], now, limit, now);
    } else {
      FrontIsNondecreasing(times, now);
      RunHolds(times, limit);
      CheckHolds(accepted, WindowAfter(times, limit), times[|times| - 1], limit, now);
    }
    CountConcat(accepted, [now], now - WINDOW, now);
    CountOfOne(now, now - WINDOW, now);
  }

  lemma VerdictCounts(accepted: seq<real>, window: seq<real>, last: real, limit: int, now: real)
    requires Holds(accepted, window, last) && last <= now
    ensures Check(window, limit, now).1.allowed <==> CountIn(accepted, now - WINDOW, now) < limit
  {
    hide Recent, CountIn, Holds;
    CheckHolds(accepted, window, last, limit, now);
  }

  lemma {:induction false} CountShrinks(times: seq<real>, from: real, to: real, wideFrom: real, wideTo: real)
    requires wideFrom <= from && to <= wideTo
    ensures CountIn(times, from, to) <= CountIn(times, wideFrom, wideTo)
  {
    if times != [] {
      CountShrinks(times[1..], from, to, wideFrom, wideTo);
    }
  }

  lemma {:induction false} AcceptedAreTimes(times: seq<real>, limit: int)
    ensures forall t :: t in Accepted(times, limit) ==> t in times
  {
    if times != [] {
      AcceptedAreTimes(times[..|times| - 1], limit);
    }
  }

  /** Any closed interval of sixty seconds contains at most `limit` accepted requests. */
  lemma {:induction false} AtMostLimitPerWindow(times: seq<real>, limit: int, from: real)
    requires Nondecreasing(times)
    ensures CountIn(Accepted(times, limit), from, from + 60.0) <= if limit < 0 then 0 else limit
  {
    hide Check, WindowAfter, CountIn;
    if times == [] {
      CountNone([], from, from + WINDOW);
    } else {
      var n := |times| - 1;
      var now := times[n];
      var earlier := Accepted(times[..n], limit);
      AtMostLimitPerWindow(times[..n], limit, from);
      assert times == times[..n] + [now];
      RefusedIff(times[..n], limit, now);
      if Check(WindowAfter(times[..n], limit), limit, now).1.allowed {
        CountConcat(earlier, [now], from, from + WINDOW);
        if from <= now <= from + WINDOW {
          CountOfOne(now, from, from + WINDOW);
          UpToNow(times[..n], limit, now, from);
        } else {
          CountNone([now], from, from + WINDOW);
        }
      }
    }
  }

  lemma CountOfOne(t: real, from: real, to: real)
    requires from <= t <= to
    ensures CountIn([t], from, to) == 1
  {
    CountAll([t], from, to);
  }

  /** Of the times up to `now`, those in an interval that holds `now` are among the last sixty seconds. */
  lemma UpToNow(times: seq<real>, limit: int, now: real, from: real)
    requires Nondecreasing(times + [now]) && from <= now <= from + WINDOW
    ensures CountIn(Accepted(times, limit), from, from + WINDOW) <= CountIn(Accepted(times, limit), now - WINDOW, now)
  {
    AcceptedAreTimes(times, limit);
    forall t | t in Accepted(times, limit)
      ensures t <= now
    {
      var i :| 0 <= i < |times| && times[i] == t;
      assert (times + [now])[i] == t && (times + [now])[|times|] == now;
    }
    CountClipped(Accepted(times, limit), from, now);
  }

  lemma {:induction false} CountClipped(times: seq<real>, from: real, now: real)
    requires from <= now <= from + WINDOW && forall t :: t in times ==> t <= now
    ensures CountIn(times, from, from + WINDOW) <= CountIn(times, now - WINDOW, now)
  {
    if times != [] {
      assert times[0] in times;
      assert forall t :: t in times[1..] ==> t in times;
      CountClipped(times[1..], from, now);
    }
  }
}
