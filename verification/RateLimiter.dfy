/** The sliding-window limiter of internal/plugin/rate_limiter.go, with a clock that is passed in. */
module RateLimiter {

  // The calls after the cutoff.
  function Recent(calls: seq<int>, cutoff: int): (r: seq<int>)
    ensures |r| <= |calls|
  {
    if calls == [] then []
    else
      var n := |calls| - 1;
      var r := Recent(calls[..n], cutoff);
      if calls[n] > cutoff then r + [calls[n]] else r
  }

  datatype Limits = Limits(limit: nat, window: int)

  predicate Admits(l: Limits, calls: seq<int>, now: int) {
    |Recent(calls, now - l.window)| < l.limit
  }

  // The recorded calls after a call of Allow.
  function After(l: Limits, calls: seq<int>, now: int): seq<int> {
    var r := Recent(calls, now - l.window);
    if Admits(l, calls, now) then r + [now] else r
  }

  // The recorded calls after Allow was called at these times.
  function Recorded(l: Limits, times: seq<int>): seq<int> {
    if times == [] then [] else After(l, Recorded(l, times[..|times| - 1]), times[|times| - 1])
  }

  // All the calls that were ever admitted.
  function Admitted(l: Limits, times: seq<int>): seq<int> {
    if times == [] then []
    else
      var before, now := times[..|times| - 1], times[|times| - 1];
      if Admits(l, Recorded(l, before), now) then Admitted(l, before) + [now] else Admitted(l, before)
  }

  predicate NonDecreasing(times: seq<int>) {
    forall i, j :: 0 <= i < j < |times| ==> times[i] <= times[j]
  }

  // How many of the calls lie in (from, to].
  function Within(calls: seq<int>, from: int, to: int): (n: nat)
    ensures n <= |calls|
  {
    if calls == [] then 0
    else
      var n := |calls| - 1;
      Within(calls[..n], from, to) + (if from < calls[n] <= to then 1 else 0)
  }

  lemma {:induction false} RecentTwice(calls: seq<int>, a: int, b: int)
    requires a <= b
    ensures Recent(Recent(calls, a), b) == Recent(calls, b)
  {
    if calls != [] {
      var n := |calls| - 1;
      RecentTwice(calls[..n], a, b);
      if calls[n] > a {
        RecentSnoc(Recent(calls[..n], a), calls[n], b);
      }
    }
  }

  lemma RecentSnoc(calls: seq<int>, t: int, cutoff: int)
    ensures Recent(calls + [t], cutoff) == if t > cutoff then Recent(calls, cutoff) + [t] else Recent(calls, cutoff)
  {
    assert (calls + [t])[..|calls|] == calls;
  }

  lemma {:induction false} WithinRecent(calls: seq<int>, from: int, to: int, cutoff: int)
    requires cutoff <= from
    ensures Within(calls, from, to) <= |Recent(calls, cutoff)|
  {
    if calls != [] {
      WithinRecent(calls[..|calls| - 1], from, to, cutoff);
    }
  }

  lemma WithinSnoc(calls: seq<int>, t: int, from: int, to: int)
    ensures Within(calls + [t], from, to) == Within(calls, from, to) + if from < t <= to then 1 else 0
  {
    assert (calls + [t])[..|calls|] == calls;
  }

  // One more call of Allow, seen by the slice and by the log of admitted calls.
  lemma OneMore(l: Limits, times: seq<int>, now: int, cutoff: int)
    requires now - l.window <= cutoff
    ensures var calls, log := Recorded(l, times), Admitted(l, times);
      var calls', log' := Recorded(l, times + [now]), Admitted(l, times + [now]);
      && Recent(calls', cutoff) == (if Admits(l, calls, now) && now > cutoff then Recent(calls, cutoff) + [now] else Recent(calls, cutoff))
      && Recent(log', cutoff) == (if Admits(l, calls, now) && now > cutoff then Recent(log, cutoff) + [now] else Recent(log, cutoff))
      && log' == if Admits(l, calls, now) then log + [now] else log
  {
    var calls := Recorded(l, times);
    Snocs(l, times, now);
    hide Recent, Recorded, Admitted;
    RecentTwice(calls, now - l.window, cutoff);
    RecentSnoc(Recent(calls, now - l.window), now, cutoff);
    RecentSnoc(Admitted(l, times), now, cutoff);
  }

  lemma Snocs(l: Limits, times: seq<int>, now: int)
    ensures Recorded(l, times + [now]) == After(l, Recorded(l, times), now)
    ensures Admitted(l, times + [now]) ==
      if Admits(l, Recorded(l, times), now) then Admitted(l, times) + [now] else Admitted(l, times)
  {
    assert (times + [now])[..|times|] == times;
  }

  /**
   What the compacted slice holds, for a clock that never goes back: forgetting
   the calls that have left the window never loses one that still counts.
   */
  lemma {:induction false} RecordedIsRecent(l: Limits, times: seq<int>, cutoff: int)
    requires NonDecreasing(times)
    requires times != [] ==> times[|times| - 1] - l.window <= cutoff
    ensures Recent(Recorded(l, times), cutoff) == Recent(Admitted(l, times), cutoff)
  {
    if times != [] {
      var n := |times| - 1;
      RecordedIsRecent(l, times[..n], cutoff);
      OneMore(l, times[..n], times[n], cutoff);
      assert times == times[..n] + [times[n]];
    }
  }

  /** A call is let through exactly when fewer than limit calls were admitted in the window that ends with it. */
  lemma AdmitsExactly(l: Limits, times: seq<int>, now: int)
    requires NonDecreasing(times) && 0 < l.window
    requires forall i :: 0 <= i < |times| ==> times[i] <= now
    ensures Admits(l, Recorded(l, times), now) <==> Within(Admitted(l, times), now - l.window, now) < l.limit
  {
    hide Recent, Recorded, Admitted;
    RecordedIsRecent(l, times, now - l.window);
    AdmittedUpTo(l, times, now);
    WithinIsRecent(Admitted(l, times), now - l.window, now);
  }

  lemma {:induction false} AdmittedUpTo(l: Limits, times: seq<int>, now: int)
    requires forall i :: 0 <= i < |times| ==> times[i] <= now
    ensures forall i :: 0 <= i < |Admitted(l, times)| ==> Admitted(l, times)[i] <= now
  {
    if times != [] {
      AdmittedUpTo(l, times[..|times| - 1], now);
    }
  }

  lemma {:induction false} WithinIsRecent(calls: seq<int>, cutoff: int, now: int)
    requires forall i :: 0 <= i < |calls| ==> calls[i] <= now
    ensures Within(calls, cutoff, now) == |Recent(calls, cutoff)|
  {
    if calls != [] {
      WithinIsRecent(calls[..|calls| - 1], cutoff, now);
    }
  }

  /** No window of that length, wherever it ends, ever holds more than limit admitted calls. */
  lemma {:induction false} WindowBound(l: Limits, times: seq<int>, to: int)
    requires NonDecreasing(times)
    ensures Within(Admitted(l, times), to - l.window, to) <= l.limit
  {
    hide Recent, Recorded, Admitted;
    if times != [] {
      var n := |times| - 1;
      WindowBound(l, times[..n], to);
      assert times == times[..n] + [times[n]];
      WindowBoundStep(l, times[..n], times[n], to);
    } else {
      Nothing(l);
      NoneWithin(to - l.window, to);
    }
  }

  lemma WindowBoundStep(l: Limits, before: seq<int>, now: int, to: int)
    requires NonDecreasing(before) && forall i :: 0 <= i < |before| ==> before[i] <= now
    requires Within(Admitted(l, before), to - l.window, to) <= l.limit
    ensures Within(Admitted(l, before + [now]), to - l.window, to) <= l.limit
  {
    hide Recent, Recorded, Admitted, Within;
    var log := Admitted(l, before);
    Snocs(l, before, now);
    WithinSnoc(log, now, to - l.window, to);
    if to - l.window < now <= to {
      RecordedIsRecent(l, before, now - l.window);
      WithinRecent(log, to - l.window, to, now - l.window);
    }
  }

  /**
   The bound needs the clock not to go back, as the production clock does not: with
   an injected clock that does, three calls within ten ticks where two are allowed.
   */
  lemma BackwardClockExceeds()
    ensures Within(Admitted(Limits(2, 10), [0, 0, 20, 5]), -5, 5) == 3
  {
    AdmittedBackward();
    hide Within, Admitted;
    assert [0, 0, 20] + [5] == [0, 0, 20, 5];
    assert [0, 0] + [20] == [0, 0, 20];
    WithinSnoc([0, 0, 20], 5, -5, 5);
    WithinSnoc([0, 0], 20, -5, 5);
    assert [0] + [0] == [0, 0];
    WithinSnoc([0], 0, -5, 5);
    WithinSnoc([], 0, -5, 5);
    assert [] + [0] == [0];
    NoneWithin(-5, 5);
  }

  lemma AdmittedBackward()
    ensures Admitted(Limits(2, 10), [0, 0, 20, 5]) == [0, 0, 20, 5]
  {
    hide Recorded, Admitted, Recent;
    var l := Limits(2, 10);
    Nothing(l);
    RecentPair(0, 0, -10);
    Grows(l, [], 0, [0], [], []);
    Grows(l, [0], 0, [0, 0], [0], [0]);
    RecentPair(0, 0, 10);
    Grows(l, [0, 0], 20, [0, 0, 20], [0, 0], []);
    RecentPair(20, 20, -5);
    Grows(l, [0, 0, 20], 5, [0, 0, 20, 5], [20], [20]);
  }

  lemma Nothing(l: Limits)
    ensures Recorded(l, []) == [] && Admitted(l, []) == []
    ensures forall cutoff :: Recent([], cutoff) == []
  {
  }

  // A call let through, with what was recorded before it.
  lemma Grows(l: Limits, times: seq<int>, now: int, times': seq<int>, calls: seq<int>, recent: seq<int>)
    requires times' == times + [now] && Recorded(l, times) == calls && Admitted(l, times) == times
    requires Recent(calls, now - l.window) == recent && |recent| < l.limit
    ensures Recorded(l, times') == recent + [now] && Admitted(l, times') == times'
  {
    hide Recorded, Admitted, Recent;
    Snocs(l, times, now);
  }

  lemma NoneWithin(from: int, to: int)
    ensures Within([], from, to) == 0
  {
  }

  lemma RecentPair(a: int, b: int, cutoff: int)
    ensures Recent([a], cutoff) == if a > cutoff then [a] else []
    ensures Recent([a, b], cutoff) == (if a > cutoff then [a] else []) + (if b > cutoff then [b] else [])
  {
    assert [a, b] == [a] + [b] && [a][..0] == [];
    RecentSnoc([a], b, cutoff);
  }

  class HttpRateLimiter {
    const limits: Limits
    // The backing array, of capacity limit, and the length of the slice over it.
    const calls: array<int>
    var count: nat
    // When Allow was called.
    ghost var times: seq<int>

    ghost predicate Valid()
      reads this, calls
    {
      && calls.Length == limits.limit && count <= calls.Length
      && calls[..count] == Recorded(limits, times)
    }

    constructor (limit: nat, window: int)
      ensures Valid() && fresh(calls) && limits == Limits(limit, window) && times == []
    {
      limits := Limits(limit, window);
      calls := new int[limit];
      count, times := 0, [];
    }

    // The compaction writes over the slice it reads: element i moves to a place no later than i.
    method Compact(cutoff: int) returns (kept: nat)
      requires count <= calls.Length
      modifies calls
      ensures kept <= count && calls[..kept] == Recent(old(calls[..count]), cutoff)
    {
      ghost var was := calls[..count];
      kept := 0;
      var i := 0;
      while i < count
        invariant 0 <= kept <= i <= count
        invariant calls[..kept] == Recent(was[..i], cutoff)
        invariant forall j :: i <= j < count ==> calls[j] == was[j]
      {
        assert was[..i + 1][..i] == was[..i];
        ghost var before := calls[..kept];
        if calls[i] > cutoff {
          calls[kept] := calls[i];
          kept := kept + 1;
          assert calls[..kept] == before + [was[i]];
        }
        i := i + 1;
      }
      assert was[..count] == was;
    }

    /** Allow, called when the clock shows `now`. */
    method Allow(now: int) returns (allowed: bool)
      requires Valid()
      modifies this`count, this`times, calls
      ensures Valid() && times == old(times) + [now]
      ensures allowed <==> Admits(limits, Recorded(limits, old(times)), now)
    {
      var kept := Compact(now - limits.window);
      ghost var before := times;
      times := times + [now];
      assert times[..|times| - 1] == before;
      if kept >= limits.limit {
        count := kept;
        return false;
      }
      calls[kept] := now;
      count := kept + 1;
      return true;
    }
  }
}
