/** The two rate limiters, and what each of them really bounds.

  Times are whole microseconds of one clock that does not run backwards.
*/
module RateLimits {
  import opened Text

  const WINDOW: int := 60_000_000
  const EVENTS_PER_MINUTE: int := 120

  /** In order, none before `start`. */
  ghost predicate Ordered(times: seq<int>, start: int) {
    && (forall i :: 0 <= i < |times| ==> start <= times[i])
    && (forall i, j :: 0 <= i < j < |times| ==> times[i] <= times[j])
  }

  /** How many of `admitted` fall in the half-open interval [from, to). */
  function CountIn(admitted: seq<int>, from: int, to: int): nat {
    if admitted == [] then 0
    else CountIn(admitted[..|admitted| - 1], from, to) + if from <= admitted[|admitted| - 1] < to then 1 else 0
  }

  lemma {:induction false} CountInParts(admitted: seq<int>, from: int, mid: int, to: int)
    requires from <= mid <= to
    ensures CountIn(admitted, from, to) == CountIn(admitted, from, mid) + CountIn(admitted, mid, to)
  {
    if admitted != [] {
      CountInParts(admitted[..|admitted| - 1], from, mid, to);
    }
  }

  lemma {:induction false} CountInNone(admitted: seq<int>, from: int, to: int)
    requires forall i :: 0 <= i < |admitted| ==> !(from <= admitted[i] < to)
    ensures CountIn(admitted, from, to) == 0
  {
    if admitted != [] {
      CountInNone(admitted[..|admitted| - 1], from, to);
    }
  }

  lemma CountInSnoc(admitted: seq<int>, t: int, from: int, to: int)
    ensures CountIn(admitted + [t], from, to) == CountIn(admitted, from, to) + if from <= t < to then 1 else 0
  {
    assert (admitted + [t])[..|admitted|] == admitted;
  }

  // ---------------------------------------------------------------------------
  // One socket's limiter
  // ---------------------------------------------------------------------------

  datatype Window = Window(start: int, count: nat)

  function Ticked(w: Window, now: int): Window {
    if now - w.start >= WINDOW then Window(now, 1) else w.(count := w.count + 1)
  }

  /** The window after a run of events on a socket opened at `start`. */
  function WindowAfter(times: seq<int>, start: int): Window {
    if times == [] then Window(start, 0) else Ticked(WindowAfter(times[..|times| - 1], start), times[|times| - 1])
  }

  /** When the events that were let through came. */
  function Passed(times: seq<int>, start: int, limit: int): seq<int> {
    if times == [] then []
    else
      var front := Passed(times[..|times| - 1], start, limit);
      if WindowAfter(times, start).count <= limit then front + [times[|times| - 1]] else front
  }

  class RateLimiter {
    const limit: int
    var windowStarted: int
    var count: nat
    var dropped: nat

    constructor (perMinute: Option<int>, now: int)
      ensures limit == if perMinute.Some? && perMinute.value != 0 then perMinute.value else EVENTS_PER_MINUTE
      ensures State() == WindowAfter([], now) && dropped == 0
    {
      limit := if perMinute.Some? && perMinute.value != 0 then perMinute.value else EVENTS_PER_MINUTE;
      windowStarted, count, dropped := now, 0, 0;
    }

    ghost function State(): Window
      reads this
    {
      Window(windowStarted, count)
    }

    method Allow(now: int) returns (ok: bool)
      modifies this
      ensures State() == Ticked(old(State()), now)
      ensures ok <==> State().count <= limit
      ensures dropped == old(dropped) + if ok then 0 else 1
    {
      if now - windowStarted >= WINDOW {
        windowStarted, count := now, 0;
      }
      count := count + 1;
      if count > limit {
        dropped := dropped + 1;
        return false;
      }
      return true;
    }

    /** A whole run of events through one limiter. */
    method Drive(times: seq<int>) returns (passed: seq<int>)
      requires count == 0
      modifies this
      ensures State() == WindowAfter(times, old(windowStarted))
      ensures passed == Passed(times, old(windowStarted), limit)
      ensures dropped == old(dropped) + |times| - |passed|
    {
      passed := [];
      for i := 0 to |times|
        invariant State() == WindowAfter(times[..i], old(windowStarted))
        invariant passed == Passed(times[..i], old(windowStarted), limit)
        invariant dropped == old(dropped) + i - |passed|
      {
        assert times[..i + 1][..i] == times[..i];
        var ok := Allow(times[i]);
        if ok {
          passed := passed + [times[i]];
        }
      }
      assert times[..|times|] == times;
    }
  }

  lemma OneMoreEvent(times: seq<int>, t: int, start: int, limit: int)
    ensures WindowAfter(times + [t], start) == Ticked(WindowAfter(times, start), t)
    ensures var w := Ticked(WindowAfter(times, start), t);
      Passed(times + [t], start, limit) == Passed(times, start, limit) + if w.count <= limit then [t] else []
  {
    assert (times + [t])[..|times|] == times;
  }

  lemma CountOneMoreEvent(times: seq<int>, t: int, start: int, limit: int, from: int, to: int)
    ensures var passes := Ticked(WindowAfter(times, start), t).count <= limit;
      CountIn(Passed(times + [t], start, limit), from, to)
      == CountIn(Passed(times, start, limit), from, to) + if passes && from <= t < to then 1 else 0
  {
    OneMoreEvent(times, t, start, limit);
    CountInSnoc(Passed(times, start, limit), t, from, to);
  }

  /** Every event so far came before the current window's end, the last of them inside the window. */
  ghost predicate SocketTimes(times: seq<int>, start: int, limit: int) {
    var w, passed := WindowAfter(times, start), Passed(times, start, limit);
    && start <= w.start
    && (forall i :: 0 <= i < |times| ==> times[i] < w.start + WINDOW)
    && (forall i :: 0 <= i < |passed| ==> start <= passed[i] < w.start + WINDOW)
    && (times != [] ==> w.start <= times[|times| - 1])
  }

  /** The current window has passed no more than the limit, and so has the minute before it. */
  ghost predicate SocketCounts(w: Window, passed: seq<int>, limit: int) {
    && (forall to :: CountIn(passed, w.start, to) <= limit && CountIn(passed, w.start, to) <= w.count)
    && (forall from :: from > w.start - WINDOW ==> CountIn(passed, from, w.start) <= limit)
  }

  ghost predicate SocketInv(times: seq<int>, start: int, limit: int) {
    SocketTimes(times, start, limit) && SocketCounts(WindowAfter(times, start), Passed(times, start, limit), limit)
  }

  lemma BeforeReset(front: seq<int>, now: int, start: int, limit: int, from: int)
    requires limit >= 0 && SocketInv(front, start, limit)
    requires now - WindowAfter(front, start).start >= WINDOW && now - WINDOW < from
    ensures CountIn(Passed(front, start, limit), from, now) <= limit
  {
    var w, passed := WindowAfter(front, start), Passed(front, start, limit);
    if from <= now {
      CountInParts(passed, w.start, from, now);
      assert CountIn(passed, w.start, now) <= limit;
    } else {
      CountInNone(passed, from, now);
    }
  }

  lemma SocketTimesKept(front: seq<int>, now: int, start: int, limit: int)
    requires SocketTimes(front, start, limit) && WindowAfter(front, start).start <= now
    ensures SocketTimes(front + [now], start, limit)
  {
    OneMoreEvent(front, now, start, limit);
  }

  lemma SocketReset(front: seq<int>, now: int, start: int, limit: int)
    requires limit >= 0 && SocketInv(front, start, limit) && now - WindowAfter(front, start).start >= WINDOW
    ensures SocketCounts(WindowAfter(front + [now], start), Passed(front + [now], start, limit), limit)
  {
    var all := Passed(front + [now], start, limit);
    OneMoreEvent(front, now, start, limit);
    forall to
      ensures CountIn(all, now, to) <= limit && CountIn(all, now, to) <= 1
    {
      CountInNone(Passed(front, start, limit), now, to);
      CountOneMoreEvent(front, now, start, limit, now, to);
    }
    forall from | from > now - WINDOW
      ensures CountIn(all, from, now) <= limit
    {
      CountOneMoreEvent(front, now, start, limit, from, now);
      BeforeReset(front, now, start, limit, from);
    }
  }

  lemma SocketTick(front: seq<int>, now: int, start: int, limit: int)
    requires limit >= 0 && SocketCounts(WindowAfter(front, start), Passed(front, start, limit), limit)
    requires WindowAfter(front, start).start <= now < WindowAfter(front, start).start + WINDOW
    ensures SocketCounts(WindowAfter(front + [now], start), Passed(front + [now], start, limit), limit)
  {
    var w, passed := WindowAfter(front, start), Passed(front, start, limit);
    OneMoreEvent(front, now, start, limit);
    TickCounts(w, passed, now, limit);
  }

  lemma TickCounts(w: Window, passed: seq<int>, now: int, limit: int)
    requires SocketCounts(w, passed, limit) && w.start <= now
    ensures w.count < limit ==> SocketCounts(w.(count := w.count + 1), passed + [now], limit)
    ensures SocketCounts(w.(count := w.count + 1), passed, limit)
  {
    forall from, to
      ensures CountIn(passed + [now], from, to) == CountIn(passed, from, to) + if from <= now < to then 1 else 0
    {
      CountInSnoc(passed, now, from, to);
    }
  }

  lemma {:induction false} SocketInvHolds(times: seq<int>, start: int, limit: int)
    requires limit >= 0 && Ordered(times, start)
    ensures SocketInv(times, start, limit)
  {
    if times == [] {
    } else {
      var front, now := times[..|times| - 1], times[|times| - 1];
      SocketInvHolds(front, start, limit);
      assert front + [now] == times;
      assert front != [] ==> front[|front| - 1] <= now;
      SocketTimesKept(front, now, start, limit);
      if now - WindowAfter(front, start).start >= WINDOW {
        SocketReset(front, now, start, limit);
      } else {
        SocketTick(front, now, start, limit);
      }
    }
  }

  /** At most twice the limit passes in any minute, however the minute lies across the windows. */
  lemma {:induction false} SocketBound(times: seq<int>, start: int, limit: int, from: int)
    requires limit >= 0 && Ordered(times, start)
    ensures CountIn(Passed(times, start, limit), from, from + WINDOW) <= 2 * limit
  {
    var w := WindowAfter(times, start);
    SocketInvHolds(times, start, limit);
    if times == [] {
    } else if from + WINDOW <= w.start {
      var front, now := times[..|times| - 1], times[|times| - 1];
      SocketBound(front, start, limit, from);
      CountInSnoc(Passed(front, start, limit), now, from, from + WINDOW);
    } else if from <= w.start {
      CountInParts(Passed(times, start, limit), from, w.start, from + WINDOW);
    } else {
      CountInParts(Passed(times, start, limit), w.start, from, from + WINDOW);
    }
  }

  function Repeat(t: int, n: nat): seq<int> {
    if n == 0 then [] else Repeat(t, n - 1) + [t]
  }

  lemma BurstGrows(before: seq<int>, t: int, n: nat)
    requires n > 0
    ensures before + Repeat(t, n) == (before + Repeat(t, n - 1)) + [t]
  {
  }

  lemma {:induction false} BurstCounts(before: seq<int>, t: int, n: nat, start: int, begun: int)
    requires n > 0 && Ticked(WindowAfter(before, start), t) == Window(begun, 1) && t < begun + WINDOW
    ensures WindowAfter(before + Repeat(t, n), start) == Window(begun, n)
  {
    var front := before + Repeat(t, n - 1);
    OneMoreEvent(front, t, start, 0);
    BurstGrows(before, t, n);
    if n == 1 {
      assert front == before;
    } else {
      BurstCounts(before, t, n - 1, start, begun);
    }
  }

  lemma {:induction false} BurstPasses(before: seq<int>, t: int, n: nat, start: int, limit: int, begun: int)
    requires n <= limit
    requires Ticked(WindowAfter(before, start), t) == Window(begun, 1) && t < begun + WINDOW
    ensures Passed(before + Repeat(t, n), start, limit) == Passed(before, start, limit) + Repeat(t, n)
  {
    if n == 0 {
      assert before + [] == before;
    } else {
      var front, passed := before + Repeat(t, n - 1), Passed(before, start, limit);
      BurstPasses(before, t, n - 1, start, limit, begun);
      BurstCounts(before, t, n, start, begun);
      OneMoreEvent(front, t, start, limit);
      BurstGrows(before, t, n);
      assert passed + Repeat(t, n - 1) + [t] == passed + Repeat(t, n);
    }
  }

  lemma {:induction false} CountInBurst(before: seq<int>, t: int, n: nat, from: int, to: int)
    requires from <= t < to
    ensures CountIn(before + Repeat(t, n), from, to) == CountIn(before, from, to) + n
  {
    if n == 0 {
      assert before + [] == before;
    } else {
      var front := before + Repeat(t, n - 1);
      CountInBurst(before, t, n - 1, from, to);
      BurstGrows(before, t, n);
      CountInSnoc(front, t, from, to);
    }
  }

  lemma {:induction false} RepeatAt(t: int, n: nat)
    ensures |Repeat(t, n)| == n && forall i :: 0 <= i < n ==> Repeat(t, n)[i] == t
  {
    if n > 0 {
      RepeatAt(t, n - 1);
    }
  }

  /** A full burst just before the first window ends, another when the next begins. */
  function TwoBursts(start: int, limit: nat): seq<int> {
    Repeat(start + WINDOW - 1, limit) + Repeat(start + WINDOW, limit)
  }

  lemma TwoBurstsPass(start: int, limit: nat)
    requires limit > 0
    ensures Passed(TwoBursts(start, limit), start, limit) == TwoBursts(start, limit)
  {
    var early, late := start + WINDOW - 1, start + WINDOW;
    BurstCounts([], early, limit, start, start);
    var first := Repeat(early, limit);
    assert [] + first == first;
    BurstPasses([], early, limit, start, limit, start);
    assert Ticked(WindowAfter(first, start), late) == Window(late, 1);
    BurstPasses(first, late, limit, start, limit, late);
    assert Passed([], start, limit) == [];
  }

  /** And twice the limit does pass, in two microseconds. */
  lemma SocketBoundIsMet(start: int, limit: nat)
    requires limit > 0
    ensures Ordered(TwoBursts(start, limit), start)
    ensures CountIn(Passed(TwoBursts(start, limit), start, limit), start + WINDOW - 1, start + WINDOW + 1) == 2 * limit
  {
    var early, late := start + WINDOW - 1, start + WINDOW;
    RepeatAt(early, limit);
    RepeatAt(late, limit);
    TwoBurstsPass(start, limit);
    assert [] + Repeat(early, limit) == Repeat(early, limit);
    CountInBurst([], early, limit, early, late + 1);
    CountInBurst(Repeat(early, limit), late, limit, early, late + 1);
  }

  // ---------------------------------------------------------------------------
  // The Redis counter
  // ---------------------------------------------------------------------------

  /** A key with its count and expiry; a key that has expired is gone. */
  datatype Key = Absent | Key(count: nat, expires: int)

  function CountAt(key: Key, now: int): nat {
    if key.Key? && now < key.expires then key.count else 0
  }

  /** INCR and then EXPIRE, in one transaction. */
  function Bumped(key: Key, now: int, window: int): Key {
    Key.Key(CountAt(key, now) + 1, now + window)
  }

  function KeyAfter(times: seq<int>, window: int): Key {
    if times == [] then Absent else Bumped(KeyAfter(times[..|times| - 1], window), times[|times| - 1], window)
  }

  /** When the attempts that were let through came. */
  function Allowed(times: seq<int>, limit: int, window: int): seq<int> {
    if times == [] then []
    else
      var front := Allowed(times[..|times| - 1], limit, window);
      if KeyAfter(times, window).count <= limit then front + [times[|times| - 1]] else front
  }

  class RedisCounter {
    var key: Key

    constructor ()
      ensures key == Absent
    {
      key := Absent;
    }

    /** `limited` is the 429; a limited attempt has still been counted and has still renewed the expiry. */
    method RateLimit(now: int, limit: int, window: int) returns (limited: bool)
      modifies this
      ensures key == Bumped(old(key), now, window)
      ensures limited <==> key.count > limit
    {
      if key.Key? && now >= key.expires {
        key := Absent;
      }
      var count := match key case Absent => 1 case Key(c, _) => c + 1;
      key := Key.Key(count, now + window);
      return count > limit;
    }

    /** A whole run of attempts on one key. */
    method Drive(times: seq<int>, limit: int, window: int) returns (allowed: seq<int>)
      requires key == Absent
      modifies this
      ensures key == KeyAfter(times, window)
      ensures allowed == Allowed(times, limit, window)
    {
      allowed := [];
      for i := 0 to |times|
        invariant key == KeyAfter(times[..i], window)
        invariant allowed == Allowed(times[..i], limit, window)
      {
        assert times[..i + 1][..i] == times[..i];
        var limited := RateLimit(times[i], limit, window);
        if !limited {
          allowed := allowed + [times[i]];
        }
      }
      assert times[..|times|] == times;
    }
  }

  /** Of the attempts less than a window older than the last, no more than the limit were allowed. */
  ghost predicate RedisInv(times: seq<int>, limit: int, window: int) {
    var key, allowed := KeyAfter(times, window), Allowed(times, limit, window);
    && (forall i :: 0 <= i < |allowed| ==> allowed[i] <= times[|times| - 1])
    && (times != [] ==> key == Key.Key(key.count, times[|times| - 1] + window))
    && (times != [] ==>
          forall from, to :: times[|times| - 1] - window < from ==>
            CountIn(allowed, from, to) <= limit && CountIn(allowed, from, to) <= key.count)
  }

  lemma OneMoreAttempt(front: seq<int>, now: int, limit: int, window: int)
    ensures KeyAfter(front + [now], window) == Bumped(KeyAfter(front, window), now, window)
    ensures var key := Bumped(KeyAfter(front, window), now, window);
      Allowed(front + [now], limit, window) == Allowed(front, limit, window) + if key.count <= limit then [now] else []
  {
    assert (front + [now])[..|front|] == front;
  }

  lemma RedisCounts(front: seq<int>, now: int, limit: int, window: int, from: int, to: int)
    requires limit >= 0 && window > 0 && RedisInv(front, limit, window) && now - window < from
    requires front == [] ==> Allowed(front, limit, window) == []
    requires front != [] ==> front[|front| - 1] <= now
    ensures var prior := CountAt(KeyAfter(front, window), now);
      CountIn(Allowed(front, limit, window), from, to) <= prior && CountIn(Allowed(front, limit, window), from, to) <= limit
  {
    if CountAt(KeyAfter(front, window), now) == 0 {
      CountInNone(Allowed(front, limit, window), from, to);
    }
  }

  lemma RedisStep(front: seq<int>, now: int, limit: int, window: int)
    requires limit >= 0 && window > 0 && RedisInv(front, limit, window)
    requires front == [] ==> Allowed(front, limit, window) == []
    requires front != [] ==> front[|front| - 1] <= now
    ensures RedisInv(front + [now], limit, window)
  {
    var allowed, all := Allowed(front, limit, window), Allowed(front + [now], limit, window);
    OneMoreAttempt(front, now, limit, window);
    forall from, to | now - window < from
      ensures CountIn(all, from, to) <= limit
      ensures CountIn(all, from, to) <= KeyAfter(front + [now], window).count
    {
      RedisCounts(front, now, limit, window, from, to);
      CountInSnoc(allowed, now, from, to);
    }
  }

  lemma {:induction false} RedisInvHolds(times: seq<int>, start: int, limit: int, window: int)
    requires limit >= 0 && window > 0 && Ordered(times, start)
    ensures RedisInv(times, limit, window)
  {
    if times != [] {
      var front, now := times[..|times| - 1], times[|times| - 1];
      RedisInvHolds(front, start, limit, window);
      assert front + [now] == times;
      RedisStep(front, now, limit, window);
    }
  }

  /** At most the limit is allowed in any interval as long as the window: renewing the expiry on every attempt
      leaves no boundary to straddle. */
  lemma {:induction false} RedisBound(times: seq<int>, start: int, limit: int, window: int, from: int)
    requires limit >= 0 && window > 0 && Ordered(times, start)
    ensures CountIn(Allowed(times, limit, window), from, from + window) <= limit
  {
    if times != [] {
      var front, now := times[..|times| - 1], times[|times| - 1];
      RedisInvHolds(times, start, limit, window);
      if from + window <= now {
        RedisBound(front, start, limit, window, from);
        CountInSnoc(Allowed(front, limit, window), now, from, from + window);
      }
    }
  }

  /** The attempts since the last pause of a whole window, the last one included. */
  function SincePause(times: seq<int>, window: int): (n: nat)
    ensures n <= |times| && (times != [] ==> n > 0)
    ensures forall i, j :: |times| - n <= i && j == i + 1 < |times| ==> times[j] < times[i] + window
    ensures n < |times| ==> times[|times| - n] >= times[|times| - n - 1] + window
  {
    if |times| <= 1 then |times|
    else if times[|times| - 1] >= times[|times| - 2] + window then 1
    else SincePause(times[..|times| - 1], window) + 1
  }

  /** The price of renewing the expiry: an attempt is let through exactly when it and the attempts before it, back to
      the last pause of a whole window, are within the limit, however slowly they came. */
  lemma {:induction false} LetInSincePause(times: seq<int>, limit: int, window: int)
    requires times != []
    ensures KeyAfter(times, window) == Key.Key(SincePause(times, window), times[|times| - 1] + window)
    ensures var front, now := times[..|times| - 1], times[|times| - 1];
      Allowed(times, limit, window)
      == if SincePause(times, window) <= limit then Allowed(front, limit, window) + [now] else Allowed(front, limit, window)
  {
    var front := times[..|times| - 1];
    if front != [] {
      LetInSincePause(front, limit, window);
    }
  }

  lemma {:induction false} NoPauseNoBreak(times: seq<int>, window: int)
    requires forall i, j :: 0 <= i && j == i + 1 < |times| ==> times[j] < times[i] + window
    ensures SincePause(times, window) == |times|
  {
    if |times| > 1 {
      assert times[|times| - 1] < times[|times| - 2] + window;
      NoPauseNoBreak(times[..|times| - 1], window);
    }
  }

  /** So whoever never pauses for a whole window is never let in again after the first `limit` attempts. */
  lemma {:induction false} SteadyAttemptsAreShutOut(times: seq<int>, limit: nat, window: int)
    requires forall i, j :: 0 <= i && j == i + 1 < |times| ==> times[j] < times[i] + window
    ensures Allowed(times, limit, window) == times[..if |times| <= limit then |times| else limit]
  {
    if times != [] {
      var front := times[..|times| - 1];
      NoPauseNoBreak(times, window);
      LetInSincePause(times, limit, window);
      SteadyAttemptsAreShutOut(front, limit, window);
      assert front + [times[|times| - 1]] == times;
      if |times| <= limit {
        assert front[..|front|] == front && times[..|times|] == times;
      } else {
        assert front[..limit] == times[..limit];
      }
    }
  }
}
