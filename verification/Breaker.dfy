/** The remote transport's circuit breaker (`transport/remote.ts`): when a transport switches itself off. */
module Breaker {
  const DEGRADATION_WINDOW_MS := 60_000
  const DEGRADATION_THRESHOLD := 3

  /** How the two error parsers classify an error; it can match neither, either or both. */
  datatype Failure = Failure(functionNotFound: bool, auth: bool)

  /** A failure comes from an operation or from the error callback of a subscription. */
  datatype Event = ShutDown | Operation(failure: Failure, now: int) | Subscription(failure: Failure, now: int)

  datatype Switch = Switch(enabled: bool, shutdownStarted: bool, recentFailures: seq<int>)

  const SWITCHED_ON := Switch(true, false, [])

  /** The window after the loop that shifts stale entries off its front. */
  function DropStale(failures: seq<int>, now: int): seq<int> {
    if failures != [] && now - failures[0] > DEGRADATION_WINDOW_MS then DropStale(failures[1..], now) else failures
  }

  function Counted(s: Switch, now: int): Switch {
    var window := DropStale(s.recentFailures + [now], now);
    s.(recentFailures := window, enabled := s.enabled && |window| < DEGRADATION_THRESHOLD)
  }

  function After(s: Switch, e: Event): Switch {
    match e
    case ShutDown => if s.shutdownStarted then s else s.(enabled := false, shutdownStarted := true)
    case Operation(f, now) => if f.functionNotFound || f.auth then s.(enabled := false) else Counted(s, now)
    case Subscription(f, now) => if f.functionNotFound then s.(enabled := false) else Counted(s, now)
  }

  class CircuitBreaker {
    var enabled: bool
    var shutdownStarted: bool
    var recentFailures: seq<int>

    constructor ()
      ensures Abs() == SWITCHED_ON
    {
      enabled, shutdownStarted, recentFailures := true, false, [];
    }

    ghost function Abs(): Switch
      reads this
    {
      Switch(enabled, shutdownStarted, recentFailures)
    }

    method Shutdown()
      modifies this
      ensures Abs() == After(old(Abs()), ShutDown)
    {
      if shutdownStarted {
        return;
      }
      shutdownStarted := true;
      enabled := false;
    }

    method RegisterSubscriptionFailure(failure: Failure, now: int)
      modifies this
      ensures Abs() == After(old(Abs()), Subscription(failure, now))
    {
      if failure.functionNotFound {
        enabled := false;
        return;
      }
      Count(now);
    }

    method RegisterFailure(failure: Failure, now: int)
      modifies this
      ensures Abs() == After(old(Abs()), Operation(failure, now))
    {
      if failure.functionNotFound {
        enabled := false;
        return;
      }
      if failure.auth {
        enabled := false;
        return;
      }
      Count(now);
    }

    method Count(now: int)
      modifies this
      ensures Abs() == Counted(old(Abs()), now)
    {
      recentFailures := recentFailures + [now];
      ghost var pushed := recentFailures;
      while |recentFailures| > 0 && now - recentFailures[0] > DEGRADATION_WINDOW_MS
        invariant DropStale(recentFailures, now) == DropStale(pushed, now)
        invariant enabled == old(enabled) && shutdownStarted == old(shutdownStarted)
        decreases |recentFailures|
      {
        recentFailures := recentFailures[1..];
      }
      if |recentFailures| >= DEGRADATION_THRESHOLD {
        enabled := false;
      }
    }
  }

  // ---------------------------------------------------------------- whole histories

  function StateAfter(history: seq<Event>): Switch {
    if history == [] then SWITCHED_ON else After(StateAfter(history[..|history| - 1]), history[|history| - 1])
  }

  predicate IsCounted(e: Event) {
    match e
    case ShutDown => false
    case Operation(f, _) => !f.functionNotFound && !f.auth
    case Subscription(f, _) => !f.functionNotFound
  }

  /** The times of all failures that count towards the window, in order. */
  function CountedTimes(history: seq<Event>): seq<int> {
    if history == [] then []
    else
      var before, e := CountedTimes(history[..|history| - 1]), history[|history| - 1];
      if IsCounted(e) then before + [e.now] else before
  }

  predicate Sorted(times: seq<int>) {
    forall i, j | 0 <= i < j < |times| :: times[i] <= times[j]
  }

  predicate SwitchesOffAtOnce(e: Event) {
    match e
    case ShutDown => true
    case Operation(f, _) => f.functionNotFound || f.auth
    case Subscription(f, _) => f.functionNotFound
  }

  predicate Within(a: int, b: int, c: int) {
    b - a <= DEGRADATION_WINDOW_MS && c - b <= DEGRADATION_WINDOW_MS && c - a <= DEGRADATION_WINDOW_MS
  }

  predicate ThreeAt(times: seq<int>, i: int, j: int, k: int) {
    0 <= i < j < k < |times| && Within(times[i], times[j], times[k])
  }

  predicate TwoAt(times: seq<int>, i: int, j: int, now: int) {
    0 <= i < j < |times| && Within(times[i], times[j], now)
  }

  ghost predicate ThreeWithinWindow(times: seq<int>) {
    exists i, j, k :: ThreeAt(times, i, j, k)
  }

  ghost predicate TwoWithinWindow(times: seq<int>, now: int) {
    exists i, j :: TwoAt(times, i, j, now)
  }

  lemma {:induction false} DropStaleDrops(times: seq<int>, now: int)
    ensures |DropStale(times, now)| <= |times|
    ensures var gone := |times| - |DropStale(times, now)|;
            && DropStale(times, now) == times[gone..]
            && (gone < |times| ==> now - times[gone] <= DEGRADATION_WINDOW_MS)
            && forall i | 0 <= i < gone :: now - times[i] > DEGRADATION_WINDOW_MS
  {
    if times == [] || now - times[0] <= DEGRADATION_WINDOW_MS {
    } else {
      DropStaleDrops(times[1..], now);
      var gone := |times| - |DropStale(times, now)|;
      assert forall i | 1 <= i < |times| :: times[i] == times[1..][i - 1];
    }
  }

  /** Dropping early loses nothing a later drop would keep. */
  lemma {:induction false} DropStaleAgain(times: seq<int>, earlier: int, now: int)
    requires earlier <= now
    ensures DropStale(DropStale(times, earlier) + [now], now) == DropStale(times + [now], now)
  {
    if times == [] || earlier - times[0] <= DEGRADATION_WINDOW_MS {
    } else {
      DropStaleAgain(times[1..], earlier, now);
      assert (times + [now])[1..] == times[1..] + [now];
    }
  }

  /** The window always is what the whole list of counted failures leaves within 60 seconds of the last one. */
  function Window(times: seq<int>): seq<int> {
    if times == [] then [] else DropStale(times, times[|times| - 1])
  }

  lemma CountingKeepsWindow(times: seq<int>, now: int)
    requires Sorted(times + [now])
    ensures DropStale(Window(times) + [now], now) == Window(times + [now])
  {
    if times != [] {
      var last := times[|times| - 1];
      assert (times + [now])[|times| - 1] <= (times + [now])[|times|];
      DropStaleAgain(times, last, now);
    }
  }

  lemma SortedPrefix(history: seq<Event>)
    requires history != [] && Sorted(CountedTimes(history))
    ensures Sorted(CountedTimes(history[..|history| - 1]))
  {
    var before, after := CountedTimes(history[..|history| - 1]), CountedTimes(history);
    assert forall i | 0 <= i < |before| :: before[i] == after[i];
  }

  lemma {:induction false} WindowIsExact(history: seq<Event>)
    requires Sorted(CountedTimes(history))
    ensures StateAfter(history).recentFailures == Window(CountedTimes(history))
  {
    if history == [] {
    } else {
      var before, e := history[..|history| - 1], history[|history| - 1];
      SortedPrefix(history);
      WindowIsExact(before);
      if IsCounted(e) {
        CountingKeepsWindow(CountedTimes(before), e.now);
      }
    }
  }

  /** A counted failure trips the breaker exactly when it completes three within the window. */
  lemma ThirdInWindow(times: seq<int>, now: int)
    requires Sorted(times + [now])
    ensures |Window(times + [now])| >= DEGRADATION_THRESHOLD
       <==> TwoWithinWindow(times, now)
  {
    var all := times + [now];
    var window := DropStale(all, now);
    DropStaleDrops(all, now);
    var gone := |all| - |window|;
    if |window| >= DEGRADATION_THRESHOLD {
      assert all[gone] == times[gone] && all[gone + 1] == times[gone + 1];
      assert times[gone] <= times[gone + 1] <= now by {
        assert all[gone] <= all[gone + 1] <= all[|times|];
      }
      assert TwoAt(times, gone, gone + 1, now);
    }
    if i, j :| TwoAt(times, i, j, now) {
      assert all[i] == times[i];
      assert i >= gone;
    }
  }

  lemma ThreeEarlierOrNow(times: seq<int>, now: int)
    ensures ThreeWithinWindow(times + [now])
       <==> ThreeWithinWindow(times) || TwoWithinWindow(times, now)
  {
    var all := times + [now];
    if i, j, k :| ThreeAt(all, i, j, k) {
      assert if k < |times| then ThreeAt(times, i, j, k) else TwoAt(times, i, j, now);
    }
    if i, j, k :| ThreeAt(times, i, j, k) {
      assert ThreeAt(all, i, j, k);
    }
    if i, j :| TwoAt(times, i, j, now) {
      assert ThreeAt(all, i, j, |times|);
    }
  }

  ghost predicate SomeAtOnce(history: seq<Event>) {
    exists e | e in history :: SwitchesOffAtOnce(e)
  }

  lemma SomeAtOnceLast(before: seq<Event>, e: Event)
    ensures SomeAtOnce(before + [e]) <==> SomeAtOnce(before) || SwitchesOffAtOnce(e)
  {
  }

  lemma {:induction false} ShutDownIsOff(history: seq<Event>)
    ensures StateAfter(history).shutdownStarted ==> !StateAfter(history).enabled
  {
    if history == [] {
    } else {
      ShutDownIsOff(history[..|history| - 1]);
    }
  }

  lemma CountedTripsOnThird(history: seq<Event>, e: Event)
    requires IsCounted(e) && Sorted(CountedTimes(history + [e]))
    ensures !StateAfter(history + [e]).enabled
       <==> !StateAfter(history).enabled
            || TwoWithinWindow(CountedTimes(history), e.now)
  {
    assert (history + [e])[..|history|] == history;
    assert CountedTimes(history + [e]) == CountedTimes(history) + [e.now];
    WindowIsExact(history + [e]);
    assert StateAfter(history + [e]) == Counted(StateAfter(history), e.now);
    ThirdInWindow(CountedTimes(history), e.now);
  }

  /** With a clock that never runs backwards, a transport is off if and only if it was shut down, some error said that a
      function does not exist, an operation failed to authenticate, or some three counted failures lie within a
      minute. */
  lemma {:induction false} OffExactlyWhenTripped(history: seq<Event>)
    requires Sorted(CountedTimes(history))
    ensures !StateAfter(history).enabled <==> SomeAtOnce(history) || ThreeWithinWindow(CountedTimes(history))
  {
    if history == [] {
    } else {
      var before, e := history[..|history| - 1], history[|history| - 1];
      assert history == before + [e];
      SortedPrefix(history);
      OffExactlyWhenTripped(before);
      SomeAtOnceLast(before, e);
      if IsCounted(e) {
        CountedTripsOnThird(before, e);
        ThreeEarlierOrNow(CountedTimes(before), e.now);
      } else {
        ShutDownIsOff(before);
      }
    }
  }

  /** Whatever the clock does, once off the transport stays off. */
  lemma {:induction false} NeverBackOn(before: seq<Event>, later: seq<Event>)
    requires !StateAfter(before).enabled
    ensures !StateAfter(before + later).enabled
  {
    if later == [] {
      assert before + later == before;
    } else {
      var rest := later[..|later| - 1];
      assert (before + later)[..|before + later| - 1] == before + rest;
      NeverBackOn(before, rest);
    }
  }

  /** Shutting down is remembered for good, and only shutting down. */
  lemma {:induction false} ShutDownIsRemembered(history: seq<Event>)
    ensures StateAfter(history).shutdownStarted <==> ShutDown in history
  {
    if history == [] {
    } else {
      ShutDownIsRemembered(history[..|history| - 1]);
      assert history == history[..|history| - 1] + [history[|history| - 1]];
    }
  }

  /** Whatever the clock does: a counted failure joins the window, entries too old at its front leave it, and the
      transport goes off if three or more remain. */
  lemma CountingSteps(s: Switch, now: int)
    ensures var s', all := Counted(s, now), s.recentFailures + [now];
            && |s'.recentFailures| <= |all| && s'.shutdownStarted == s.shutdownStarted
            && var gone := |all| - |s'.recentFailures|;
            && s'.recentFailures == all[gone..]
            && (forall i | 0 <= i < gone :: all[i] < now - 60_000)
            && (gone < |all| ==> all[gone] >= now - 60_000)
            && (s'.enabled <==> s.enabled && |s'.recentFailures| <= 2)
  {
    DropStaleDrops(s.recentFailures + [now], now);
  }
}
