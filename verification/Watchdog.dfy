/** The parent's watchdog: when it reports a hung worker, told from the history of calls alone. */
module Watchdog {
  import opened Options

  /** Times and durations are nanoseconds. */
  const DEFAULT_HANG_WINDOW := 20 * 1_000_000_000

  datatype State = State(ready: bool, lastProgress: Option<int>, lastObserver: Option<int>, lastSequence: nat)

  const INIT := State(false, None, None, 0)

  datatype Call = Ready(now: int) | Beat(sequence: nat, now: int) | Check(now: int)

  predicate ObserverPaused(s: State, window: int, now: int) {
    s.lastObserver.Some? && now - s.lastObserver.value > window
  }

  function After(s: State, window: int, c: Call): State {
    match c
    case Ready(now) => State(true, Some(now), Some(now), 0)
    case Beat(sequence, now) =>
      if !s.ready || sequence <= s.lastSequence then s else s.(lastSequence := sequence, lastProgress := Some(now))
    case Check(now) =>
      if s.ready && ObserverPaused(s, window, now) then s.(lastObserver := Some(now), lastProgress := Some(now))
      else s.(lastObserver := Some(now))
  }

  predicate Reports(s: State, window: int, now: int) {
    && s.ready && !ObserverPaused(s, window, now)
    && (s.lastProgress.Some? ==> now - s.lastProgress.value > window)
  }

  class Watchdog {
    const hangWindow: int
    var ready: bool
    var lastProgress: Option<int>
    var lastObserver: Option<int>
    var lastSequence: nat

    ghost function Abs(): State
      reads this
    {
      State(ready, lastProgress, lastObserver, lastSequence)
    }

    constructor (window: int)
      ensures hangWindow == (if window <= 0 then DEFAULT_HANG_WINDOW else window) && hangWindow > 0
      ensures Abs() == INIT
    {
      hangWindow := if window <= 0 then DEFAULT_HANG_WINDOW else window;
      ready, lastProgress, lastObserver, lastSequence := false, None, None, 0;
    }

    method Ready(now: int)
      modifies this
      ensures Abs() == After(old(Abs()), hangWindow, Call.Ready(now))
    {
      ready := true;
      lastProgress, lastObserver, lastSequence := Some(now), Some(now), 0;
    }

    method Beat(sequence: nat, now: int)
      modifies this
      ensures Abs() == After(old(Abs()), hangWindow, Call.Beat(sequence, now))
    {
      if !ready || sequence <= lastSequence {
        return;
      }
      lastSequence, lastProgress := sequence, Some(now);
    }

    method Check(now: int) returns (hung: bool)
      modifies this
      ensures Abs() == After(old(Abs()), hangWindow, Call.Check(now))
      ensures hung == Reports(old(Abs()), hangWindow, now)
    {
      if !ready {
        lastObserver := Some(now);
        return false;
      }
      if lastObserver.Some? && now - lastObserver.value > hangWindow {
        lastObserver, lastProgress := Some(now), Some(now);
        return false;
      }
      lastObserver := Some(now);
      return lastProgress.None? || now - lastProgress.value > hangWindow;
    }
  }

  // ---- History ----

  /** The state after the first `n` calls. */
  function StateAt(calls: seq<Call>, window: int, n: nat): State
    requires n <= |calls|
  {
    if n == 0 then INIT else After(StateAt(calls, window, n - 1), window, calls[n - 1])
  }

  /** Whether READY was said in the first `n` calls, and the last call that said it. */
  predicate SaidReady(calls: seq<Call>, n: nat)
    requires n <= |calls|
  {
    n > 0 && (calls[n - 1].Ready? || SaidReady(calls, n - 1))
  }

  function LastReady(calls: seq<Call>, n: nat): (r: nat)
    requires n <= |calls| && SaidReady(calls, n)
    ensures r < n && calls[r].Ready?
  {
    if calls[n - 1].Ready? then n - 1 else LastReady(calls, n - 1)
  }

  /** The parent's last own observation before `n`: READY or a check. */
  function LastObserved(calls: seq<Call>, r: nat, n: nat): (o: nat)
    requires r < n <= |calls|
    ensures r <= o < n
  {
    if n - 1 == r || !calls[n - 1].Beat? then n - 1 else LastObserved(calls, r, n - 1)
  }

  /** The highest sequence since READY. */
  function Highest(calls: seq<Call>, r: nat, n: nat): nat
    requires r < n <= |calls|
  {
    if n - 1 == r then 0
    else
      var h := Highest(calls, r, n - 1);
      if calls[n - 1].Beat? && calls[n - 1].sequence > h then calls[n - 1].sequence else h
  }

  /** A call that starts a new window: READY, a beat with a higher sequence, or a check that came
      more than a window after the parent's previous observation. */
  predicate Renews(calls: seq<Call>, window: int, r: nat, p: nat)
    requires r <= p < |calls|
  {
    || p == r
    || (calls[p].Beat? && calls[p].sequence > Highest(calls, r, p))
    || (calls[p].Check? && calls[p].now - calls[LastObserved(calls, r, p)].now > window)
  }

  function LastRenewal(calls: seq<Call>, window: int, r: nat, n: nat): (p: nat)
    requires r < n <= |calls|
    ensures r <= p < n && Renews(calls, window, r, p)
  {
    if Renews(calls, window, r, n - 1) then n - 1 else LastRenewal(calls, window, r, n - 1)
  }

  // ---- What these say ----

  lemma {:induction false} LastReadyMeans(calls: seq<Call>, n: nat)
    requires n <= |calls|
    ensures SaidReady(calls, n) <==> exists i :: 0 <= i < n && calls[i].Ready?
    ensures SaidReady(calls, n) ==> forall i :: LastReady(calls, n) < i < n ==> !calls[i].Ready?
  {
    if n > 0 {
      LastReadyMeans(calls, n - 1);
    }
  }

  lemma {:induction false} LastObservedMeans(calls: seq<Call>, r: nat, n: nat)
    requires r < n <= |calls| && calls[r].Ready?
    ensures !calls[LastObserved(calls, r, n)].Beat?
    ensures forall i :: LastObserved(calls, r, n) < i < n ==> calls[i].Beat?
  {
    if n - 1 > r && calls[n - 1].Beat? {
      LastObservedMeans(calls, r, n - 1);
    }
  }

  lemma {:induction false} HighestMeans(calls: seq<Call>, r: nat, n: nat)
    requires r < n <= |calls|
    ensures forall i :: r < i < n && calls[i].Beat? ==> calls[i].sequence <= Highest(calls, r, n)
    ensures Highest(calls, r, n) > 0 ==>
      exists i :: r < i < n && calls[i].Beat? && calls[i].sequence == Highest(calls, r, n)
  {
    if n - 1 > r {
      HighestMeans(calls, r, n - 1);
    }
  }

  lemma {:induction false} LastRenewalMeans(calls: seq<Call>, window: int, r: nat, n: nat)
    requires r < n <= |calls|
    ensures forall i: nat :: LastRenewal(calls, window, r, n) < i < n ==> !Renews(calls, window, r, i)
  {
    if !Renews(calls, window, r, n - 1) {
      LastRenewalMeans(calls, window, r, n - 1);
    }
  }

  // ---- The watchdog against its history ----

  /** The watchdog's fields hold the last renewal, the last observation and the highest sequence. */
  lemma {:induction false} StateExplained(calls: seq<Call>, window: int, n: nat, r: nat)
    requires n <= |calls| && SaidReady(calls, n) && r == LastReady(calls, n)
    ensures StateAt(calls, window, n) == State(true, Some(calls[LastRenewal(calls, window, r, n)].now),
                                               Some(calls[LastObserved(calls, r, n)].now), Highest(calls, r, n))
  {
    if n - 1 > r {
      StateExplained(calls, window, n - 1, r);
    }
  }

  lemma {:induction false} NotReady(calls: seq<Call>, window: int, n: nat)
    requires n <= |calls| && !SaidReady(calls, n)
    ensures !StateAt(calls, window, n).ready
  {
    if n > 0 {
      NotReady(calls, window, n - 1);
    }
  }

  /** READY was said, the parent itself looked at most one window before call `n`, and for more than
      one window nothing has renewed it, neither a higher sequence nor a pause of the parent. */
  predicate Hung(calls: seq<Call>, window: int, n: nat)
    requires n < |calls|
  {
    && SaidReady(calls, n)
    && var r := LastReady(calls, n);
       && calls[n].now - calls[LastObserved(calls, r, n)].now <= window
       && calls[n].now - calls[LastRenewal(calls, window, r, n)].now > window
  }

  /** For every history of calls a check reports a hang exactly when the worker hung. */
  lemma {:induction false} ReportsIffHung(calls: seq<Call>, window: int, n: nat)
    requires n < |calls| && calls[n].Check?
    ensures Reports(StateAt(calls, window, n), window, calls[n].now) <==> Hung(calls, window, n)
  {
    if SaidReady(calls, n) {
      StateExplained(calls, window, n, LastReady(calls, n));
    } else {
      NotReady(calls, window, n);
    }
  }
}
