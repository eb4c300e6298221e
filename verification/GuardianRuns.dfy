/** Whole runs of the Guardian parent: which generations are started and how long it waits between
    them. */
module GuardianRuns {
  import opened Options
  import opened GuardianLoops
  import W = Watchdog

  /** Times and durations are nanoseconds. */
  const SECOND := 1_000_000_000
  const DEFAULT_SCHEDULE := [SECOND, 5 * SECOND, 30 * SECOND, 120 * SECOND, 300 * SECOND]
  const STABLE_RUN_RESET := 300 * SECOND
  const STOP_TIMEOUT := 5 * SECOND

  datatype ParentOptions = ParentOptions(hangWindow: int, stopTimeout: int, schedule: seq<int>, stableRunReset: int)

  function Positive(delays: seq<int>): (r: seq<int>)
    ensures |r| == |delays| && forall i :: 0 <= i < |r| ==> r[i] > 0
  {
    seq(|delays|, i requires 0 <= i < |delays| => if delays[i] <= 0 then SECOND else delays[i])
  }

  method MakePositive(delays: seq<int>) returns (r: seq<int>)
    ensures r == Positive(delays)
  {
    r := delays;
    for i := 0 to |delays|
      invariant |r| == |delays|
      invariant forall k :: 0 <= k < |delays| ==> r[k] == if k < i && delays[k] <= 0 then SECOND else delays[k]
    {
      if r[i] <= 0 {
        r := r[i := SECOND];
      }
    }
  }

  /** `normalizeParentOptions`. */
  method Normalize(o: ParentOptions) returns (r: ParentOptions)
    ensures r.hangWindow == if o.hangWindow <= 0 then W.DEFAULT_HANG_WINDOW else o.hangWindow
    ensures r.stopTimeout == if o.stopTimeout <= 0 then STOP_TIMEOUT else o.stopTimeout
    ensures r.schedule == Positive(if o.schedule == [] then DEFAULT_SCHEDULE else o.schedule)
    ensures r.stableRunReset == if o.stableRunReset <= 0 then STABLE_RUN_RESET else o.stableRunReset
    ensures Normalized(r)
  {
    var hangWindow, stopTimeout, schedule, reset := o.hangWindow, o.stopTimeout, o.schedule, o.stableRunReset;
    if hangWindow <= 0 {
      hangWindow := W.DEFAULT_HANG_WINDOW;
    }
    if stopTimeout <= 0 {
      stopTimeout := STOP_TIMEOUT;
    }
    if |schedule| == 0 {
      schedule := DEFAULT_SCHEDULE;
    }
    schedule := MakePositive(schedule);
    if reset <= 0 {
      reset := STABLE_RUN_RESET;
    }
    r := ParentOptions(hangWindow, stopTimeout, schedule, reset);
  }

  predicate Normalized(o: ParentOptions) {
    && o.hangWindow > 0 && o.stopTimeout > 0 && o.schedule != [] && o.stableRunReset > 0
    && forall i :: 0 <= i < |o.schedule| ==> o.schedule[i] > 0
  }

  /** `parentRestartDelay`, with its own guards. */
  function RestartDelay(schedule: seq<int>, level: int): int {
    if |schedule| == 0 then SECOND
    else
      var l := if level < 0 then 0 else level;
      var i := if l >= |schedule| then |schedule| - 1 else l;
      if schedule[i] <= 0 then SECOND else schedule[i]
  }

  /** The wait after a generation that asks for a restart, and the level from then on. */
  function Restarting(o: ParentOptions, level: int, readyFor: int): (int, int) {
    var l := if readyFor >= o.stableRunReset then 0 else level;
    (RestartDelay(o.schedule, l), if l < |o.schedule| - 1 then l + 1 else l)
  }

  /** The restart case of the loop of `RunParent`. */
  method Restart(o: ParentOptions, level: int, readyFor: int) returns (delay: int, next: int)
    ensures (delay, next) == Restarting(o, level, readyFor)
  {
    next := level;
    if readyFor >= o.stableRunReset {
      next := 0;
    }
    delay := RestartDelay(o.schedule, next);
    if next < |o.schedule| - 1 {
      next := next + 1;
    }
  }

  // ---- One generation ----

  /** How a generation begins; `stopped` is the outcome of `stopChild` where it is called. */
  datatype Generation =
    | NotStarted
    | CancelledEarly(stopped: Stopped)
    | ExitedEarly
    | AcceptFailed(cancelled: bool, stopped: Stopped)
    | Accepted(turns: seq<ParentTurn>)

  /** `runGeneration`; `None` while it is still running. */
  function Outcome(o: ParentOptions, g: Generation): Option<Result> {
    match g
    case NotStarted => Some(Result(ToStartupFailure, 0, false, true))
    case CancelledEarly(stopped) => Some(Result(ToNormalStop, 0, false, !stopped.NotReaped?))
    case ExitedEarly => Some(Result(ToStartupFailure, 0, false, true))
    case AcceptFailed(cancelled, stopped) =>
      Some(Result(if cancelled then ToNormalStop else ToStartupFailure, 0, false, !stopped.NotReaped?))
    case Accepted(turns) => Monitor(PARENT_INIT, o.hangWindow, turns)
  }

  /** The parent saw READY in this generation. */
  predicate SawReady(g: Generation) { g.Accepted? && ReadyRead(g.turns, |g.turns|) }

  lemma RestartedWasReady(o: ParentOptions, g: Generation)
    requires Outcome(o, g).Some? && Outcome(o, g).value.disposition.ToRestart?
    ensures SawReady(g)
  {
    RestartNeedsReady(PARENT_INIT, o.hangWindow, g.turns);
  }

  /** How a generation ends follows from what it meets. Before a channel is accepted it is a normal stop if
      cancelled and else a startup failure; after, the turns decide. */
  lemma {:induction false} GenerationExplained(o: ParentOptions, g: Generation)
    ensures g.Accepted? ==> MonitorGives(g.turns, o.hangWindow, Outcome(o, g))
    ensures !g.Accepted? ==>
      && Outcome(o, g).Some?
      && var r := Outcome(o, g).value;
         && (g.CancelledEarly? || (g.AcceptFailed? && g.cancelled) ==> r.disposition.ToNormalStop?)
         && (g.NotStarted? || g.ExitedEarly? || (g.AcceptFailed? && !g.cancelled) ==> r.disposition.ToStartupFailure?)
         && r.readyFor == 0 && !r.protocolError
         && (r.reaped <==> !((g.CancelledEarly? || g.AcceptFailed?) && g.stopped.NotReaped?))
  {
    if g.Accepted? {
      MonitorExplained(g.turns, o.hangWindow);
    }
  }

  // ---- Runs ----

  predicate Stable(o: ParentOptions, r: Result) { r.readyFor >= o.stableRunReset }

  /** The number of restarts since the last stable run, before the one after result `i`. */
  function Since(o: ParentOptions, rs: seq<Result>, i: nat): nat
    requires i < |rs|
  {
    if i == 0 || Stable(o, rs[i]) then 0 else Since(o, rs, i - 1) + 1
  }

  function Min(a: int, b: int): int { if a <= b then a else b }

  /** The waiting time after result `i`. */
  function Wait(o: ParentOptions, rs: seq<Result>, i: nat): int
    requires Normalized(o) && i < |rs|
  {
    o.schedule[Min(Since(o, rs, i), |o.schedule| - 1)]
  }

  datatype End = Running | Stopped | Failed

  /** `RunParent` on the generations the world provides; `cancelled(i)` says whether the wait after
      generation `i` is cut short. A generation follows only one that asked for a restart, and so
      had said READY; the `j`-th restart since the last stable run waits for entry `j` of the
      schedule, or the last entry. */
  method RunParent(given: ParentOptions, gens: seq<Generation>, cancelled: nat -> bool)
    returns (o: ParentOptions, rs: seq<Result>, waits: seq<int>, end: End)
    ensures Normalized(o) && ParentRun(o, gens, cancelled, rs, waits)
    ensures end.Running? ==> InFlight(o, gens, cancelled, rs, waits)
    ensures end.Failed? ==> rs != [] && rs[|rs| - 1].disposition.ToStartupFailure?
    ensures end.Stopped? ==>
      rs != [] && (rs[|rs| - 1].disposition.ToNormalStop? || (|waits| == |rs| && cancelled(|rs| - 1)))
  {
    o := Normalize(given);
    var restartLevel := 0;
    rs, waits := [], [];
    for i := 0 to |gens|
      invariant |rs| == i && Restarted(o, gens, cancelled, rs)
      invariant Waited(o, rs, waits) && restartLevel == LevelAfter(o, rs)
    {
      var result := Outcome(o, gens[i]);
      if result.None? {
        return o, rs, waits, Running;
      }
      var r := result.value;
      Extended(o, gens, cancelled, rs, waits, r);
      match r.disposition {
        case ToNormalStop => return o, rs + [r], waits, Stopped;
        case ToStartupFailure => return o, rs + [r], waits, Failed;
        case ToRestart =>
          LevelIs(o, rs, r);
          var delay;
          delay, restartLevel := Restart(o, restartLevel, r.readyFor);
          rs, waits := rs + [r], waits + [delay];
          if cancelled(i) {
            return o, rs, waits, Stopped;
          }
      }
    }
    end := Running;
  }

  /** The run is not over: after as many results as waits, the next generation has been started and
      has no result yet. */
  ghost predicate InFlight(
    o: ParentOptions, gens: seq<Generation>, cancelled: nat -> bool, rs: seq<Result>, waits: seq<int>)
  {
    && |waits| == |rs| && Restarted(o, gens, cancelled, rs)
    && (|rs| < |gens| ==> Outcome(o, gens[|rs|]).None?)
  }

  /** Each generation that followed another followed one that had said READY and whose wait was
      not cut short; each wait is the one its place in the run asks for. */
  ghost predicate ParentRun(
    o: ParentOptions, gens: seq<Generation>, cancelled: nat -> bool, rs: seq<Result>, waits: seq<int>)
    requires Normalized(o)
  {
    && |rs| <= |gens| && |waits| <= |rs| <= |waits| + 1
    && (forall i :: 0 <= i < |rs| ==> Outcome(o, gens[i]) == Some(rs[i]))
    && (forall i :: 0 <= i < |waits| ==> rs[i].disposition.ToRestart? && SawReady(gens[i]))
    && (forall i :: 0 <= i < |waits| ==> waits[i] == Wait(o, rs, i))
    && (forall i: nat :: i < |rs| - 1 ==> !cancelled(i))
  }

  /** Every generation so far asked for a restart, and the wait after it was not cut short. */
  ghost predicate Restarted(o: ParentOptions, gens: seq<Generation>, cancelled: nat -> bool, rs: seq<Result>) {
    |rs| <= |gens| && forall k: nat :: k < |rs| ==>
      Outcome(o, gens[k]) == Some(rs[k]) && rs[k].disposition.ToRestart? && SawReady(gens[k]) && !cancelled(k)
  }

  predicate Waited(o: ParentOptions, rs: seq<Result>, waits: seq<int>) {
    Normalized(o) && |waits| == |rs| && forall k :: 0 <= k < |waits| ==> waits[k] == Wait(o, rs, k)
  }

  /** The restart level after these results. */
  function LevelAfter(o: ParentOptions, rs: seq<Result>): int {
    if rs == [] then 0 else Min(Since(o, rs, |rs| - 1) + 1, |o.schedule| - 1)
  }

  lemma WaitedLonger(o: ParentOptions, rs: seq<Result>, waits: seq<int>, r: Result)
    requires Waited(o, rs, waits)
    ensures forall k :: 0 <= k < |waits| ==> waits[k] == Wait(o, rs + [r], k)
  {
    forall k | 0 <= k < |waits| ensures waits[k] == Wait(o, rs + [r], k) {
      SincePrefix(o, rs, r, k);
    }
  }

  lemma Extended(
    o: ParentOptions, gens: seq<Generation>, cancelled: nat -> bool, rs: seq<Result>, waits: seq<int>, r: Result)
    requires Restarted(o, gens, cancelled, rs) && Waited(o, rs, waits)
    requires |rs| < |gens| && Outcome(o, gens[|rs|]) == Some(r)
    ensures ParentRun(o, gens, cancelled, rs + [r], waits)
    ensures r.disposition.ToRestart? ==>
      var delay := Wait(o, rs + [r], |rs|);
      && ParentRun(o, gens, cancelled, rs + [r], waits + [delay]) && Waited(o, rs + [r], waits + [delay])
      && (!cancelled(|rs|) ==> Restarted(o, gens, cancelled, rs + [r]))
  {
    WaitedLonger(o, rs, waits, r);
    if r.disposition.ToRestart? {
      RestartedWasReady(o, gens[|rs|]);
    }
  }

  /** The level is the number of restarts since the last stable run, up to the last entry. */
  lemma LevelIs(o: ParentOptions, rs: seq<Result>, r: Result)
    requires Normalized(o)
    ensures Restarting(o, LevelAfter(o, rs), r.readyFor) == (Wait(o, rs + [r], |rs|), LevelAfter(o, rs + [r]))
  {
    var n := Since(o, rs + [r], |rs|);
    if rs != [] {
      SincePrefix(o, rs, r, |rs| - 1);
    }
    CapsAt(o, n);
  }

  lemma CapsAt(o: ParentOptions, n: nat)
    requires Normalized(o)
    ensures var l := Min(n, |o.schedule| - 1);
      && RestartDelay(o.schedule, l) == o.schedule[l]
      && Min(n + 1, |o.schedule| - 1) == if l < |o.schedule| - 1 then l + 1 else l
  {
  }

  lemma {:induction false} SincePrefix(o: ParentOptions, rs: seq<Result>, r: Result, k: nat)
    requires k < |rs|
    ensures Since(o, rs + [r], k) == Since(o, rs, k)
  {
    if k > 0 {
      SincePrefix(o, rs, r, k - 1);
    }
  }

  /** `Since` counts back to the last stable run, or to the first. */
  lemma {:induction false} SinceCounts(o: ParentOptions, rs: seq<Result>, i: nat) returns (k: nat)
    requires i < |rs|
    ensures k <= i && Since(o, rs, i) == i - k && (k == 0 || Stable(o, rs[k]))
    ensures forall n :: k < n <= i ==> !Stable(o, rs[n])
  {
    if i == 0 || Stable(o, rs[i]) {
      k := i;
    } else {
      k := SinceCounts(o, rs, i - 1);
    }
  }

  /** Without options the waits are 1s, 5s, 30s, 2m and then 5m each, until a run of 5m. */
  lemma DefaultWaits(o: ParentOptions, rs: seq<Result>, i: nat)
    requires o.schedule == Positive(DEFAULT_SCHEDULE) && Normalized(o) && i < |rs|
    requires forall n :: 0 < n <= i ==> !Stable(o, rs[n])
    ensures Wait(o, rs, i) == [1, 5, 30, 120, 300][Min(i, 4)] * SECOND
  {
    var k := SinceCounts(o, rs, i);
  }
}
