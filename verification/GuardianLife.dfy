/** The children of a Guardian parent over a whole run: every step of `RunParent`, `runGeneration`,
    `monitorReadyWorker` and `stopChild` is one event, interleaved with the exits of the children,
    which are the environment's. */
module GuardianLife {
  import opened Options
  import opened GuardianLoops
  import opened GuardianRuns
  import W = Watchdog
  import GuardianWire

  /** Where the parent is. `Stopping` is `stopChild`: STOP was sent, or the child killed, at `since`. */
  datatype Phase =
    | Starting
    | Accepting
    | Monitoring(p: Parent)
    | Stopping(p: Parent, why: Why, since: int, killed: bool)
    | Delaying(until: int)
    | Ended

  /** `gen` numbers the generations and their children; `alive` are the children that have started
      and not exited, `status` says of those that have exited whether they failed. */
  datatype State = State(
    o: ParentOptions, phase: Phase, gen: nat, level: int, alive: set<nat>, status: map<nat, bool>)

  function Init(o: ParentOptions): State { State(o, Starting, 0, 0, {}, map[]) }

  datatype Kind =
    | StartFails
    | ChildStarts
    | ChildExits(child: nat, failed: bool)
    | AcceptCancelled
    | AcceptFails
    | AcceptSeesExit
    | Accepts
    | Turns(x: Stimulus)
    | StopSeesExit
    | TimerFires
    | DelayEnds
    | DelayCancelled

  datatype Event = Event(k: Kind, now: int)

  /** A generation is over: a restart waits first, anything else ends the run. */
  function Over(s: State, d: Disposition, readyFor: int, now: int): State {
    if !d.ToRestart? then s.(phase := Ended)
    else var (delay, level) := Restarting(s.o, s.level, readyFor); s.(phase := Delaying(now + delay), level := level)
  }

  /** The result of the wait for a child can be received once the child has exited. */
  predicate Reapable(s: State) { s.gen !in s.alive && s.gen in s.status }

  ghost predicate TurnNext(s: State, x: Stimulus, now: int, s': State)
    requires s.phase.Monitoring?
  {
    var (p, d) := Decide(s.phase.p, s.o.hangWindow, x, now);
    && (x.ExitSeen? ==> Reapable(s) && s.status[s.gen] == x.failed)
    && match d
       case GoOn => s' == s.(phase := Monitoring(p))
       case Over(disposition) => s' == Over(s, disposition, ReadyFor(p, now), now)
       case StopChild(why) => s' == s.(phase := Stopping(p, why, now, false))
  }

  function StopResult(s: State, stopped: Stopped, now: int): State
    requires s.phase.Stopping?
  {
    Over(s, Settle(s.phase.p.ready, s.phase.why, stopped), ReadyFor(s.phase.p, now), now)
  }

  ghost predicate Next(s: State, e: Event, s': State) {
    match e.k
    case StartFails => s.phase.Starting? && s' == s.(phase := Ended)
    case ChildStarts => s.phase.Starting? && s' == s.(phase := Accepting, alive := s.alive + {s.gen})
    case ChildExits(g, failed) => g in s.alive && s' == s.(alive := s.alive - {g}, status := s.status[g := failed])
    case AcceptCancelled => s.phase.Accepting? && s' == s.(phase := Stopping(PARENT_INIT, Cancel, e.now, false))
    case AcceptFails => s.phase.Accepting? && s' == s.(phase := Stopping(PARENT_INIT, LostChannel, e.now, false))
    case AcceptSeesExit => s.phase.Accepting? && Reapable(s) && s' == s.(phase := Ended)
    case Accepts => s.phase.Accepting? && s' == s.(phase := Monitoring(PARENT_INIT))
    case Turns(x) => s.phase.Monitoring? && TurnNext(s, x, e.now, s')
    case StopSeesExit =>
      && s.phase.Stopping? && Reapable(s)
      && s' == StopResult(s, if s.status[s.gen] then ExitedWithError else ExitedCleanly, e.now)
    case TimerFires =>
      && s.phase.Stopping? && e.now - s.phase.since >= s.o.stopTimeout
      && s' == if s.phase.killed then StopResult(s, NotReaped, e.now)
               else s.(phase := s.phase.(since := e.now, killed := true))
    case DelayEnds => s.phase.Delaying? && e.now >= s.phase.until && s' == s.(phase := Starting, gen := s.gen + 1)
    case DelayCancelled => s.phase.Delaying? && s' == s.(phase := Ended)
  }

  ghost predicate Run(ss: seq<State>, es: seq<Event>) {
    && |ss| == |es| + 1 && Normalized(ss[0].o) && ss[0] == Init(ss[0].o)
    && forall i :: 0 <= i < |es| ==> Next(ss[i], es[i], ss[i + 1])
  }

  // ---- What a step does ----

  /** The parent is responsible for the child of the current generation. */
  predicate InHand(p: Phase) { p.Accepting? || p.Monitoring? || p.Stopping? }

  predicate Starts(s: State, e: Event, g: nat) { e.k.ChildStarts? && s.gen == g }

  predicate Exits(e: Event, g: nat) { e.k.ChildExits? && e.k.child == g }

  /** The second timer of `stopChild` fires: the child was killed and not reaped in time. */
  predicate GivesUp(s: State, e: Event, g: nat) {
    e.k.TimerFires? && s.phase.Stopping? && s.phase.killed && s.gen == g
  }

  predicate Kills(s: State, e: Event, g: nat) {
    e.k.TimerFires? && s.phase.Stopping? && !s.phase.killed && s.gen == g
  }

  /** A step's effect on one child. */
  predicate ChildStep(s: State, e: Event, s': State, g: nat) {
    && (Exits(e, g) ==> g in s.alive && g !in s'.alive)
    && (Starts(s, e, g) ==> g in s'.alive)
    && (!Exits(e, g) && !Starts(s, e, g) ==> (g in s'.alive <==> g in s.alive))
  }

  /** A step's effect on the parent. */
  predicate ParentStep(s: State, e: Event, s': State) {
    && s'.o == s.o
    && s'.gen == s.gen + (if e.k.DelayEnds? then 1 else 0)
    && (e.k.ChildStarts? ==> s.phase.Starting? && InHand(s'.phase))
    && (e.k.DelayEnds? ==> s.phase.Delaying? && e.now >= s.phase.until && s'.phase.Starting?)
    && (s.phase.Ended? ==> s'.phase.Ended?)
    && (InHand(s.phase) && !InHand(s'.phase) ==> s.gen !in s.alive || GivesUp(s, e, s.gen))
    && (InHand(s'.phase) && !InHand(s.phase) ==> e.k.ChildStarts?)
    && (s'.phase.Starting? && !s.phase.Starting? ==> e.k.DelayEnds?)
    && (s'.phase.Delaying? && !s.phase.Delaying? ==> InHand(s.phase))
    && (s.phase.Delaying? ==> s'.phase == s.phase || s'.phase.Ended? || e.k.DelayEnds?)
    && (s.phase.Starting? ==> s'.phase == s.phase || s'.phase.Ended? || e.k.ChildStarts?)
  }

  /** The wait before the next generation, when this one gives up on its child at event `e`. */
  function WaitAfter(s: State, e: Event): int
    requires s.phase.Stopping?
  {
    Restarting(s.o, s.level, ReadyFor(s.phase.p, e.now)).0
  }

  /** A step's effect on the timers of `stopChild`. */
  predicate TimerStep(s: State, e: Event, s': State) {
    && (s'.phase.Stopping? && s'.phase.killed ==>
          || (Kills(s, e, s.gen) && s'.phase.since == e.now && s'.gen == s.gen)
          || (s.phase.Stopping? && s.phase.killed && s'.phase.since == s.phase.since && s'.gen == s.gen))
    && (e.k.TimerFires? ==> s.phase.Stopping? && e.now - s.phase.since >= s.o.stopTimeout)
    && (GivesUp(s, e, s.gen) ==>
          s'.phase.Ended? || (WaitAfter(s, e) > 0 && s'.phase == Delaying(e.now + WaitAfter(s, e))))
  }

  lemma StepChild(s: State, e: Event, s': State, g: nat)
    requires Next(s, e, s')
    ensures ChildStep(s, e, s', g)
  {
  }

  lemma StepParent(s: State, e: Event, s': State)
    requires Next(s, e, s')
    ensures ParentStep(s, e, s')
  {
  }

  lemma StepTimer(s: State, e: Event, s': State)
    requires Next(s, e, s') && Normalized(s.o)
    ensures TimerStep(s, e, s')
  {
  }

  /** What the lemmas below need of a run. */
  ghost predicate Parents(ss: seq<State>, es: seq<Event>) {
    && |ss| == |es| + 1 && ss[0].gen == 0 && ss[0].phase.Starting? && Normalized(ss[0].o)
    && (forall i :: 0 <= i < |es| ==> ParentStep(ss[i], es[i], ss[i + 1]))
    && (forall i :: 0 <= i < |es| ==> TimerStep(ss[i], es[i], ss[i + 1]))
  }

  ghost predicate Child(ss: seq<State>, es: seq<Event>, g: nat) {
    && |ss| == |es| + 1 && g !in ss[0].alive
    && forall i :: 0 <= i < |es| ==> ChildStep(ss[i], es[i], ss[i + 1], g)
  }

  lemma {:induction false} SameOptions(ss: seq<State>, es: seq<Event>, n: nat)
    requires Run(ss, es) && n <= |es|
    ensures ss[n].o == ss[0].o
  {
    if n > 0 {
      SameOptions(ss, es, n - 1);
      StepParent(ss[n - 1], es[n - 1], ss[n]);
    }
  }

  lemma RunParents(ss: seq<State>, es: seq<Event>)
    requires Run(ss, es)
    ensures Parents(ss, es)
  {
    forall i | 0 <= i < |es| ensures ParentStep(ss[i], es[i], ss[i + 1]) && TimerStep(ss[i], es[i], ss[i + 1]) {
      SameOptions(ss, es, i);
      StepParent(ss[i], es[i], ss[i + 1]);
      StepTimer(ss[i], es[i], ss[i + 1]);
    }
  }

  lemma RunChild(ss: seq<State>, es: seq<Event>, g: nat)
    requires Run(ss, es)
    ensures Child(ss, es, g)
  {
    forall i | 0 <= i < |es| ensures ChildStep(ss[i], es[i], ss[i + 1], g) {
      StepChild(ss[i], es[i], ss[i + 1], g);
    }
  }

  // ---- Histories ----

  /** Child `g` has not exited before event `n`. */
  predicate NotGoneBy(es: seq<Event>, g: nat, n: nat) { forall i :: 0 <= i < n && i < |es| ==> !Exits(es[i], g) }

  /** A child that is yet to start is not alive and has not exited. */
  lemma {:induction false} NotYet(ss: seq<State>, es: seq<Event>, n: nat, g: nat)
    requires Parents(ss, es) && Child(ss, es, g) && n <= |es|
    requires ss[n].gen < g || (ss[n].gen == g && ss[n].phase.Starting?)
    ensures g !in ss[n].alive && NotGoneBy(es, g, n)
  {
    if n > 0 {
      assert ParentStep(ss[n - 1], es[n - 1], ss[n]) && ChildStep(ss[n - 1], es[n - 1], ss[n], g);
      NotYet(ss, es, n - 1, g);
    }
  }

  /** A live child has not exited, and was started by some event. */
  lemma {:induction false} AliveMeans(ss: seq<State>, es: seq<Event>, n: nat, g: nat) returns (q: nat)
    requires Parents(ss, es) && Child(ss, es, g) && n <= |es| && g in ss[n].alive
    ensures NotGoneBy(es, g, n) && q < n && Starts(ss[q], es[q], g)
  {
    var m := n - 1;
    assert ChildStep(ss[m], es[m], ss[n], g) && ParentStep(ss[m], es[m], ss[n]);
    if Starts(ss[m], es[m], g) {
      NotYet(ss, es, m, g);
      q := m;
    } else {
      q := AliveMeans(ss, es, m, g);
    }
  }

  lemma {:induction false} GenGrows(ss: seq<State>, es: seq<Event>, i: nat, n: nat)
    requires Parents(ss, es) && i <= n <= |es|
    ensures ss[i].gen <= ss[n].gen
    ensures ss[i].phase.Ended? ==> ss[n].phase.Ended?
    ensures !ss[i].phase.Starting? && ss[n].phase.Starting? ==> ss[i].gen < ss[n].gen
  {
    if i < n {
      assert ParentStep(ss[n - 1], es[n - 1], ss[n]);
      GenGrows(ss, es, i, n - 1);
    }
  }

  /** A child of an earlier generation that is alive now was alive before. */
  lemma {:induction false} AliveBefore(ss: seq<State>, es: seq<Event>, i: nat, n: nat, g: nat)
    requires Parents(ss, es) && Child(ss, es, g) && i <= n <= |es| && g < ss[i].gen && g in ss[n].alive
    ensures g in ss[i].alive
  {
    if i < n {
      assert ChildStep(ss[n - 1], es[n - 1], ss[n], g);
      GenGrows(ss, es, i, n - 1);
      AliveBefore(ss, es, i, n - 1, g);
    }
  }

  /** A live child is in hand, or its generation gave up on it. */
  lemma {:induction false} AliveExplained(ss: seq<State>, es: seq<Event>, n: nat, g: nat) returns (p: nat)
    requires Parents(ss, es) && Child(ss, es, g) && n <= |es| && g in ss[n].alive
    ensures (InHand(ss[n].phase) && ss[n].gen == g) || (p < n && GivesUp(ss[p], es[p], g))
  {
    var m := n - 1;
    assert ChildStep(ss[m], es[m], ss[n], g) && ParentStep(ss[m], es[m], ss[n]);
    p := 0;
    if g in ss[m].alive {
      p := AliveExplained(ss, es, m, g);
      if InHand(ss[m].phase) && ss[m].gen == g && !InHand(ss[n].phase) {
        p := m;
      }
    }
  }

  /** A child in hand that has not exited is alive. */
  lemma {:induction false} InHandAlive(ss: seq<State>, es: seq<Event>, n: nat)
    requires Parents(ss, es) && n <= |es| && Child(ss, es, ss[n].gen)
    requires InHand(ss[n].phase) && NotGoneBy(es, ss[n].gen, n)
    ensures ss[n].gen in ss[n].alive
  {
    var m, g := n - 1, ss[n].gen;
    assert ChildStep(ss[m], es[m], ss[n], g) && ParentStep(ss[m], es[m], ss[n]);
    if InHand(ss[m].phase) {
      InHandAlive(ss, es, m);
    }
  }

  lemma {:induction false} StaysAlive(ss: seq<State>, es: seq<Event>, i: nat, n: nat, g: nat)
    requires Child(ss, es, g) && i <= n <= |es| && g in ss[i].alive && NotGoneBy(es, g, n)
    ensures g in ss[n].alive
  {
    if i < n {
      assert ChildStep(ss[n - 1], es[n - 1], ss[n], g);
      StaysAlive(ss, es, i, n - 1, g);
    }
  }

  /** A generation gives up only on a child it has killed, a full timeout before. */
  lemma {:induction false} KilledBefore(ss: seq<State>, es: seq<Event>, n: nat) returns (k: nat)
    requires Parents(ss, es) && n <= |es| && ss[n].phase.Stopping? && ss[n].phase.killed
    ensures k < n && Kills(ss[k], es[k], ss[n].gen) && ss[n].phase.since == es[k].now
  {
    assert TimerStep(ss[n - 1], es[n - 1], ss[n]);
    if Kills(ss[n - 1], es[n - 1], ss[n - 1].gen) && ss[n].phase.since == es[n - 1].now && ss[n].gen == ss[n - 1].gen {
      k := n - 1;
    } else {
      k := KilledBefore(ss, es, n - 1);
    }
  }

  // ---- When two children are alive together ----

  predicate TwoAlive(ss: seq<State>, n: nat, g: nat, h: nat) {
    n < |ss| && g != h && g in ss[n].alive && h in ss[n].alive
  }

  /** Child `g` was killed at event `k` and, at event `p`, not reaped within the timeout after; its
      generation restarted, a later child was started at event `q`, and `g` exits only after that. */
  ghost predicate LeftBehind(ss: seq<State>, es: seq<Event>, g: nat, k: nat, p: nat, q: nat)
    requires |ss| == |es| + 1
  {
    && k < p < q < |es|
    && Kills(ss[k], es[k], g) && GivesUp(ss[p], es[p], g) && es[p].now - es[k].now >= ss[0].o.stopTimeout
    && ss[p + 1].phase.Delaying? && es[q].k.ChildStarts?
    && NotGoneBy(es, g, q)
  }

  lemma BehindAlive(ss: seq<State>, es: seq<Event>, g: nat, k: nat, p: nat, q: nat)
    requires Run(ss, es) && LeftBehind(ss, es, g, k, p, q)
    ensures TwoAlive(ss, q + 1, g, ss[q].gen)
  {
    RunParents(ss, es);
    RunChild(ss, es, g);
    InHandAlive(ss, es, p);
    StaysAlive(ss, es, p, q, g);
    assert ParentStep(ss[p], es[p], ss[p + 1]) && ParentStep(ss[q], es[q], ss[q + 1]);
    GenGrows(ss, es, p + 1, q);
    assert ChildStep(ss[q], es[q], ss[q + 1], g);
    StepChild(ss[q], es[q], ss[q + 1], ss[q].gen);
  }

  /** Of two live children the earlier one was left behind. */
  lemma AliveBehind(ss: seq<State>, es: seq<Event>, n: nat, g: nat, h: nat) returns (k: nat, p: nat, q: nat)
    requires Run(ss, es) && TwoAlive(ss, n, g, h) && g < h
    ensures LeftBehind(ss, es, g, k, p, q)
  {
    RunParents(ss, es);
    RunChild(ss, es, g);
    RunChild(ss, es, h);
    q := AliveMeans(ss, es, n, h);
    AliveBefore(ss, es, q, n, g);
    assert ParentStep(ss[q], es[q], ss[q + 1]);
    var started := AliveMeans(ss, es, q, g);
    p := AliveExplained(ss, es, q, g);
    k := KilledBefore(ss, es, p);
    assert TimerStep(ss[p], es[p], ss[p + 1]);
    if ss[p + 1].phase.Ended? {
      GenGrows(ss, es, p + 1, q);
    }
    SameOptions(ss, es, p);
  }

  /** For every run of the parent, whatever the children do: two children are alive together at some
      moment if and only if a generation that ended in a restart killed a child, could not reap it
      within the timeout after, and a later child was started before that one exited. */
  lemma {:induction false} TwoAliveIff(ss: seq<State>, es: seq<Event>)
    requires Run(ss, es)
    ensures (exists n: nat, g: nat, h: nat :: TwoAlive(ss, n, g, h))
      <==> exists g: nat, k: nat, p: nat, q: nat :: LeftBehind(ss, es, g, k, p, q)
  {
    if n: nat, g: nat, h: nat :| TwoAlive(ss, n, g, h) {
      if g < h {
        var k, p, q := AliveBehind(ss, es, n, g, h);
      } else {
        var k, p, q := AliveBehind(ss, es, n, h, g);
      }
    }
    if g: nat, k: nat, p: nat, q: nat :| LeftBehind(ss, es, g, k, p, q) {
      BehindAlive(ss, es, g, k, p, q);
    }
  }

  // ---- The same in time ----

  predicate ClockNondecreasing(es: seq<Event>) { forall i, j :: 0 <= i <= j < |es| ==> es[i].now <= es[j].now }

  /** The event that ends the first wait after event `i`. */
  lemma {:induction false} WaitEnds(ss: seq<State>, es: seq<Event>, i: nat, n: nat) returns (d: nat)
    requires Parents(ss, es) && i <= n <= |es| && ss[i].phase.Delaying? && ss[n].phase.Starting?
    ensures i <= d < n && es[d].k.DelayEnds? && es[d].now >= ss[i].phase.until
    decreases n - i
  {
    assert ParentStep(ss[i], es[i], ss[i + 1]);
    if es[i].k.DelayEnds? {
      d := i;
    } else {
      if ss[i + 1].phase.Ended? {
        GenGrows(ss, es, i + 1, n);
      }
      d := WaitEnds(ss, es, i + 1, n);
    }
  }

  /** A child left behind outlives its killing by the timeout and the wait: whenever it exits, it is
      no earlier than the start of the later child. */
  lemma {:induction false} OutlivesTheTimers(ss: seq<State>, es: seq<Event>, g: nat, k: nat, p: nat, q: nat)
    requires Run(ss, es) && LeftBehind(ss, es, g, k, p, q) && ClockNondecreasing(es)
    ensures es[q].now >= es[k].now + ss[0].o.stopTimeout + WaitAfter(ss[p], es[p]) && WaitAfter(ss[p], es[p]) > 0
    ensures forall i :: 0 <= i < |es| && Exits(es[i], g) ==> es[i].now >= es[q].now
  {
    RunParents(ss, es);
    assert TimerStep(ss[p], es[p], ss[p + 1]) && ParentStep(ss[p], es[p], ss[p + 1]);
    assert ParentStep(ss[q], es[q], ss[q + 1]);
    var d := WaitEnds(ss, es, p + 1, q);
  }

  // ---- Such a run ----

  lemma Extend(ss: seq<State>, es: seq<Event>, e: Event, s: State) returns (ss': seq<State>, es': seq<Event>)
    requires Run(ss, es) && Next(ss[|es|], e, s)
    ensures Run(ss', es') && ss' == ss + [s] && es' == es + [e] && ss'[|es'|] == s
  {
    ss', es' := ss + [s], es + [e];
    forall i | 0 <= i < |es'| ensures Next(ss'[i], es'[i], ss'[i + 1]) {
      if i < |es| {
        assert ss'[i] == ss[i] && ss'[i + 1] == ss[i + 1] && es'[i] == es[i];
      }
    }
  }

  function Watched(progress: int, observer: int): Parent {
    Parent(true, 0, W.State(true, Some(progress), Some(observer), 0))
  }

  /** A worker says READY and then nothing; the second check after that finds it hung. */
  lemma HangFound(o: ParentOptions) returns (ss: seq<State>, es: seq<Event>)
    requires Normalized(o)
    ensures Run(ss, es)
    ensures var late := o.hangWindow + 1;
            ss[|es|] == State(o, Stopping(Watched(0, late), Hang, late, false), 0, 0, {0}, map[])
  {
    var w := o.hangWindow;
    ss, es := [Init(o)], [];
    ss, es := Extend(ss, es, Event(ChildStarts, 0), State(o, Accepting, 0, 0, {0}, map[]));
    ss, es := Extend(ss, es, Event(Accepts, 0), State(o, Monitoring(PARENT_INIT), 0, 0, {0}, map[]));
    var ready := MessageRead(GuardianWire.Ready);
    assert Decide(PARENT_INIT, w, ready, 0) == (Watched(0, 0), GoOn);
    ss, es := Extend(ss, es, Event(Turns(ready), 0), State(o, Monitoring(Watched(0, 0)), 0, 0, {0}, map[]));
    assert Decide(Watched(0, 0), w, WatchTick, w) == (Watched(0, w), GoOn);
    ss, es := Extend(ss, es, Event(Turns(WatchTick), w), State(o, Monitoring(Watched(0, w)), 0, 0, {0}, map[]));
    assert Decide(Watched(0, w), w, WatchTick, w + 1) == (Watched(0, w + 1), StopChild(Hang));
    ss, es := Extend(ss, es, Event(Turns(WatchTick), w + 1),
                     State(o, Stopping(Watched(0, w + 1), Hang, w + 1, false), 0, 0, {0}, map[]));
  }

  /** With any options there is a run in which the child outlives both timeouts and the wait, and
      the parent starts a second one beside it. */
  lemma TwoWorkersRun(o: ParentOptions)
    requires Normalized(o)
    ensures exists ss: seq<State>, es: seq<Event> :: Run(ss, es) && ss[0].o == o && ss[|es|].alive == {0, 1}
  {
    var ss, es := HangFound(o);
    var p, t := Watched(0, o.hangWindow + 1), o.hangWindow + 1;
    ss, es := Extend(ss, es, Event(TimerFires, t + o.stopTimeout),
                     State(o, Stopping(p, Hang, t + o.stopTimeout, true), 0, 0, {0}, map[]));
    var late := t + 2 * o.stopTimeout;
    var (delay, level) := Restarting(o, 0, late);
    ss, es := Extend(ss, es, Event(TimerFires, late), State(o, Delaying(late + delay), 0, level, {0}, map[]));
    ss, es := Extend(ss, es, Event(DelayEnds, late + delay), State(o, Starting, 1, level, {0}, map[]));
    ss, es := Extend(ss, es, Event(ChildStarts, late + delay), State(o, Accepting, 1, level, {0, 1}, map[]));
    SameOptions(ss, es, |es|);
  }
}
