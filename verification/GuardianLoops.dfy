/** The select loops of the Guardian worker and of the parent that watches it. A turn of a loop
    meets one of the ready cases; what it does is a function of its variables and that case. */
module GuardianLoops {
  import opened Options
  import opened GuardianWire
  import opened Sequences
  import W = Watchdog

  /** A prefix of READY, BEAT*, STOP. */
  predicate Legal(ms: seq<Message>) {
    forall i :: 0 <= i < |ms| ==> (ms[i].Ready? <==> i == 0) && (ms[i].Stop? ==> i == |ms| - 1)
  }

  /** The rest of such a prefix, when READY is, or is not, behind. */
  predicate LegalRest(ready: bool, ms: seq<Message>) {
    if !ready then Legal(ms)
    else forall i :: 0 <= i < |ms| ==> !ms[i].Ready? && (ms[i].Stop? ==> i == |ms| - 1)
  }

  // ---- The worker's loop ----

  datatype WorkerExit = Normal | StartupFailure | Restart

  /** What one turn of the worker's `select` meets. A send may fail. */
  datatype WorkerTurn =
    | ServerReturned(failed: bool)
    | ReadyTick(isReady: bool, sent: bool)
    | HeartbeatTick(fatal: bool, sequence: nat, sent: bool)
    | ControlMessage(m: Message)
    | ControlError
    | Cancelled

  /** What the worker does in a turn: the message it tries to send, and whether it leaves. */
  datatype WorkerAct = WorkerAct(send: Option<Message>, readySent: bool, exit: Option<WorkerExit>)

  function WorkerTakes(readySent: bool, t: WorkerTurn): WorkerAct {
    match t
    case ServerReturned(failed) =>
      if !readySent then WorkerAct(None, false, Some(StartupFailure))
      else if failed then WorkerAct(None, true, Some(Restart))
      else WorkerAct(Some(Stop), true, Some(Normal))
    case ReadyTick(isReady, sent) =>
      if readySent || !isReady then WorkerAct(None, readySent, None)
      else WorkerAct(Some(Ready), sent, if sent then None else Some(Normal))
    case HeartbeatTick(fatal, sequence, sent) =>
      if !readySent then WorkerAct(None, false, None)
      else if fatal then WorkerAct(None, true, Some(Restart))
      else WorkerAct(Some(Beat(sequence)), true, if sent then None else Some(Normal))
    case ControlMessage(_) => WorkerAct(None, readySent, Some(Normal))
    case ControlError => WorkerAct(None, readySent, Some(Normal))
    case Cancelled => WorkerAct(None, readySent, Some(Normal))
  }

  function One(m: Option<Message>): seq<Message> { if m.Some? then [m.value] else [] }

  /** The messages of the whole loop, and how it leaves if it does. */
  function WorkerLog(readySent: bool, turns: seq<WorkerTurn>): (seq<Message>, Option<WorkerExit>)
    decreases |turns|
  {
    if turns == [] then ([], None)
    else
      var act := WorkerTakes(readySent, turns[0]);
      if act.exit.Some? then (One(act.send), act.exit)
      else var (ms, exit) := WorkerLog(act.readySent, turns[1..]); (One(act.send) + ms, exit)
  }

  /** Whatever the turns, the messages are a prefix of READY, BEAT*, STOP, a restart is asked for
      only after READY, a startup failure has sent nothing, and STOP comes with a normal exit. */
  lemma {:induction false} WorkerLegal(readySent: bool, turns: seq<WorkerTurn>)
    ensures var (ms, exit) := WorkerLog(readySent, turns);
      && LegalRest(readySent, ms)
      && (exit == Some(StartupFailure) ==> !readySent && ms == [])
      && (exit == Some(Restart) ==> readySent || ms != [])
      && (forall i :: 0 <= i < |ms| && ms[i].Stop? ==> exit == Some(Normal))
    decreases |turns|
  {
    if turns != [] {
      var act := WorkerTakes(readySent, turns[0]);
      if act.exit.None? {
        WorkerLegal(act.readySent, turns[1..]);
      }
    }
  }

  // ---- What the worker does, told from its turns ----

  /** The server was found ready, and READY sent, in one of the first `n` turns. */
  predicate Readied(turns: seq<WorkerTurn>, n: nat) {
    exists i :: 0 <= i < n && i < |turns| && turns[i].ReadyTick? && turns[i].isReady
  }

  /** Turn `k` ends the loop: the server returned, a control line or its loss, a cancellation, a failed
      send, or a fatal request at a heartbeat after READY. */
  predicate Leaves(turns: seq<WorkerTurn>, k: nat)
    requires k < |turns|
  {
    match turns[k]
    case ReadyTick(isReady, sent) => isReady && !Readied(turns, k) && !sent
    case HeartbeatTick(fatal, _, sent) => Readied(turns, k) && (fatal || !sent)
    case _ => true
  }

  predicate LeavesAt(turns: seq<WorkerTurn>, k: nat) {
    k < |turns| && Leaves(turns, k) && forall i: nat :: i < k ==> !Leaves(turns, i)
  }

  /** READY at the first turn that finds the server ready, then what the turns after it say. */
  function Announced(turns: seq<WorkerTurn>): seq<Message> {
    if turns == [] then []
    else if turns[0].ReadyTick? && turns[0].isReady then [Ready] + Reported(turns[1..])
    else Announced(turns[1..])
  }

  /** A BEAT for each heartbeat without a fatal request, and STOP when the server ends in order. */
  function Reported(turns: seq<WorkerTurn>): seq<Message> {
    if turns == [] then []
    else if turns[0].HeartbeatTick? && !turns[0].fatal then [Beat(turns[0].sequence)] + Reported(turns[1..])
    else if turns[0] == ServerReturned(false) then [Stop] + Reported(turns[1..])
    else Reported(turns[1..])
  }

  /** The worker's messages and exit: a restart after a failed server or a fatal request, a startup
      failure if the server returned before READY, and a normal exit otherwise. */
  ghost predicate WorkerGives(turns: seq<WorkerTurn>, sent: seq<Message>, exit: Option<WorkerExit>) {
    && (exit.None? ==> sent == Announced(turns) && forall k: nat :: k < |turns| ==> !Leaves(turns, k))
    && (exit.Some? ==> exists k: nat :: LeavesAt(turns, k) && WorkerLeaves(turns, k, sent, exit.value))
  }

  predicate WorkerLeaves(turns: seq<WorkerTurn>, k: nat, sent: seq<Message>, exit: WorkerExit)
    requires k < |turns|
  {
    var ready := Readied(turns, k);
    && sent == Announced(turns[..k + 1])
    && (exit.StartupFailure? <==> turns[k].ServerReturned? && !ready)
    && (exit.Restart? <==> ready && (turns[k] == ServerReturned(true) || (turns[k].HeartbeatTick? && turns[k].fatal)))
  }

  lemma {:induction false} AnnouncedMore(turns: seq<WorkerTurn>, t: WorkerTurn)
    ensures Announced(turns + [t]) == Announced(turns) +
      if Readied(turns, |turns|) then Reported([t]) else Announced([t])
  {
    if turns == [] {
      assert turns + [t] == [t];
    } else {
      assert (turns + [t])[0] == turns[0] && (turns + [t])[1..] == turns[1..] + [t];
      if turns[0].ReadyTick? && turns[0].isReady {
        ReportedMore(turns[1..], t);
        ConcatAssoc([Ready], Reported(turns[1..]), Reported([t]));
      } else {
        AnnouncedMore(turns[1..], t);
        ReadiedTail(turns);
      }
    }
  }

  lemma ReadiedTail(turns: seq<WorkerTurn>)
    requires turns != [] && !(turns[0].ReadyTick? && turns[0].isReady)
    ensures Readied(turns, |turns|) <==> Readied(turns[1..], |turns| - 1)
  {
    assert forall i :: 0 <= i < |turns| - 1 ==> turns[1..][i] == turns[i + 1];
    if Readied(turns, |turns|) {
      var i :| 0 <= i < |turns| && turns[i].ReadyTick? && turns[i].isReady;
      assert turns[1..][i - 1] == turns[i];
    }
  }

  lemma {:induction false} ReportedMore(turns: seq<WorkerTurn>, t: WorkerTurn)
    ensures Reported(turns + [t]) == Reported(turns) + Reported([t])
  {
    if turns == [] {
      assert turns + [t] == [t];
    } else {
      assert (turns + [t])[0] == turns[0] && (turns + [t])[1..] == turns[1..] + [t];
      ReportedMore(turns[1..], t);
    }
  }

  lemma AnnouncedAt(turns: seq<WorkerTurn>, k: nat)
    requires k < |turns|
    ensures Announced(turns[..k + 1]) == Announced(turns[..k]) +
      if Readied(turns, k) then Reported([turns[k]]) else Announced([turns[k]])
  {
    assert turns[..k + 1] == turns[..k] + [turns[k]];
    AnnouncedMore(turns[..k], turns[k]);
    if Readied(turns, k) {
      var i :| 0 <= i < k && turns[i].ReadyTick? && turns[i].isReady;
      assert turns[..k][i] == turns[i];
    }
  }

  lemma TurnExplained(turns: seq<WorkerTurn>, k: nat)
    requires k < |turns|
    ensures var act := WorkerTakes(Readied(turns, k), turns[k]);
      && (act.exit.Some? <==> Leaves(turns, k))
      && One(act.send) == (if Readied(turns, k) then Reported([turns[k]]) else Announced([turns[k]]))
      && (act.exit.None? ==> act.readySent == Readied(turns, k + 1))
      && (act.exit.Some? ==> WorkerLeaves(turns, k, Announced(turns[..k]) + One(act.send), act.exit.value))
  {
    AnnouncedAt(turns, k);
    if Readied(turns, k + 1) && !Readied(turns, k) {
      assert turns[k].ReadyTick? && turns[k].isReady;
    }
  }

  lemma {:induction false} LogExplained(turns: seq<WorkerTurn>, k: nat)
    requires k <= |turns| && forall i: nat :: i < k ==> !Leaves(turns, i)
    ensures var (ms, exit) := WorkerLog(Readied(turns, k), turns[k..]);
      WorkerGives(turns, Announced(turns[..k]) + ms, exit)
    decreases |turns| - k
  {
    var said := Announced(turns[..k]);
    if k == |turns| {
      assert turns[..k] == turns;
      ConcatEmpty(said);
    } else {
      var act := WorkerTakes(Readied(turns, k), turns[k]);
      TurnExplained(turns, k);
      AnnouncedAt(turns, k);
      assert turns[k..][0] == turns[k] && turns[k..][1..] == turns[k + 1..];
      if act.exit.None? {
        LogExplained(turns, k + 1);
        ConcatAssoc(said, One(act.send), WorkerLog(act.readySent, turns[k + 1..]).0);
      }
    }
  }

  /** What the worker sends and how it leaves follows from the turns alone. */
  lemma {:induction false} WorkerExplained(turns: seq<WorkerTurn>)
    ensures var (ms, exit) := WorkerLog(false, turns); WorkerGives(turns, ms, exit)
  {
    LogExplained(turns, 0);
    assert turns[..0] == [] && turns[0..] == turns;
    ConcatEmpty(WorkerLog(false, turns).0);
  }

  /** `RunWorker` does what its turns say: what it sends and how it leaves. */
  method RunWorker(turns: seq<WorkerTurn>) returns (sent: seq<Message>, exit: Option<WorkerExit>)
    ensures (sent, exit) == WorkerLog(false, turns)
    ensures WorkerGives(turns, sent, exit)
    ensures Legal(sent)
    ensures exit == Some(StartupFailure) ==> sent == []
    ensures exit == Some(Restart) ==> sent != [] && sent[0].Ready?
  {
    WorkerLegal(false, turns);
    WorkerExplained(turns);
    sent := [];
    var readySent := false;
    ConcatEmpty(WorkerLog(false, turns).0);
    for i := 0 to |turns|
      invariant sent + WorkerLog(readySent, turns[i..]).0 == WorkerLog(false, turns).0
      invariant WorkerLog(readySent, turns[i..]).1 == WorkerLog(false, turns).1
    {
      assert turns[i..][0] == turns[i] && turns[i..][1..] == turns[i + 1..];
      ghost var act := WorkerTakes(readySent, turns[i]);
      ConcatAssoc(sent, One(act.send), WorkerLog(act.readySent, turns[i + 1..]).0);
      ConcatEmpty(sent);
      match turns[i]
      case ServerReturned(failed) =>
        if !readySent {
          return sent, Some(StartupFailure);
        }
        if failed {
          return sent, Some(Restart);
        }
        sent := sent + [Stop];
        return sent, Some(Normal);
      case ReadyTick(isReady, ok) =>
        if !readySent && isReady {
          sent := sent + [Ready];
          if !ok {
            return sent, Some(Normal);
          }
          readySent := true;
        }
      case HeartbeatTick(fatal, sequence, ok) =>
        if readySent {
          if fatal {
            return sent, Some(Restart);
          }
          sent := sent + [Beat(sequence)];
          if !ok {
            return sent, Some(Normal);
          }
        }
      case ControlMessage(_) => return sent, Some(Normal);
      case ControlError => return sent, Some(Normal);
      case Cancelled => return sent, Some(Normal);
    }
    ConcatEmpty(sent);
    exit := None;
  }

  // ---- The parent's loop ----

  datatype Parent = Parent(ready: bool, readyAt: int, dog: W.State)

  const PARENT_INIT := Parent(false, 0, W.INIT)

  /** What one turn of the parent's `select` meets. */
  datatype Stimulus =
    | CancelSeen
    | ExitSeen(failed: bool)
    | MessageRead(m: Message)
    | ReadBroke
    | WatchTick

  datatype Disposition = ToStartupFailure | ToRestart | ToNormalStop

  /** Why the parent stops its child. */
  datatype Why = Cancel | Violation | PeerStop | LostChannel | Hang

  datatype Decision = GoOn | Over(d: Disposition) | StopChild(why: Why)

  /** One turn of `monitorReadyWorker` at time `now`, up to a call of `stopChild`. */
  function Decide(p: Parent, window: int, x: Stimulus, now: int): (Parent, Decision) {
    match x
    case CancelSeen => (p, StopChild(Cancel))
    case ExitSeen(failed) =>
      (p, Over(if !p.ready then ToStartupFailure else if failed then ToRestart else ToNormalStop))
    case MessageRead(m) =>
      (match m
       case Ready =>
         if p.ready then (p, StopChild(Violation)) else (Parent(true, now, W.After(p.dog, window, W.Ready(now))), GoOn)
       case Beat(sequence) =>
         if !p.ready then (p, StopChild(Violation))
         else (p.(dog := W.After(p.dog, window, W.Beat(sequence, now))), GoOn)
       case Stop => (p, StopChild(if p.ready then PeerStop else Violation)))
    case ReadBroke => (p, StopChild(LostChannel))
    case WatchTick =>
      if !p.ready then (p, GoOn)
      else
        var p' := p.(dog := W.After(p.dog, window, W.Check(now)));
        (p', if W.Reports(p.dog, window, now) then StopChild(Hang) else GoOn)
  }

  /** How `stopChild` ended: with the child's exit, clean or not, or without reaping it. */
  datatype Stopped = ExitedCleanly | ExitedWithError | NotReaped

  /** What the generation comes to after `stopChild`. */
  function Settle(ready: bool, why: Why, stopped: Stopped): Disposition {
    match why
    case Cancel => ToNormalStop
    case PeerStop => ToNormalStop
    case Hang => ToRestart
    case Violation => if ready then ToRestart else ToStartupFailure
    case LostChannel =>
      if !ready then ToStartupFailure else if stopped.ExitedCleanly? then ToNormalStop else ToRestart
  }

  /** `readyDuration`, called when the generation is over and its child stopped. */
  function ReadyFor(p: Parent, now: int): int { if p.ready then now - p.readyAt else 0 }

  datatype Result = Result(disposition: Disposition, readyFor: int, protocolError: bool, reaped: bool)

  /** A turn: what it meets at time `now`, and, should it stop the child, how that ended and when. */
  datatype ParentTurn = ParentTurn(x: Stimulus, now: int, stopped: Stopped, after: int)

  function Turn(p: Parent, window: int, t: ParentTurn): (Parent, Option<Result>) {
    var (p', d) := Decide(p, window, t.x, t.now);
    match d
    case GoOn => (p', None)
    case Over(disposition) => (p', Some(Result(disposition, ReadyFor(p', t.now), false, true)))
    case StopChild(why) =>
      var disposition := Settle(p'.ready, why, t.stopped);
      (p', Some(Result(disposition, ReadyFor(p', t.after), why == Violation, !t.stopped.NotReaped?)))
  }

  /** The whole loop: the result of the first turn that ends it. */
  function Monitor(p: Parent, window: int, turns: seq<ParentTurn>): Option<Result>
    decreases |turns|
  {
    if turns == [] then None
    else
      var (p', r) := Turn(p, window, turns[0]);
      if r.Some? then r else Monitor(p', window, turns[1..])
  }

  // ---- How a generation ends, told from its turns ----

  predicate ReadsReady(t: ParentTurn) { t.x == MessageRead(Ready) }

  /** READY was read in one of the first `n` turns. */
  predicate ReadyRead(turns: seq<ParentTurn>, n: nat) {
    exists i :: 0 <= i < n && i < |turns| && ReadsReady(turns[i])
  }

  /** When READY was read first. */
  function ReadyTime(turns: seq<ParentTurn>): int {
    if turns == [] then 0 else if ReadsReady(turns[0]) then turns[0].now else ReadyTime(turns[1..])
  }

  /** The calls of the watchdog in a sequence of turns; there are none before READY. */
  function WatchCalls(turns: seq<ParentTurn>): seq<W.Call> {
    if turns == [] then []
    else
      var before, t := WatchCalls(turns[..|turns| - 1]), turns[|turns| - 1];
      match t.x
      case MessageRead(Ready) => before + [W.Ready(t.now)]
      case MessageRead(Beat(sequence)) => before + [W.Beat(sequence, t.now)]
      case WatchTick => if before == [] then [] else before + [W.Check(t.now)]
      case _ => before
  }

  /** Turn `k` is a tick at which the worker has hung. */
  predicate FindsHang(turns: seq<ParentTurn>, window: int, k: nat)
    requires k < |turns|
  {
    var calls := WatchCalls(turns[..k + 1]);
    turns[k].x.WatchTick? && calls != [] && W.Hung(calls, window, |calls| - 1)
  }

  /** A second READY, or any other message before READY. */
  predicate Violates(turns: seq<ParentTurn>, k: nat)
    requires k < |turns|
  {
    turns[k].x.MessageRead? && (turns[k].x.m.Ready? <==> ReadyRead(turns, k))
  }

  /** Turn `k` ends the generation. */
  predicate EndsTurn(turns: seq<ParentTurn>, window: int, k: nat)
    requires k < |turns|
  {
    match turns[k].x
    case MessageRead(m) => m.Stop? || Violates(turns, k)
    case WatchTick => FindsHang(turns, window, k)
    case _ => true
  }

  predicate EndsAt(turns: seq<ParentTurn>, window: int, k: nat) {
    k < |turns| && EndsTurn(turns, window, k) && forall i: nat :: i < k ==> !EndsTurn(turns, window, i)
  }

  /** How the generation ends at turn `k`. Without READY it is a startup failure, unless cancelled.
      After READY it restarts if the process failed, the worker hung, the protocol was violated, or the
      channel was lost and the worker did not stop cleanly; else it is a normal stop. */
  ghost predicate EndsWith(turns: seq<ParentTurn>, window: int, k: nat, r: Result)
    requires k < |turns|
  {
    var t, ready := turns[k], ReadyRead(turns, k);
    && (r.disposition.ToStartupFailure? <==> !ready && !t.x.CancelSeen?)
    && (r.disposition.ToRestart? <==>
          ready && (t.x == ExitSeen(true) || FindsHang(turns, window, k) || Violates(turns, k)
                    || (t.x.ReadBroke? && !t.stopped.ExitedCleanly?)))
    && r.readyFor == (if ready then (if t.x.ExitSeen? then t.now else t.after) - ReadyTime(turns) else 0)
    && (r.protocolError <==> Violates(turns, k))
    && (r.reaped <==> t.x.ExitSeen? || !t.stopped.NotReaped?)
  }

  /** The generation goes on as long as no turn ends it, and ends as the first such turn says. */
  ghost predicate MonitorGives(turns: seq<ParentTurn>, window: int, result: Option<Result>) {
    && (result.None? ==> forall k: nat :: k < |turns| ==> !EndsTurn(turns, window, k))
    && (result.Some? ==> exists k: nat :: EndsAt(turns, window, k) && EndsWith(turns, window, k, result.value))
  }

  /** The parent's variables after the first `n` turns, none of which ends the generation. */
  ghost predicate Reached(turns: seq<ParentTurn>, window: int, n: nat, p: Parent)
    requires n <= |turns|
  {
    var calls := WatchCalls(turns[..n]);
    && (p.ready <==> ReadyRead(turns, n)) && (p.ready ==> p.readyAt == ReadyTime(turns))
    && (p.ready <==> calls != []) && p.dog == W.StateAt(calls, window, |calls|)
  }

  lemma StateOfMore(calls: seq<W.Call>, window: int, c: W.Call)
    ensures W.StateAt(calls + [c], window, |calls| + 1) == W.After(W.StateAt(calls, window, |calls|), window, c)
    ensures W.StateAt(calls + [c], window, |calls|) == W.StateAt(calls, window, |calls|)
  {
    StateOfPrefix(calls, window, c, |calls|);
  }

  lemma {:induction false} StateOfPrefix(calls: seq<W.Call>, window: int, c: W.Call, n: nat)
    requires n <= |calls|
    ensures W.StateAt(calls + [c], window, n) == W.StateAt(calls, window, n)
  {
    if n > 0 {
      StateOfPrefix(calls, window, c, n - 1);
    }
  }

  lemma {:induction false} ReadyTimeIs(turns: seq<ParentTurn>, n: nat)
    requires n < |turns| && ReadsReady(turns[n]) && !ReadyRead(turns, n)
    ensures ReadyTime(turns) == turns[n].now
  {
    if n > 0 {
      assert !ReadsReady(turns[0]);
      assert forall i :: 0 <= i < n ==> turns[1..][i] == turns[i + 1];
      ReadyTimeIs(turns[1..], n - 1);
    }
  }

  lemma WatchCallsMore(turns: seq<ParentTurn>, n: nat)
    requires n < |turns|
    ensures turns[..n + 1][..n] == turns[..n] && turns[..n + 1][n] == turns[n]
  {
  }

  /** A turn that does not end the generation. */
  lemma TurnReached(turns: seq<ParentTurn>, window: int, n: nat, p: Parent)
    requires n < |turns| && Reached(turns, window, n, p)
    ensures var (p', r) := Turn(p, window, turns[n]);
      && (r.Some? <==> EndsTurn(turns, window, n))
      && (r.None? ==> Reached(turns, window, n + 1, p'))
      && (r.Some? ==> EndsWith(turns, window, n, r.value))
  {
    WatchCallsMore(turns, n);
    var calls, t := WatchCalls(turns[..n]), turns[n];
    ReadyReadMore(turns, n);
    if ReadsReady(t) && !p.ready {
      ReadyTimeIs(turns, n);
      StateOfMore(calls, window, W.Ready(t.now));
    } else if t.x.MessageRead? && t.x.m.Beat? {
      StateOfMore(calls, window, W.Beat(t.x.m.sequence, t.now));
    } else if t.x.WatchTick? && calls != [] {
      StateOfMore(calls, window, W.Check(t.now));
      W.ReportsIffHung(calls + [W.Check(t.now)], window, |calls|);
    }
  }

  lemma ReadyReadMore(turns: seq<ParentTurn>, n: nat)
    requires n < |turns|
    ensures ReadyRead(turns, n + 1) <==> ReadyRead(turns, n) || ReadsReady(turns[n])
  {
  }

  lemma {:induction false} MonitorFrom(turns: seq<ParentTurn>, window: int, n: nat, p: Parent)
    requires n <= |turns| && Reached(turns, window, n, p)
    requires forall i: nat :: i < n ==> !EndsTurn(turns, window, i)
    ensures MonitorGives(turns, window, Monitor(p, window, turns[n..]))
    decreases |turns| - n
  {
    if n < |turns| {
      TurnReached(turns, window, n, p);
      assert turns[n..][0] == turns[n] && turns[n..][1..] == turns[n + 1..];
      var (p', r) := Turn(p, window, turns[n]);
      if r.None? {
        MonitorFrom(turns, window, n + 1, p');
      }
    }
  }

  /** How a generation ends follows from its turns alone. */
  lemma {:induction false} MonitorExplained(turns: seq<ParentTurn>, window: int)
    ensures MonitorGives(turns, window, Monitor(PARENT_INIT, window, turns))
  {
    MonitorFrom(turns, window, 0, PARENT_INIT);
    assert turns[0..] == turns;
  }

  /** `monitorReadyWorker` with its own watchdog object computes `Monitor`. */
  method MonitorReadyWorker(hangWindow: int, turns: seq<ParentTurn>) returns (result: Option<Result>)
    ensures result == Monitor(PARENT_INIT, if hangWindow <= 0 then W.DEFAULT_HANG_WINDOW else hangWindow, turns)
    ensures MonitorGives(turns, if hangWindow <= 0 then W.DEFAULT_HANG_WINDOW else hangWindow, result)
  {
    MonitorExplained(turns, if hangWindow <= 0 then W.DEFAULT_HANG_WINDOW else hangWindow);
    var dog := new W.Watchdog(hangWindow);
    var ready, readyAt := false, 0;
    for i := 0 to |turns|
      invariant Monitor(Parent(ready, readyAt, dog.Abs()), dog.hangWindow, turns[i..])
                == Monitor(PARENT_INIT, dog.hangWindow, turns)
    {
      ghost var p := Parent(ready, readyAt, dog.Abs());
      assert turns[i..][0] == turns[i] && turns[i..][1..] == turns[i + 1..];
      var now, stopped := turns[i].now, turns[i].stopped;
      var reaped, readyFor := !stopped.NotReaped?, if ready then turns[i].after - readyAt else 0;
      match turns[i].x
      case CancelSeen => return Some(Result(ToNormalStop, readyFor, false, reaped));
      case ExitSeen(failed) =>
        if !ready {
          return Some(Result(ToStartupFailure, 0, false, true));
        }
        return Some(Result(if failed then ToRestart else ToNormalStop, now - readyAt, false, true));
      case MessageRead(m) =>
        match m {
          case Ready =>
            if ready {
              return Some(Result(ToRestart, readyFor, true, reaped));
            }
            ready, readyAt := true, now;
            dog.Ready(now);
          case Beat(sequence) =>
            if !ready {
              return Some(Result(ToStartupFailure, 0, true, reaped));
            }
            dog.Beat(sequence, now);
          case Stop =>
            if !ready {
              return Some(Result(ToStartupFailure, 0, true, reaped));
            }
            return Some(Result(ToNormalStop, readyFor, false, reaped));
        }
      case ReadBroke =>
        if !ready {
          return Some(Result(ToStartupFailure, 0, false, reaped));
        }
        return Some(Result(if stopped.ExitedCleanly? then ToNormalStop else ToRestart, readyFor, false, reaped));
      case WatchTick =>
        if ready {
          var hung := dog.Check(now);
          if hung {
            return Some(Result(ToRestart, readyFor, false, reaped));
          }
        }
      assert Turn(p, dog.hangWindow, turns[i]) == (Parent(ready, readyAt, dog.Abs()), None);
    }
    result := None;
  }

  /** The messages among the turns. */
  function Messages(turns: seq<ParentTurn>): seq<Message> {
    if turns == [] then []
    else (if turns[0].x.MessageRead? then [turns[0].x.m] else []) + Messages(turns[1..])
  }

  lemma LegalTail(ready: bool, ms: seq<Message>)
    requires ms != [] && LegalRest(ready, ms)
    ensures LegalRest(true, ms[1..])
  {
    assert forall i :: 0 <= i < |ms| - 1 ==> ms[1..][i] == ms[i + 1];
  }

  /** On the messages of such a prefix the parent never takes a protocol-error branch. */
  lemma {:induction false} MonitorLegal(p: Parent, window: int, turns: seq<ParentTurn>)
    requires LegalRest(p.ready, Messages(turns))
    ensures Monitor(p, window, turns).Some? ==> !Monitor(p, window, turns).value.protocolError
    decreases |turns|
  {
    if turns != [] {
      var (p', r) := Turn(p, window, turns[0]);
      var ms, rest := Messages(turns), Messages(turns[1..]);
      if turns[0].x.MessageRead? {
        assert ms[0] == turns[0].x.m && ms[1..] == rest;
        LegalTail(p.ready, ms);
      } else {
        assert ms == rest;
      }
      if r.None? {
        MonitorLegal(p', window, turns[1..]);
      }
    }
  }

  /** A restart is asked for only after READY was seen. */
  lemma {:induction false} RestartNeedsReady(p: Parent, window: int, turns: seq<ParentTurn>)
    requires Monitor(p, window, turns).Some? && Monitor(p, window, turns).value.disposition.ToRestart?
    ensures p.ready || ReadyRead(turns, |turns|)
    decreases |turns|
  {
    var (p', r) := Turn(p, window, turns[0]);
    if r.None? && !p.ready && !ReadsReady(turns[0]) {
      RestartNeedsReady(p', window, turns[1..]);
      var i :| 0 <= i < |turns[1..]| && ReadsReady(turns[1..][i]);
      assert turns[i + 1] == turns[1..][i];
    }
  }
}
