/** Worker and parent of one generation together, over the two directions of the control channel
    and in every interleaving of their turns. */
module GuardianProtocol {
  import opened Options
  import opened GuardianWire
  import opened GuardianLoops

  /** `up` and `down` are the lines in flight; once a line is lost nothing later arrives. `sent` and
      `received` are what the channel took from the worker and what the parent got out of it. */
  datatype State = State(
    window: int, readySent: bool, workerDone: bool, workerError: bool, up: seq<string>, upBroken: bool,
    parent: Parent, parentDone: bool, parentError: bool, down: seq<string>,
    sent: seq<Message>, received: seq<Message>)

  function Init(window: int): State {
    State(window, false, false, false, [], false, PARENT_INIT, false, false, [], [], [])
  }

  /** `delivered` says whether a line that is sent reaches the channel; what the sender is told is
      part of its turn. */
  datatype Event =
    | WorkerTurns(t: WorkerTurn, delivered: bool)
    | WorkerReceives
    | ParentReceives(now: int)
    | ParentTurns(x: Stimulus, now: int)
    | ParentSendsStop(delivered: bool)

  function Put(s: State, m: Message, delivered: bool): State {
    if delivered && !s.upBroken then s.(up := s.up + [Line(m) + "\n"], sent := s.sent + [m])
    else s.(upBroken := true)
  }

  function Acted(s: State, act: WorkerAct, delivered: bool): State {
    var t := if act.send.Some? then Put(s, act.send.value, delivered) else s;
    t.(readySent := act.readySent, workerDone := act.exit.Some?)
  }

  /** What the parent does with a line it has read; one it cannot read is a read error. */
  function Handle(s: State, read: Option<Message>, now: int): State {
    match read
    case None =>
      var (p, d) := Decide(s.parent, s.window, ReadBroke, now);
      s.(parent := p, parentDone := true, parentError := true)
    case Some(m) =>
      var (p, d) := Decide(s.parent, s.window, MessageRead(m), now);
      s.(parent := p, parentDone := d != GoOn, parentError := d == StopChild(Violation), received := s.received + [m])
  }

  function Take(s: State, now: int): State
    requires s.up != []
  {
    Handle(s.(up := s.up[1..]), Parse(TrimLineEnd(s.up[0])), now)
  }

  /** A sequence number is an unsigned 64-bit number. */
  predicate FitsTurn(t: WorkerTurn) { t.HeartbeatTick? ==> Fits(Beat(t.sequence)) }

  /** A control line at the worker: anything but STOP is a protocol error. */
  function Obey(s: State, read: Option<Message>): State {
    var t := if read.Some? then ControlMessage(read.value) else ControlError;
    Acted(s, WorkerTakes(s.readySent, t), false).(workerError := read != Some(Stop))
  }

  ghost predicate Next(s: State, e: Event, s': State) {
    match e
    case WorkerTurns(t, delivered) =>
      && !s.workerDone && !t.ControlMessage? && FitsTurn(t)
      && s' == Acted(s, WorkerTakes(s.readySent, t), delivered)
    case WorkerReceives =>
      && !s.workerDone && s.down != []
      && s' == Obey(s.(down := s.down[1..]), Parse(TrimLineEnd(s.down[0])))
    case ParentReceives(now) => !s.parentDone && s.up != [] && s' == Take(s, now)
    case ParentTurns(x, now) =>
      && !s.parentDone && !x.MessageRead?
      && var (p, d) := Decide(s.parent, s.window, x, now);
         s' == s.(parent := p, parentDone := d != GoOn)
    case ParentSendsStop(delivered) =>
      s.parentDone && s' == s.(down := if delivered then s.down + [Line(Stop) + "\n"] else s.down)
  }

  ghost predicate Run(ss: seq<State>, es: seq<Event>) {
    && |ss| == |es| + 1 && ss[0] == Init(ss[0].window)
    && forall i :: 0 <= i < |es| ==> Next(ss[i], es[i], ss[i + 1])
  }

  predicate NoStop(ms: seq<Message>) { forall i :: 0 <= i < |ms| ==> !ms[i].Stop? }

  predicate WorkerOk(s: State) {
    && Legal(s.sent) && (forall i :: 0 <= i < |s.sent| ==> Fits(s.sent[i]))
    && (!s.workerDone && !s.readySent ==> s.sent == [])
    && (!s.workerDone && s.readySent && !s.upBroken ==> s.sent != [])
    && (!s.workerDone ==> NoStop(s.sent))
  }

  /** The lines in flight are those of the messages sent and not yet received. */
  predicate ChannelOk(s: State) {
    && |s.received| <= |s.sent| && s.received == s.sent[..|s.received|]
    && InFlight(s.up, s.sent[|s.received|..])
    && forall i :: 0 <= i < |s.down| ==> s.down[i] == Line(Stop) + "\n"
  }

  predicate InFlight(lines: seq<string>, ms: seq<Message>) {
    |lines| == |ms| && forall i :: 0 <= i < |ms| ==> lines[i] == Line(ms[i]) + "\n"
  }

  predicate ParentOk(s: State) {
    && !s.parentError && !s.workerError
    && (s.parent.ready <==> s.received != [])
    && (!s.parentDone ==> NoStop(s.received))
  }

  predicate Inv(s: State) { WorkerOk(s) && ChannelOk(s) && ParentOk(s) }

  lemma InFlightMore(lines: seq<string>, ms: seq<Message>, m: Message, line: string)
    requires InFlight(lines, ms) && line == Line(m) + "\n"
    ensures InFlight(lines + [line], ms + [m])
  {
  }

  lemma LegalMore(ms: seq<Message>, m: Message)
    requires Legal(ms) && NoStop(ms) && (m.Ready? <==> ms == [])
    ensures Legal(ms + [m])
  {
  }

  lemma SentMore(sent: seq<Message>, n: nat, m: Message)
    requires n <= |sent|
    ensures (sent + [m])[..n] == sent[..n] && (sent + [m])[n..] == sent[n..] + [m]
  {
  }

  lemma PutOk(s: State, m: Message, delivered: bool)
    requires Inv(s) && !s.workerDone && Fits(m) && (m.Ready? <==> !s.readySent)
    ensures var t := Put(s, m, delivered);
      && t == s.(up := t.up, sent := t.sent, upBroken := t.upBroken)
      && Legal(t.sent) && (forall i :: 0 <= i < |t.sent| ==> Fits(t.sent[i])) && ChannelOk(t)
      && ((t.sent == s.sent && t.upBroken) || t.sent == s.sent + [m])
  {
    if delivered && !s.upBroken {
      LegalMore(s.sent, m);
      SentMore(s.sent, |s.received|, m);
      InFlightMore(s.up, s.sent[|s.received|..], m, Line(m) + "\n");
    }
  }

  /** The first line in flight reads as the next message. */
  lemma HeadReads(s: State)
    requires Inv(s) && s.up != []
    ensures |s.received| < |s.sent| && Parse(TrimLineEnd(s.up[0])) == Some(s.sent[|s.received|])
    ensures InFlight(s.up[1..], s.sent[|s.received| + 1..])
  {
    var rest := s.sent[|s.received|..];
    assert rest[0] == s.sent[|s.received|];
    ReadBack(rest[0]);
    assert s.sent[|s.received| + 1..] == rest[1..];
  }

  lemma HandleOk(s: State, m: Message, now: int)
    requires ParentOk(s) && WorkerOk(s) && !s.parentDone
    requires |s.received| < |s.sent| && s.received == s.sent[..|s.received|] && m == s.sent[|s.received|]
    requires InFlight(s.up, s.sent[|s.received| + 1..])
    requires forall i :: 0 <= i < |s.down| ==> s.down[i] == Line(Stop) + "\n"
    ensures Inv(Handle(s, Some(m), now))
  {
    var t := Handle(s, Some(m), now);
    assert m.Ready? <==> s.received == [];
    assert t.received == s.received + [m] == s.sent[..|s.received| + 1];
  }

  lemma TakeOk(s: State, now: int)
    requires Inv(s) && !s.parentDone && s.up != []
    ensures Inv(Take(s, now))
  {
    HeadReads(s);
    HandleOk(s.(up := s.up[1..]), s.sent[|s.received|], now);
  }

  lemma DownOk(s: State)
    requires Inv(s) && s.down != []
    ensures Parse(TrimLineEnd(s.down[0])) == Some(Stop)
    ensures forall i :: 0 <= i < |s.down[1..]| ==> s.down[1..][i] == Line(Stop) + "\n"
  {
    ReadBack(Stop);
  }

  /** Whatever its turn, the worker sends READY first and only once, and nothing after STOP. */
  lemma ActedOk(s: State, t: WorkerTurn, delivered: bool)
    requires Inv(s) && !s.workerDone && FitsTurn(t)
    ensures Inv(Acted(s, WorkerTakes(s.readySent, t), delivered))
  {
    var act := WorkerTakes(s.readySent, t);
    if act.send.Some? {
      PutOk(s, act.send.value, delivered);
    }
  }

  lemma ParentTurnOk(s: State, x: Stimulus, now: int, s': State)
    requires Inv(s) && Next(s, ParentTurns(x, now), s')
    ensures Inv(s')
  {
  }

  lemma {:induction false} StepKeeps(s: State, e: Event, s': State)
    requires Inv(s) && Next(s, e, s')
    ensures Inv(s')
  {
    match e
    case WorkerTurns(t, delivered) => ActedOk(s, t, delivered);
    case WorkerReceives =>
      DownOk(s);
      ActedOk(s.(down := s.down[1..]), ControlMessage(Stop), false);
    case ParentReceives(now) => TakeOk(s, now);
    case ParentTurns(x, now) => ParentTurnOk(s, x, now, s');
    case ParentSendsStop(_) =>
  }

  lemma {:induction false} RunInv(ss: seq<State>, es: seq<Event>, n: nat)
    requires Run(ss, es) && n <= |es|
    ensures Inv(ss[n])
  {
    if n > 0 {
      RunInv(ss, es, n - 1);
      StepKeeps(ss[n - 1], es[n - 1], ss[n]);
    }
  }

  /** In every interleaving the channel carries a prefix of READY, BEAT*, STOP, the parent gets a
      prefix of that, and neither side ever takes a protocol-error branch: no duplicate READY, no
      BEAT or STOP before READY, no unreadable line, nothing but STOP at the worker. */
  lemma {:induction false} NoProtocolErrors(ss: seq<State>, es: seq<Event>, n: nat)
    requires Run(ss, es) && n <= |es|
    ensures Legal(ss[n].sent) && |ss[n].received| <= |ss[n].sent| && ss[n].received == ss[n].sent[..|ss[n].received|]
    ensures !ss[n].parentError && !ss[n].workerError
  {
    RunInv(ss, es, n);
  }
}
