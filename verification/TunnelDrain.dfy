/** Tunnel reservation, activation and drain. The methods of the class are the critical sections
    under the tunnel mutex; the state machine interleaves any number of clients with shutdown. */
module TunnelDrain {
  import opened Options

  /** Tunnels and signal channels are pointers in the program, and numbers here. */
  type Tunnel = nat
  type Client = nat

  datatype Registry = Registry(
    pending: nat, tunnels: set<Tunnel>, zero: nat, closedSignals: set<nat>, signals: nat,
    shuttingDown: bool, active: int, made: nat)

  const INIT := Registry(0, {}, 0, {0}, 1, false, 0, 0)

  // ---- The critical sections as functions ----

  predicate Idle(r: Registry) { r.pending == 0 && r.tunnels == {} }

  function Signal(r: Registry): Registry {
    if !Idle(r) then r else r.(closedSignals := r.closedSignals + {r.zero})
  }

  function Less(n: nat): nat { if n > 0 then n - 1 else n }

  function Reserve(r: Registry): (Registry, bool) {
    if r.shuttingDown then (r, false)
    else
      var r1 := if Idle(r) then r.(zero := r.signals, signals := r.signals + 1) else r;
      (r1.(pending := r1.pending + 1), true)
  }

  function Cancel(r: Registry): Registry { Signal(r.(pending := Less(r.pending))) }

  function Activate(r: Registry): (Registry, Option<Tunnel>) {
    var r1 := r.(pending := Less(r.pending));
    if r.shuttingDown then (Signal(r1), None)
    else (r1.(tunnels := r.tunnels + {r.made}, active := r.active + 1, made := r.made + 1), Some(r.made))
  }

  function Finish(r: Registry, t: Tunnel): Registry {
    if t in r.tunnels then Signal(r.(tunnels := r.tunnels - {t}, active := r.active - 1)) else r
  }

  // ---- The registry object ----

  class Tunnels {
    var pending: nat
    var tunnels: set<Tunnel>
    var zero: nat
    var closedSignals: set<nat>
    var signals: nat
    var shuttingDown: bool
    var active: int
    var made: nat

    ghost function Abs(): Registry
      reads this
    {
      Registry(pending, tunnels, zero, closedSignals, signals, shuttingDown, active, made)
    }

    constructor ()
      ensures Abs() == INIT
    {
      pending, tunnels, zero, closedSignals, signals := 0, {}, 0, {0}, 1;
      shuttingDown, active, made := false, 0, 0;
    }

    method ReserveTunnel() returns (ok: bool)
      modifies this
      ensures (Abs(), ok) == Reserve(old(Abs()))
    {
      if shuttingDown {
        return false;
      }
      if pending == 0 && |tunnels| == 0 {
        zero, signals := signals, signals + 1;
      }
      pending := pending + 1;
      return true;
    }

    /** Closing a closed channel would panic; the code looks first. */
    method SignalZero()
      modifies this`closedSignals
      ensures Abs() == Signal(old(Abs()))
    {
      if pending != 0 || |tunnels| != 0 {
        return;
      }
      if zero !in closedSignals {
        closedSignals := closedSignals + {zero};
      }
    }

    method CancelReservation()
      modifies this
      ensures Abs() == Cancel(old(Abs()))
    {
      if pending > 0 {
        pending := pending - 1;
      }
      SignalZero();
    }

    method ActivateTunnel() returns (tunnel: Option<Tunnel>)
      modifies this
      ensures (Abs(), tunnel) == Activate(old(Abs()))
    {
      if pending > 0 {
        pending := pending - 1;
      }
      if shuttingDown {
        SignalZero();
        return None;
      }
      tunnel := Some(made);
      tunnels, active, made := tunnels + {made}, active + 1, made + 1;
    }

    method FinishTunnel(t: Tunnel)
      modifies this
      ensures Abs() == Finish(old(Abs()), t)
    {
      if t in tunnels {
        tunnels, active := tunnels - {t}, active - 1;
        SignalZero();
      }
    }

    /** The locked part of shutdown: the channel to wait for and the tunnels to close. */
    method BeginShutdown() returns (done: nat, toClose: set<Tunnel>)
      modifies this
      ensures Abs() == old(Abs()).(shuttingDown := true) && done == zero && toClose == tunnels
    {
      shuttingDown := true;
      done, toClose := zero, tunnels;
    }
  }

  // ---- Interleavings ----

  datatype Shutdown = NotYet | Closing(done: nat, left: set<Tunnel>) | Returned(done: nat)

  /** `reserved` are the clients between reserving and cancelling or activating; `closed` the
      tunnels whose connections were closed. */
  datatype State = State(r: Registry, reserved: set<Client>, closed: set<Tunnel>, shutdown: Shutdown)

  datatype Event =
    | Reserved(client: Client)
    | Cancelled(client: Client)
    | Activated(client: Client)
    | ClosedByOwner(tunnel: Tunnel)
    | Finished(tunnel: Tunnel)
    | ShutdownBegan
    | ClosedByShutdown(tunnel: Tunnel)
    | ShutdownReturned

  /** Clients reserve, then cancel or activate once; an owner closes the connections of a tunnel
      before it finishes the tunnel; shutdown runs once. */
  ghost predicate Next(s: State, e: Event, s': State) {
    match e
    case Reserved(c) =>
      && c !in s.reserved
      && var (r, ok) := Reserve(s.r);
         s' == s.(r := r, reserved := if ok then s.reserved + {c} else s.reserved)
    case Cancelled(c) => c in s.reserved && s' == s.(r := Cancel(s.r), reserved := s.reserved - {c})
    case Activated(c) => c in s.reserved && s' == s.(r := Activate(s.r).0, reserved := s.reserved - {c})
    case ClosedByOwner(t) => t < s.r.made && s' == s.(closed := s.closed + {t})
    case Finished(t) => t in s.closed && s' == s.(r := Finish(s.r, t))
    case ShutdownBegan =>
      s.shutdown.NotYet? && s' == s.(r := s.r.(shuttingDown := true), shutdown := Closing(s.r.zero, s.r.tunnels))
    case ClosedByShutdown(t) =>
      && s.shutdown.Closing? && t in s.shutdown.left
      && s' == s.(closed := s.closed + {t}, shutdown := Closing(s.shutdown.done, s.shutdown.left - {t}))
    case ShutdownReturned =>
      s.shutdown.Closing? && s.shutdown.left == {} && s' == s.(shutdown := Returned(s.shutdown.done))
  }

  predicate Init(s: State) { s == State(INIT, {}, {}, NotYet) }

  ghost predicate Run(ss: seq<State>, es: seq<Event>) {
    && |ss| == |es| + 1 && Init(ss[0])
    && forall i :: 0 <= i < |es| ==> Next(ss[i], es[i], ss[i + 1])
  }

  predicate RegistryOk(r: Registry) {
    && (r.zero in r.closedSignals <==> Idle(r))
    && r.active == |r.tunnels|
    && r.zero < r.signals && (forall z :: z in r.closedSignals ==> z < r.signals)
    && (forall t :: t in r.tunnels ==> t < r.made)
  }

  /** The zero channel is closed exactly when there are no reservations and no tunnels; reservations
      are those of the clients, so no decrement is ever skipped; every tunnel that is not
      registered any more was closed. */
  ghost predicate Inv(s: State) {
    && RegistryOk(s.r)
    && s.r.pending == |s.reserved|
    && (forall t: nat :: t < s.r.made && t !in s.r.tunnels ==> t in s.closed)
    && (s.r.shuttingDown <==> !s.shutdown.NotYet?)
    && (!s.shutdown.NotYet? ==> s.shutdown.done == s.r.zero)
    && (s.shutdown.Closing? ==> forall t :: t in s.r.tunnels && t !in s.shutdown.left ==> t in s.closed)
    && (s.shutdown.Returned? ==> forall t :: t in s.r.tunnels ==> t in s.closed)
  }

  lemma ReserveOk(r: Registry)
    requires RegistryOk(r)
    ensures RegistryOk(Reserve(r).0)
  {
  }

  lemma CancelOk(r: Registry)
    requires RegistryOk(r) && r.pending > 0
    ensures RegistryOk(Cancel(r))
  {
  }

  lemma ActivateOk(r: Registry)
    requires RegistryOk(r) && r.pending > 0
    ensures RegistryOk(Activate(r).0)
  {
  }

  lemma FinishOk(r: Registry, t: Tunnel)
    requires RegistryOk(r)
    ensures RegistryOk(Finish(r, t))
  {
  }

  lemma ReservedKeeps(s: State, c: Client, s': State)
    requires Inv(s) && Next(s, Reserved(c), s')
    ensures Inv(s')
  {
    ReserveOk(s.r);
  }

  lemma CancelledKeeps(s: State, c: Client, s': State)
    requires Inv(s) && Next(s, Cancelled(c), s')
    ensures Inv(s')
  {
    CancelOk(s.r);
  }

  lemma ActivatedKeeps(s: State, c: Client, s': State)
    requires Inv(s) && Next(s, Activated(c), s')
    ensures Inv(s')
  {
    ActivateOk(s.r);
  }

  lemma FinishedKeeps(s: State, t: Tunnel, s': State)
    requires Inv(s) && Next(s, Finished(t), s')
    ensures Inv(s')
  {
    FinishOk(s.r, t);
  }

  lemma {:induction false} StepKeeps(s: State, e: Event, s': State)
    requires Inv(s) && Next(s, e, s')
    ensures Inv(s')
  {
    match e
    case Reserved(c) => ReservedKeeps(s, c, s');
    case Cancelled(c) => CancelledKeeps(s, c, s');
    case Activated(c) => ActivatedKeeps(s, c, s');
    case Finished(t) => FinishedKeeps(s, t, s');
    case _ =>
  }

  lemma {:induction false} RunInv(ss: seq<State>, es: seq<Event>, n: nat)
    requires Run(ss, es) && n <= |es|
    ensures Inv(ss[n])
    ensures ss[n].r.zero in ss[n].r.closedSignals <==> ss[n].reserved == {} && ss[n].r.tunnels == {}
    ensures ss[n].r.active == |ss[n].r.tunnels|
  {
    if n > 0 {
      RunInv(ss, es, n - 1);
      StepKeeps(ss[n - 1], es[n - 1], ss[n]);
    }
  }

  /** Shutdown is under way and its channel is closed. */
  predicate Drained(s: State) { !s.shutdown.NotYet? && s.shutdown.done in s.r.closedSignals }

  lemma DrainedStays(s: State, e: Event, s': State)
    requires Inv(s) && Next(s, e, s') && Drained(s)
    ensures Drained(s')
  {
  }

  /** Once the channel that shutdown returned is closed, no tunnel and no reservation exists, nor
      ever will again. */
  lemma {:induction false} DrainIsFinal(ss: seq<State>, es: seq<Event>, k: nat, n: nat)
    requires Run(ss, es) && k <= n <= |es| && Drained(ss[k])
    ensures Drained(ss[n]) && ss[n].r.tunnels == {} && ss[n].r.active == 0
    ensures ss[n].r.pending == 0 && ss[n].reserved == {}
  {
    RunInv(ss, es, n);
    if k < n {
      RunInv(ss, es, n - 1);
      DrainIsFinal(ss, es, k, n - 1);
      DrainedStays(ss[n - 1], es[n - 1], ss[n]);
    }
  }

  lemma ReturnedStays(s: State, e: Event, s': State)
    requires Inv(s) && Next(s, e, s') && s.shutdown.Returned?
    ensures s'.shutdown.Returned? && s'.r.made == s.r.made
  {
  }

  /** Once shutdown has returned its channel, every tunnel ever activated has been closed, and from
      then on none is ever activated again. */
  lemma {:induction false} ShutdownClosesAll(ss: seq<State>, es: seq<Event>, k: nat, n: nat)
    requires Run(ss, es) && k <= n <= |es| && ss[k].shutdown.Returned?
    ensures ss[n].shutdown.Returned? && ss[n].r.made == ss[k].r.made
    ensures forall t: nat :: t < ss[n].r.made ==> t in ss[n].closed
  {
    RunReturned(ss, es);
    ReturnedForever(ss, k, n);
    RunInv(ss, es, n);
    ReturnedClosed(ss[n]);
  }

  lemma ReturnedClosed(s: State)
    requires Inv(s) && s.shutdown.Returned?
    ensures forall t: nat :: t < s.r.made ==> t in s.closed
  {
  }

  predicate ReturnedStep(s: State, s': State) {
    s.shutdown.Returned? ==> s'.shutdown.Returned? && s'.r.made == s.r.made
  }

  lemma RunReturned(ss: seq<State>, es: seq<Event>)
    requires Run(ss, es)
    ensures forall i :: 0 <= i < |es| ==> ReturnedStep(ss[i], ss[i + 1])
  {
    forall i | 0 <= i < |es| ensures ReturnedStep(ss[i], ss[i + 1]) {
      RunInv(ss, es, i);
      if ss[i].shutdown.Returned? {
        ReturnedStays(ss[i], es[i], ss[i + 1]);
      }
    }
  }

  lemma {:induction false} ReturnedForever(ss: seq<State>, k: nat, n: nat)
    requires k <= n < |ss| && ss[k].shutdown.Returned?
    requires forall i :: 0 <= i < |ss| - 1 ==> ReturnedStep(ss[i], ss[i + 1])
    ensures ss[n].shutdown.Returned? && ss[n].r.made == ss[k].r.made
  {
    if k < n {
      ReturnedForever(ss, k, n - 1);
      assert ReturnedStep(ss[n - 1], ss[n - 1 + 1]);
    }
  }

  /** Shutdown's channel closes as soon as the clients have settled: with no reservation and no
      tunnel left it is closed already. */
  lemma DrainComes(ss: seq<State>, es: seq<Event>, n: nat)
    requires Run(ss, es) && n <= |es| && !ss[n].shutdown.NotYet?
    ensures Drained(ss[n]) <==> ss[n].reserved == {} && ss[n].r.tunnels == {}
  {
    RunInv(ss, es, n);
  }

  // ---- Which clients and tunnels there are ----

  /** Client `c` reserved at event `a`, before shutdown began, and has neither cancelled nor activated. */
  ghost predicate ReservedSince(ss: seq<State>, es: seq<Event>, n: nat, c: Client, a: nat)
    requires |ss| == |es| + 1 && n <= |es|
  {
    && a < n && es[a] == Reserved(c) && ss[a].shutdown.NotYet?
    && forall i :: a < i < n ==> es[i] != Cancelled(c) && es[i] != Activated(c)
  }

  /** Tunnel `t` was activated at event `a`, before shutdown began, and has not been finished. */
  ghost predicate RegisteredSince(ss: seq<State>, es: seq<Event>, n: nat, t: Tunnel, a: nat)
    requires |ss| == |es| + 1 && n <= |es|
  {
    && a < n && es[a].Activated? && ss[a].shutdown.NotYet? && ss[a].r.made == t
    && forall i :: a < i < n ==> es[i] != Finished(t)
  }

  lemma StepClients(s: State, e: Event, s': State, c: Client)
    requires Inv(s) && Next(s, e, s')
    ensures c in s'.reserved <==>
      (e == Reserved(c) && s.shutdown.NotYet?) || (c in s.reserved && e != Cancelled(c) && e != Activated(c))
  {
  }

  lemma StepTunnels(s: State, e: Event, s': State, t: Tunnel)
    requires Inv(s) && Next(s, e, s')
    ensures t in s'.r.tunnels <==>
      (e.Activated? && s.shutdown.NotYet? && s.r.made == t) || (t in s.r.tunnels && e != Finished(t))
    ensures s'.r.made == s.r.made + if e.Activated? && s.shutdown.NotYet? then 1 else 0
  {
  }

  lemma ReservedLonger(ss: seq<State>, es: seq<Event>, m: nat, n: nat, c: Client)
    requires |ss| == |es| + 1 && m < |es| && n == m + 1
    ensures (exists a: nat :: ReservedSince(ss, es, n, c, a)) <==>
      || (es[m] == Reserved(c) && ss[m].shutdown.NotYet?)
      || (es[m] != Cancelled(c) && es[m] != Activated(c) && exists a: nat :: ReservedSince(ss, es, m, c, a))
  {
    if es[m] == Reserved(c) && ss[m].shutdown.NotYet? {
      assert ReservedSince(ss, es, n, c, m);
    }
    forall a: nat | a < m
      ensures ReservedSince(ss, es, n, c, a) <==>
        ReservedSince(ss, es, m, c, a) && es[m] != Cancelled(c) && es[m] != Activated(c)
    {
    }
  }

  lemma RegisteredLonger(ss: seq<State>, es: seq<Event>, m: nat, n: nat, t: Tunnel)
    requires |ss| == |es| + 1 && m < |es| && n == m + 1
    ensures (exists a: nat :: RegisteredSince(ss, es, n, t, a)) <==>
      || (es[m].Activated? && ss[m].shutdown.NotYet? && ss[m].r.made == t)
      || (es[m] != Finished(t) && exists a: nat :: RegisteredSince(ss, es, m, t, a))
  {
    if es[m].Activated? && ss[m].shutdown.NotYet? && ss[m].r.made == t {
      assert RegisteredSince(ss, es, n, t, m);
    }
    forall a: nat | a < m
      ensures RegisteredSince(ss, es, n, t, a) <==> RegisteredSince(ss, es, m, t, a) && es[m] != Finished(t)
    {
    }
  }

  /** A client holds a reservation exactly from reserving before shutdown until it cancels or activates:
      no reservation is refused before shutdown, and none is granted after. */
  lemma {:induction false} ReservedIff(ss: seq<State>, es: seq<Event>, n: nat, c: Client)
    requires Run(ss, es) && n <= |es|
    ensures c in ss[n].reserved <==> exists a: nat :: ReservedSince(ss, es, n, c, a)
  {
    if n > 0 {
      RunInv(ss, es, n - 1);
      StepClients(ss[n - 1], es[n - 1], ss[n], c);
      ReservedIff(ss, es, n - 1, c);
      ReservedLonger(ss, es, n - 1, n, c);
    }
  }

  /** A tunnel is registered exactly from its activation before shutdown until it is finished. */
  lemma {:induction false} RegisteredIff(ss: seq<State>, es: seq<Event>, n: nat, t: Tunnel)
    requires Run(ss, es) && n <= |es|
    ensures t in ss[n].r.tunnels <==> exists a: nat :: RegisteredSince(ss, es, n, t, a)
  {
    if n > 0 {
      RunInv(ss, es, n - 1);
      StepTunnels(ss[n - 1], es[n - 1], ss[n], t);
      RegisteredIff(ss, es, n - 1, t);
      RegisteredLonger(ss, es, n - 1, n, t);
    }
  }
}
