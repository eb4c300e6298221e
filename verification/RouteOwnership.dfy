/** Who owns the routing objects: concurrent reloads build them, one locked section publishes them,
    shutdown takes them away, and readers use them under the read locks. */
module RouteOwnership {
  import opened Options

  /** Routing objects and reloads are pointers and calls in the program, and numbers here. */
  type Id = nat
  type Reload = nat

  /** What readers see, and the `Close` calls made so far. `doh`: there is a DoH bootstrap route. */
  datatype Routes = Routes(doh: bool, route: Option<Id>, bootstrap: Option<Id>, routingClosed: bool, closed: seq<Id>)

  function One(o: Option<Id>): seq<Id> { if o.Some? then [o.value] else [] }

  // ---- The locked sections as functions ----

  /** Publication of a complete pair when routing is open: the previous pair is closed inside. */
  function Publish(r: Routes, route: Id, bootstrap: Option<Id>): Routes {
    r.(route := Some(route),
       bootstrap := if r.doh then bootstrap else r.bootstrap,
       closed := r.closed + One(r.route) + if r.doh then One(r.bootstrap) else [])
  }

  function DropBootstrap(r: Routes): Routes {
    if r.doh then r.(bootstrap := None, closed := r.closed + One(r.bootstrap)) else r
  }

  function DropRoute(r: Routes): Routes { r.(route := None, closed := r.closed + One(r.route)) }

  // ---- The server's routing fields ----

  class Routing {
    const doh: bool
    var route: Option<Id>
    var bootstrap: Option<Id>
    var routingClosed: bool
    var closed: seq<Id>

    ghost function Abs(): Routes
      reads this
    {
      Routes(doh, route, bootstrap, routingClosed, closed)
    }

    constructor (first: Id, firstBootstrap: Option<Id>)
      ensures Abs() == Routes(firstBootstrap.Some?, Some(first), firstBootstrap, false, [])
    {
      doh, route, bootstrap := firstBootstrap.Some?, Some(first), firstBootstrap;
      routingClosed, closed := false, [];
    }

    /** The section at the end of a reload; a refused pair stays with the caller, who closes it. */
    method PublishPair(freshRoute: Id, freshBootstrap: Option<Id>) returns (published: bool)
      modifies this
      ensures published == !old(routingClosed)
      ensures Abs() == if published then Publish(old(Abs()), freshRoute, freshBootstrap) else old(Abs())
    {
      if routingClosed {
        return false;
      }
      var previous := route;
      route := Some(freshRoute);
      var previousBootstrap: Option<Id> := None;
      if doh {
        previousBootstrap := bootstrap;
        bootstrap := freshBootstrap;
      }
      if previous.Some? {
        closed := closed + [previous.value];
      }
      if previousBootstrap.Some? {
        closed := closed + [previousBootstrap.value];
      }
      return true;
    }

    method Fence()
      modifies this
      ensures Abs() == old(Abs()).(routingClosed := true)
    {
      routingClosed := true;
    }

    method CloseBootstrap()
      modifies this
      ensures Abs() == DropBootstrap(old(Abs()))
    {
      if doh {
        var previous := bootstrap;
        bootstrap := None;
        if previous.Some? {
          closed := closed + [previous.value];
        }
      }
    }

    method CloseRoute()
      modifies this
      ensures Abs() == DropRoute(old(Abs()))
    {
      var previous := route;
      route := None;
      if previous.Some? {
        closed := closed + [previous.value];
      }
    }
  }

  // ---- Interleavings ----

  /** A reload holds the route it built, then both objects, or is closing what it cannot publish. */
  datatype Phase = HasRoute(route: Id) | HasBoth(route: Id, bootstrap: Id) | GivingUp(left: seq<Id>)

  datatype Shutdown = Running | Fenced | BootstrapGone | Done

  /** `builder[id]` is the reload that built object `id` (0 for the ones the server started with);
      `using` and `usingBootstrap` are the readers inside a read lock with the object they read. */
  datatype State = State(
    r: Routes, builder: seq<Reload>, reloads: nat, phases: map<Reload, Phase>, shutdown: Shutdown,
    using: map<nat, Option<Id>>, usingBootstrap: map<nat, Option<Id>>)

  datatype Event =
    | Built
    | BuiltBootstrap(reload: Reload)
    | GaveUp(reload: Reload)
    | ClosedHeld(reload: Reload)
    | Published(reload: Reload)
    | FenceSet
    | BootstrapDropped
    | RouteDropped
    | ReaderEntered(reader: nat)
    | ReaderLeft(reader: nat)
    | BootstrapReaderEntered(reader: nat)
    | BootstrapReaderLeft(reader: nat)

  function Objects(p: Phase): seq<Id> {
    match p
    case HasRoute(w) => [w]
    case HasBoth(w, b) => [w, b]
    case GivingUp(left) => left
  }

  predicate Complete(s: State, p: Phase) { if s.r.doh then p.HasBoth? else p.HasRoute? }

  function PublishedState(s: State, n: Reload): State
    requires n in s.phases && Complete(s, s.phases[n])
  {
    var p := s.phases[n];
    s.(r := Publish(s.r, p.route, if p.HasBoth? then Some(p.bootstrap) else None), phases := s.phases - {n})
  }

  /** A write lock needs every reader of that lock to have left. */
  ghost predicate Next(s: State, e: Event, s': State) {
    match e
    case Built =>
      s' == s.(builder := s.builder + [s.reloads], reloads := s.reloads + 1,
               phases := s.phases[s.reloads := HasRoute(|s.builder|)])
    case BuiltBootstrap(n) =>
      && s.r.doh && n in s.phases && s.phases[n].HasRoute?
      && s' == s.(builder := s.builder + [n], phases := s.phases[n := HasBoth(s.phases[n].route, |s.builder|)])
    case GaveUp(n) =>
      n in s.phases && !s.phases[n].GivingUp? && s' == s.(phases := s.phases[n := GivingUp(Objects(s.phases[n]))])
    case ClosedHeld(n) =>
      && n in s.phases && s.phases[n].GivingUp? && s.phases[n].left != []
      && var left := s.phases[n].left;
         s' == s.(r := s.r.(closed := s.r.closed + [left[0]]), phases := s.phases[n := GivingUp(left[1..])])
    case Published(n) =>
      && n in s.phases && Complete(s, s.phases[n]) && s.using == map[] && (s.r.doh ==> s.usingBootstrap == map[])
      && s' == if s.r.routingClosed then s.(phases := s.phases[n := GivingUp(Objects(s.phases[n]))])
               else PublishedState(s, n)
    case FenceSet =>
      s.shutdown.Running? && s.using == map[] && s' == s.(r := s.r.(routingClosed := true), shutdown := Fenced)
    case BootstrapDropped =>
      && s.shutdown.Fenced? && (s.r.doh ==> s.usingBootstrap == map[])
      && s' == s.(r := DropBootstrap(s.r), shutdown := BootstrapGone)
    case RouteDropped =>
      s.shutdown.BootstrapGone? && s.using == map[] && s' == s.(r := DropRoute(s.r), shutdown := Done)
    case ReaderEntered(x) => x !in s.using && s' == s.(using := s.using[x := s.r.route])
    case ReaderLeft(x) => x in s.using && s' == s.(using := s.using - {x})
    case BootstrapReaderEntered(x) =>
      s.r.doh && x !in s.usingBootstrap && s' == s.(usingBootstrap := s.usingBootstrap[x := s.r.bootstrap])
    case BootstrapReaderLeft(x) => x in s.usingBootstrap && s' == s.(usingBootstrap := s.usingBootstrap - {x})
  }

  predicate Init(s: State) {
    && s.r == Routes(s.r.doh, Some(0), if s.r.doh then Some(1) else None, false, [])
    && s.builder == (if s.r.doh then [0, 0] else [0]) && s.reloads == 1 && s.phases == map[] && s.shutdown == Running
    && s.using == map[] && s.usingBootstrap == map[]
  }

  ghost predicate Run(ss: seq<State>, es: seq<Event>) {
    && |ss| == |es| + 1 && Init(ss[0])
    && forall i :: 0 <= i < |es| ==> Next(ss[i], es[i], ss[i + 1])
  }

  // ---- Ownership ----

  predicate Held(s: State, id: Id) {
    id < |s.builder| && s.builder[id] in s.phases && id in Objects(s.phases[s.builder[id]])
  }
  predicate IsPublished(s: State, id: Id) { s.r.route == Some(id) || s.r.bootstrap == Some(id) }
  predicate Closed(s: State, id: Id) { id in s.r.closed }

  function Places(s: State, id: Id): nat {
    (if Held(s, id) then 1 else 0) + (if IsPublished(s, id) then 1 else 0) + (if Closed(s, id) then 1 else 0)
  }

  predicate NoRepeats(xs: seq<Id>) { forall i, j :: 0 <= i < j < |xs| ==> xs[i] != xs[j] }

  /** What a reload holds it built itself, and each object once. */
  predicate PhaseOk(s: State, n: Reload)
    requires n in s.phases
  {
    var objs := Objects(s.phases[n]);
    && n < s.reloads && NoRepeats(objs)
    && forall i :: 0 <= i < |objs| ==> objs[i] < |s.builder| && s.builder[objs[i]] == n
  }

  ghost predicate Owned(s: State) {
    && (forall id: nat :: Places(s, id) == if id < |s.builder| then 1 else 0)
    && NoRepeats(s.r.closed)
    && (forall n :: n in s.phases ==> PhaseOk(s, n))
    && (s.r.route.Some? && s.r.route == s.r.bootstrap ==> false)
    && (forall id :: 0 <= id < |s.builder| ==> s.builder[id] < s.reloads)
  }

  /** Normal and DoH route come from the same reload as long as both are there, and both are there
      until shutdown takes the first. */
  predicate Paired(s: State) {
    && (!s.r.doh ==> s.r.bootstrap.None?)
    && (s.r.route.Some? ==> s.r.route.value < |s.builder|)
    && (s.r.bootstrap.Some? ==> s.r.bootstrap.value < |s.builder|)
    && (s.r.route.Some? && s.r.bootstrap.Some? ==> s.builder[s.r.route.value] == s.builder[s.r.bootstrap.value])
    && (s.r.routingClosed <==> !s.shutdown.Running?)
    && (s.r.route.None? <==> s.shutdown.Done?)
    && (s.r.doh ==> (s.r.bootstrap.None? <==> s.shutdown.BootstrapGone? || s.shutdown.Done?))
  }

  /** A reader inside its lock reads the published object. */
  predicate ReadersOk(s: State) {
    && (forall x :: x in s.using ==> s.using[x] == s.r.route)
    && (forall x :: x in s.usingBootstrap ==> s.r.doh && s.usingBootstrap[x] == s.r.bootstrap)
  }

  ghost predicate Inv(s: State) { Owned(s) && Paired(s) && ReadersOk(s) }

  lemma ReadersKeep(s: State, e: Event, s': State)
    requires ReadersOk(s) && Next(s, e, s')
    ensures ReadersOk(s')
  {
  }

  lemma PhaseObjects(s: State, n: Reload)
    requires n in s.phases && PhaseOk(s, n) && !s.phases[n].GivingUp?
    ensures s.phases[n].route < |s.builder| && s.builder[s.phases[n].route] == n
    ensures s.phases[n].HasBoth? ==>
      var b := s.phases[n].bootstrap; b < |s.builder| && s.builder[b] == n && b != s.phases[n].route
  {
    var objs := Objects(s.phases[n]);
    assert objs[0] == s.phases[n].route;
    if s.phases[n].HasBoth? {
      assert objs[1] == s.phases[n].bootstrap;
    }
  }

  lemma PairedKeep(s: State, e: Event, s': State)
    requires Inv(s) && Next(s, e, s')
    ensures Paired(s')
  {
    if e.Published? && !s.r.routingClosed {
      PhaseObjects(s, e.reload);
    }
  }

  lemma NoRepeatsAppend(xs: seq<Id>, x: Id)
    requires NoRepeats(xs) && x !in xs
    ensures NoRepeats(xs + [x])
  {
  }

  ghost predicate Placed(s: State) { forall id: nat :: Places(s, id) == if id < |s.builder| then 1 else 0 }

  lemma BuiltOwned(s: State, s': State)
    requires Inv(s) && Next(s, Built, s')
    ensures Owned(s')
  {
    forall n | n in s'.phases ensures PhaseOk(s', n) {
      if n != s.reloads {
        assert PhaseOk(s, n);
      }
    }
    forall id: nat ensures Places(s', id) == if id < |s'.builder| then 1 else 0 {
      assert Places(s, id) == if id < |s.builder| then 1 else 0;
    }
  }

  lemma BuiltBootstrapOwned(s: State, n: Reload, s': State)
    requires Inv(s) && Next(s, BuiltBootstrap(n), s')
    ensures Owned(s')
  {
    PhaseObjects(s, n);
    forall m | m in s'.phases ensures PhaseOk(s', m) {
      assert m in s.phases && PhaseOk(s, m);
    }
    forall id: nat ensures Places(s', id) == if id < |s'.builder| then 1 else 0 {
      BuiltBootstrapPlaces(s, n, s', id);
    }
  }

  lemma BuiltBootstrapPlaces(s: State, n: Reload, s': State, id: nat)
    requires Inv(s) && Next(s, BuiltBootstrap(n), s')
    ensures Places(s', id) == if id < |s'.builder| then 1 else 0
  {
    PhaseObjects(s, n);
    assert Places(s, id) == if id < |s.builder| then 1 else 0;
  }

  lemma GaveUpOwned(s: State, n: Reload, s': State)
    requires Inv(s) && n in s.phases && s' == s.(phases := s.phases[n := GivingUp(Objects(s.phases[n]))])
    ensures Owned(s')
  {
    forall m | m in s'.phases ensures PhaseOk(s', m) {
      assert m in s.phases && PhaseOk(s, m);
    }
    forall id: nat ensures Places(s', id) == if id < |s'.builder| then 1 else 0 {
      assert Places(s, id) == if id < |s.builder| then 1 else 0;
    }
  }

  lemma ClosedHeldOwned(s: State, n: Reload, s': State)
    requires Inv(s) && Next(s, ClosedHeld(n), s')
    ensures Owned(s')
  {
    var left := s.phases[n].left;
    assert PhaseOk(s, n);
    assert Objects(s.phases[n]) == left && left == [left[0]] + left[1..];
    assert Places(s, left[0]) == 1;
    NoRepeatsAppend(s.r.closed, left[0]);
    forall m | m in s'.phases ensures PhaseOk(s', m) {
      assert m in s.phases && PhaseOk(s, m);
    }
    forall id: nat ensures Places(s', id) == if id < |s'.builder| then 1 else 0 {
      assert Places(s, id) == if id < |s.builder| then 1 else 0;
    }
  }

  lemma CloseOne(o: Option<Id>, closed: seq<Id>)
    requires NoRepeats(closed) && (o.Some? ==> o.value !in closed)
    ensures NoRepeats(closed + One(o))
  {
    if o.Some? {
      NoRepeatsAppend(closed, o.value);
    } else {
      assert closed + One(o) == closed;
    }
  }

  lemma PublishedUnclosed(s: State)
    requires Placed(s)
    ensures s.r.route.Some? ==> s.r.route.value !in s.r.closed
    ensures s.r.bootstrap.Some? ==> s.r.bootstrap.value !in s.r.closed
  {
    if s.r.route.Some? {
      assert Places(s, s.r.route.value) == if s.r.route.value < |s.builder| then 1 else 0;
    }
    if s.r.bootstrap.Some? {
      assert Places(s, s.r.bootstrap.value) == if s.r.bootstrap.value < |s.builder| then 1 else 0;
    }
  }

  lemma PublishedOwned(s: State, n: Reload, s': State)
    requires Inv(s) && !s.r.routingClosed && n in s.phases && Complete(s, s.phases[n]) && s' == PublishedState(s, n)
    ensures Owned(s')
  {
    PhaseObjects(s, n);
    PublishedUnclosed(s);
    var middle := s.r.closed + One(s.r.route);
    CloseOne(s.r.route, s.r.closed);
    if s.r.doh {
      CloseOne(s.r.bootstrap, middle);
    } else {
      assert s'.r.closed == middle;
    }
    forall m | m in s'.phases ensures PhaseOk(s', m) {
      assert m in s.phases && PhaseOk(s, m);
    }
    forall id: nat ensures Places(s', id) == if id < |s'.builder| then 1 else 0 {
      PublishedPlaces(s, n, s', id);
    }
  }

  lemma PublishedPlaces(s: State, n: Reload, s': State, id: nat)
    requires Inv(s) && !s.r.routingClosed && n in s.phases && Complete(s, s.phases[n]) && s' == PublishedState(s, n)
    ensures Places(s', id) == if id < |s'.builder| then 1 else 0
  {
    PhaseObjects(s, n);
    assert PhaseOk(s, n);
    assert Places(s, id) == if id < |s.builder| then 1 else 0;
    assert Closed(s', id) <==> Closed(s, id) || IsPublished(s, id);
    assert Held(s', id) <==> Held(s, id) && id !in Objects(s.phases[n]);
    assert IsPublished(s', id) <==> id in Objects(s.phases[n]);
  }

  lemma BootstrapDroppedOwned(s: State, s': State)
    requires Inv(s) && Next(s, BootstrapDropped, s')
    ensures Owned(s')
  {
    PublishedUnclosed(s);
    CloseOne(s.r.bootstrap, s.r.closed);
    forall m | m in s'.phases ensures PhaseOk(s', m) {
      assert m in s.phases && PhaseOk(s, m);
    }
    forall id: nat ensures Places(s', id) == if id < |s'.builder| then 1 else 0 {
      assert Places(s, id) == if id < |s.builder| then 1 else 0;
    }
  }

  lemma RouteDroppedOwned(s: State, s': State)
    requires Inv(s) && Next(s, RouteDropped, s')
    ensures Owned(s')
  {
    PublishedUnclosed(s);
    CloseOne(s.r.route, s.r.closed);
    forall m | m in s'.phases ensures PhaseOk(s', m) {
      assert m in s.phases && PhaseOk(s, m);
    }
    forall id: nat ensures Places(s', id) == if id < |s'.builder| then 1 else 0 {
      assert Places(s, id) == if id < |s.builder| then 1 else 0;
    }
  }

  lemma SameOwned(s: State, s': State)
    requires Owned(s) && s'.builder == s.builder && s'.reloads == s.reloads && s'.phases == s.phases
    requires s'.r == s.r.(routingClosed := s'.r.routingClosed)
    ensures Owned(s')
  {
    forall m | m in s'.phases ensures PhaseOk(s', m) {
      assert m in s.phases && PhaseOk(s, m);
    }
    forall id: nat ensures Places(s', id) == if id < |s'.builder| then 1 else 0 {
      assert Places(s, id) == if id < |s.builder| then 1 else 0;
    }
  }

  lemma {:induction false} StepKeeps(s: State, e: Event, s': State)
    requires Inv(s) && Next(s, e, s')
    ensures Inv(s')
  {
    ReadersKeep(s, e, s');
    PairedKeep(s, e, s');
    match e
    case Built => BuiltOwned(s, s');
    case BuiltBootstrap(n) => BuiltBootstrapOwned(s, n, s');
    case GaveUp(n) => GaveUpOwned(s, n, s');
    case ClosedHeld(n) => ClosedHeldOwned(s, n, s');
    case Published(n) =>
      if s.r.routingClosed {
        GaveUpOwned(s, n, s');
      } else {
        PublishedOwned(s, n, s');
      }
    case BootstrapDropped => BootstrapDroppedOwned(s, s');
    case RouteDropped => RouteDroppedOwned(s, s');
    case _ => SameOwned(s, s');
  }

  lemma InitOwned(s: State)
    requires Init(s)
    ensures Inv(s)
  {
    forall id: nat ensures Places(s, id) == if id < |s.builder| then 1 else 0 {}
  }

  /** In every run each routing object ever built is held by the reload that built it, published, or
      closed, exactly one of these, and closed at most once. */
  lemma {:induction false} RunInv(ss: seq<State>, es: seq<Event>, n: nat)
    requires Run(ss, es) && n <= |es|
    ensures Inv(ss[n])
  {
    if n == 0 {
      InitOwned(ss[0]);
    } else {
      RunInv(ss, es, n - 1);
      StepKeeps(ss[n - 1], es[n - 1], ss[n]);
    }
  }

  /** The normal and the DoH route that readers can see were built by the same reload, and one is
      missing only once shutdown has begun to take them away. */
  lemma PublishedAsPair(ss: seq<State>, es: seq<Event>, n: nat)
    requires Run(ss, es) && n <= |es| && ss[n].r.doh
    ensures match (ss[n].r.route, ss[n].r.bootstrap)
      case (Some(w), Some(b)) =>
        w != b && w < |ss[n].builder| && b < |ss[n].builder| && ss[n].builder[w] == ss[n].builder[b]
      case _ => ss[n].r.routingClosed
  {
    RunInv(ss, es, n);
  }

  /** A reader inside its lock never has a closed object in hand, and none at all only during or
      after shutdown. */
  lemma {:induction false} ReadersSeeNoClosed(ss: seq<State>, es: seq<Event>, n: nat, x: nat)
    requires Run(ss, es) && n <= |es|
    ensures x in ss[n].using && ss[n].using[x].Some? ==> !Closed(ss[n], ss[n].using[x].value)
    ensures x in ss[n].using && ss[n].using[x].None? ==> ss[n].shutdown.Done?
    ensures x in ss[n].usingBootstrap && ss[n].usingBootstrap[x].Some? ==> !Closed(ss[n], ss[n].usingBootstrap[x].value)
    ensures x in ss[n].usingBootstrap && ss[n].usingBootstrap[x].None? ==>
              ss[n].shutdown.BootstrapGone? || ss[n].shutdown.Done?
  {
    RunInv(ss, es, n);
    PublishedUnclosed(ss[n]);
  }

  lemma FencedStep(s: State, e: Event, s': State)
    requires Inv(s) && Next(s, e, s') && s.r.routingClosed
    ensures s'.r.routingClosed
    ensures s'.r.route == s.r.route || s'.r.route.None?
    ensures s'.r.bootstrap == s.r.bootstrap || s'.r.bootstrap.None?
    ensures s.shutdown.Done? ==> s'.shutdown.Done?
  {
  }

  /** From the fence on nothing is ever published again, and after shutdown nothing is published
      at all. */
  lemma {:induction false} NothingAfterShutdown(ss: seq<State>, es: seq<Event>, k: nat, n: nat)
    requires Run(ss, es) && k <= n <= |es| && ss[k].r.routingClosed
    ensures ss[n].r.routingClosed
    ensures ss[n].r.route == ss[k].r.route || ss[n].r.route.None?
    ensures ss[n].r.bootstrap == ss[k].r.bootstrap || ss[n].r.bootstrap.None?
    ensures ss[k].shutdown.Done? ==> ss[n].r.route.None? && ss[n].r.bootstrap.None? && ss[n].shutdown.Done?
  {
    RunFenced(ss, es);
    FencedForever(ss, k, n);
    if ss[k].shutdown.Done? {
      RunInv(ss, es, n);
      DoneIsEmpty(ss[n]);
    }
  }

  lemma DoneIsEmpty(s: State)
    requires Inv(s) && s.shutdown.Done?
    ensures s.r.route.None? && s.r.bootstrap.None?
  {
  }

  predicate FencedPair(s: State, s': State) {
    s.r.routingClosed ==>
      && s'.r.routingClosed && (s'.r.route == s.r.route || s'.r.route.None?)
      && (s'.r.bootstrap == s.r.bootstrap || s'.r.bootstrap.None?) && (s.shutdown.Done? ==> s'.shutdown.Done?)
  }

  lemma RunFenced(ss: seq<State>, es: seq<Event>)
    requires Run(ss, es)
    ensures forall i :: 0 <= i < |es| ==> FencedPair(ss[i], ss[i + 1])
  {
    forall i | 0 <= i < |es| ensures FencedPair(ss[i], ss[i + 1]) {
      RunInv(ss, es, i);
      if ss[i].r.routingClosed {
        FencedStep(ss[i], es[i], ss[i + 1]);
      }
    }
  }

  lemma {:induction false} FencedForever(ss: seq<State>, k: nat, n: nat)
    requires k <= n < |ss| && forall i :: 0 <= i < |ss| - 1 ==> FencedPair(ss[i], ss[i + 1])
    ensures FencedPair(ss[k], ss[n])
  {
    if k < n {
      FencedForever(ss, k, n - 1);
      assert FencedPair(ss[n - 1], ss[n - 1 + 1]);
    }
  }

  // ---- Which pair is published ----

  /** Event `i` publishes what its reload has built. */
  predicate PublishesAt(ss: seq<State>, es: seq<Event>, i: nat)
    requires |ss| == |es| + 1
  {
    i < |es| && es[i].Published? && !ss[i].r.routingClosed
  }

  /** The reload that published last before event `n`; 0 stands for the start of the server. */
  function LastPublisher(ss: seq<State>, es: seq<Event>, n: nat): Reload
    requires |ss| == |es| + 1 && n <= |es|
  {
    if n == 0 then 0 else if PublishesAt(ss, es, n - 1) then es[n - 1].reload else LastPublisher(ss, es, n - 1)
  }

  lemma StepPublishes(s: State, e: Event, s': State)
    requires Inv(s) && Next(s, e, s')
    ensures if e.Published? && !s.r.routingClosed then
        && s'.r.route.Some? && s'.r.route.value < |s'.builder| && s'.builder[s'.r.route.value] == e.reload
        && (s.r.doh ==> s'.r.bootstrap.Some? && s'.r.bootstrap.value < |s'.builder|
                        && s'.builder[s'.r.bootstrap.value] == e.reload)
      else
        && (s'.r.route.Some? ==> s'.r.route == s.r.route) && (s'.r.bootstrap.Some? ==> s'.r.bootstrap == s.r.bootstrap)
    ensures |s.builder| <= |s'.builder| && forall id :: 0 <= id < |s.builder| ==> s'.builder[id] == s.builder[id]
    ensures s'.r.doh == s.r.doh
  {
    if e.Published? && !s.r.routingClosed {
      PhaseObjects(s, e.reload);
    }
  }

  /** What readers see was built by the reload that published last: a publication takes effect whenever
      routing is open, and nothing else changes the routes but for shutdown taking them away. */
  lemma {:induction false} SeesLastPublished(ss: seq<State>, es: seq<Event>, n: nat)
    requires Run(ss, es) && n <= |es|
    ensures var s, last := ss[n], LastPublisher(ss, es, n);
      && (s.r.route.Some? ==> s.r.route.value < |s.builder| && s.builder[s.r.route.value] == last)
      && (s.r.bootstrap.Some? ==> s.r.bootstrap.value < |s.builder| && s.builder[s.r.bootstrap.value] == last)
  {
    RunInv(ss, es, n);
    if n > 0 {
      RunInv(ss, es, n - 1);
      SeesLastPublished(ss, es, n - 1);
      StepPublishes(ss[n - 1], es[n - 1], ss[n]);
    }
  }
}
