/** The runtime supervisor: passive health of proxy candidates, network epochs and the fatal signal.
    Every method of the class is one critical section and takes one step of `Next`; the lemmas
    speak of all sequences of such steps, in any order of calls and clock readings. */
module Supervision {
  import opened Sequences
  import opened Options
  import opened CandidateOrder

  type Key = string

  /** Times and durations are nanoseconds. */
  const SECOND := 1_000_000_000
  const LOCAL_FAILURE_THRESHOLD := 2
  const MAX_HEALTH_ENTRIES := 256
  const MAX_BACKOFF_LEVEL := 5
  const BASE_COOLDOWN := 2 * SECOND
  const MAX_COOLDOWN := 30 * SECOND
  const NETWORK_GAP_THRESHOLD := 5 * SECOND
  const CORRELATED_WINDOW := 3 * SECOND
  const CORRELATED_THRESHOLD := 8
  const EPOCH_COOLDOWN := 30 * SECOND
  const INTERNAL_WINDOW := 30 * SECOND
  const INTERNAL_FATAL_THRESHOLD := 3

  datatype Kind =
    | Success | ClientCancelled | DestinationFailure
    | ProxyDnsFailure | ProxyDialFailure | ProxyTlsFailure | ProxyProtocolFailure
    | RouteFailure | AuthExhausted | InternalFailure

  predicate Penalizes(k: Kind) {
    k.ProxyDnsFailure? || k.ProxyDialFailure? || k.ProxyTlsFailure? || k.ProxyProtocolFailure?
  }

  datatype Health = Health(failures: nat, backoffLevel: nat, coolingUntil: Option<int>, lastSequence: nat)

  datatype Window = NoWindow | Window(start: int, count: nat, proxies: set<Key>)

  /** `fatalCh` is the buffered channel of capacity one, `delivered` what was taken from it. */
  datatype State = State(
    closed: bool, health: map<Key, Health>, sequence: nat,
    networkEpoch: nat, lastNetworkEpoch: Option<int>, window: Window,
    internalStart: Option<int>, internalFailures: nat, fatalRequested: bool,
    fatalCh: seq<int>, delivered: seq<int>,
    progressSequence: nat, lastTick: Option<int>)

  const INIT := State(false, map[], 0, 0, None, NoWindow, None, 0, false, [], [], 0, None)

  datatype Event =
    | Recorded(kind: Kind, key: Key, now: int)
    | Ticked(now: int)
    | Ordered(candidates: seq<Candidate>, now: int)
    | ResetTransient
    | Closed
    | FatalReceived

  // ---- One entry ----

  function Doubled(d: int, times: nat): int {
    if times == 0 then d else 2 * Doubled(d, times - 1)
  }

  function Cooldown(level: int): int {
    if level <= 0 then 0
    else var d := Doubled(BASE_COOLDOWN, level - 1); if d > MAX_COOLDOWN then MAX_COOLDOWN else d
  }

  predicate Expired(h: Health, now: int) { h.coolingUntil.Some? && now >= h.coolingUntil.value }

  predicate Cooling(h: Health, now: int) { h.coolingUntil.Some? && now < h.coolingUntil.value }

  /** An entry after one more failure; a missing entry counts as one without failures. */
  function Failed(before: Option<Health>, now: int, sequence: nat): Health {
    var anew := before.None? || Expired(before.value, now);
    var failures := (if anew then 0 else before.value.failures) + 1;
    var level := if anew then 0 else before.value.backoffLevel;
    var cooling := if anew then None else before.value.coolingUntil;
    if failures < LOCAL_FAILURE_THRESHOLD then Health(failures, level, cooling, sequence)
    else
      var level' := if level < MAX_BACKOFF_LEVEL then level + 1 else level;
      Health(failures, level', Some(now + Cooldown(level')), sequence)
  }

  predicate EntryOk(h: Health) {
    && h.failures >= 1
    && h.backoffLevel == (if h.failures - 1 < 5 then h.failures - 1 else 5)
    && (h.coolingUntil.Some? <==> h.failures >= 2)
  }

  predicate HealthOk(m: map<Key, Health>) { forall k :: k in m ==> k != "" && EntryOk(m[k]) }

  lemma CooldownValues()
    ensures Cooldown(1) == 2 * SECOND && Cooldown(2) == 4 * SECOND && Cooldown(3) == 8 * SECOND
    ensures Cooldown(4) == 16 * SECOND && Cooldown(5) == 30 * SECOND
  {
    assert Doubled(BASE_COOLDOWN, 0) == 2 * SECOND;
    assert Doubled(BASE_COOLDOWN, 1) == 4 * SECOND;
    assert Doubled(BASE_COOLDOWN, 2) == 8 * SECOND;
    assert Doubled(BASE_COOLDOWN, 3) == 16 * SECOND;
    assert Doubled(BASE_COOLDOWN, 4) == 32 * SECOND;
  }

  // ---- One step ----

  predicate Oldest(m: map<Key, Health>, v: Key) {
    v in m && forall k :: k in m ==> m[v].lastSequence <= m[k].lastSequence
  }

  /** Room for `key`: a full table without it loses one oldest entry. */
  ghost predicate MakesRoom(m: map<Key, Health>, key: Key, m': map<Key, Health>) {
    if key in m || |m| < MAX_HEALTH_ENTRIES then m' == m
    else exists v :: Oldest(m, v) && m' == m - {v}
  }

  ghost predicate LocalFailure(s: State, key: Key, now: int, s': State) {
    if key == "" then s' == s
    else exists room ::
      && MakesRoom(s.health, key, room)
      && s' == s.(sequence := s.sequence + 1,
                  health := room[key := Failed(Find(room, key), now, s.sequence + 1)])
  }

  function Find(m: map<Key, Health>, key: Key): Option<Health> {
    if key in m then Some(m[key]) else None
  }

  function NewEpoch(s: State, now: int): State {
    s.(networkEpoch := s.networkEpoch + 1, lastNetworkEpoch := Some(now), health := map[], window := NoWindow)
  }

  predicate EpochAllowed(s: State, now: int) {
    s.lastNetworkEpoch.None? || now - s.lastNetworkEpoch.value >= EPOCH_COOLDOWN
  }

  predicate WindowRestarts(w: Window, now: int) { w.NoWindow? || now - w.start > CORRELATED_WINDOW }

  function WindowAfter(w: Window, key: Key, now: int): (r: Window)
    ensures r.Window?
  {
    if WindowRestarts(w, now) then Window(now, 1, {key})
    else Window(w.start, w.count + 1, w.proxies + {key})
  }

  function Correlate(s: State, key: Key, now: int): State {
    if key == "" || !EpochAllowed(s, now) then s
    else
      var w := WindowAfter(s.window, key, now);
      if w.count < CORRELATED_THRESHOLD || |w.proxies| < 2 then s.(window := w)
      else NewEpoch(s, now)
  }

  function Internal(s: State, now: int): State {
    var restart := s.internalStart.None? || now - s.internalStart.value > INTERNAL_WINDOW;
    var failures := (if restart then 0 else s.internalFailures) + 1;
    var s1 := s.(internalStart := if restart then Some(now) else s.internalStart, internalFailures := failures);
    if failures < INTERNAL_FATAL_THRESHOLD || s.fatalRequested then s1
    else s1.(fatalRequested := true, fatalCh := if s.fatalCh == [] then [now] else s.fatalCh)
  }

  /** The candidates whose entry `Order` looks up. */
  function Asked(cs: seq<Candidate>): set<Key> {
    if |cs| < 2 then {} else Explicit(cs)
  }

  function Explicit(cs: seq<Candidate>): set<Key> { set c | c in cs && !c.direct :: c.key }

  function WithoutExpired(m: map<Key, Health>, keys: set<Key>, now: int): map<Key, Health> {
    map k | k in m && !(k in keys && Expired(m[k], now)) :: m[k]
  }

  function CooledKeys(m: map<Key, Health>, now: int): set<Key> {
    set k | k in m && Cooling(m[k], now)
  }

  function Tick(s: State, now: int): State {
    var s1 := s.(progressSequence := s.progressSequence + 1);
    var s2 := if s.lastTick.Some? && now - s.lastTick.value > NETWORK_GAP_THRESHOLD then NewEpoch(s1, now) else s1;
    s2.(lastTick := Some(now))
  }

  ghost predicate Next(s: State, e: Event, s': State) {
    match e
    case Recorded(kind, key, now) =>
      if s.closed then s' == s
      else if kind.Success? then s' == s.(health := s.health - {key})
      else if Penalizes(kind) then exists s1 :: LocalFailure(s, key, now, s1) && s' == Correlate(s1, key, now)
      else if kind.InternalFailure? then s' == Internal(s, now)
      else s' == s
    case Ticked(now) => if s.closed then s' == s else s' == Tick(s, now)
    case Ordered(cs, now) => s' == s.(health := WithoutExpired(s.health, Asked(cs), now))
    case ResetTransient => s' == s.(health := map[], window := NoWindow)
    case Closed => s' == s.(closed := true)
    case FatalReceived =>
      if s.fatalCh == [] then s' == s
      else s' == s.(fatalCh := s.fatalCh[1..], delivered := s.delivered + [s.fatalCh[0]])
  }

  /** What every step keeps. */
  predicate Inv(s: State) {
    && TableOk(s.health)
    && |s.fatalCh| + |s.delivered| == (if s.fatalRequested then 1 else 0)
  }

  lemma FailedOk(before: Option<Health>, now: int, sequence: nat)
    requires before.Some? ==> EntryOk(before.value)
    ensures EntryOk(Failed(before, now, sequence))
  {
  }

  predicate TableOk(m: map<Key, Health>) { HealthOk(m) && |m| <= MAX_HEALTH_ENTRIES }

  lemma RoomKeeps(m: map<Key, Health>, key: Key, room: map<Key, Health>)
    requires TableOk(m) && MakesRoom(m, key, room)
    ensures TableOk(room) && (key in room || |room| < MAX_HEALTH_ENTRIES)
  {
    if key !in m && |m| >= MAX_HEALTH_ENTRIES {
      var v :| Oldest(m, v) && room == m - {v};
      assert room.Keys == m.Keys - {v};
      assert |room.Keys| == |room| && |m.Keys| == |m|;
    }
  }

  lemma PutKeeps(room: map<Key, Health>, key: Key, h: Health)
    requires TableOk(room) && (key in room || |room| < MAX_HEALTH_ENTRIES)
    requires EntryOk(h) && key != ""
    ensures TableOk(room[key := h])
  {
    var m := room[key := h];
    assert m.Keys == room.Keys + {key};
    assert |room.Keys| == |room| && |m.Keys| == |m|;
  }

  lemma LocalFailureKeeps(s: State, key: Key, now: int, s': State)
    requires TableOk(s.health) && LocalFailure(s, key, now, s')
    ensures TableOk(s'.health) && s' == s.(sequence := s'.sequence, health := s'.health)
  {
    if key != "" {
      var room :| MakesRoom(s.health, key, room)
        && s' == s.(sequence := s.sequence + 1, health := room[key := Failed(Find(room, key), now, s.sequence + 1)]);
      RoomKeeps(s.health, key, room);
      FailedOk(Find(room, key), now, s.sequence + 1);
      PutKeeps(room, key, Failed(Find(room, key), now, s.sequence + 1));
    }
  }

  lemma SubtableOk(m: map<Key, Health>, m': map<Key, Health>)
    requires TableOk(m) && m'.Keys <= m.Keys && forall k :: k in m' ==> m'[k] == m[k]
    ensures TableOk(m')
  {
    Smaller(m, m');
  }

  lemma CorrelateKeeps(s: State, key: Key, now: int)
    requires Inv(s)
    ensures Inv(Correlate(s, key, now))
  {
  }

  lemma {:induction false} StepKeeps(s: State, e: Event, s': State)
    requires Inv(s) && Next(s, e, s')
    ensures Inv(s')
  {
    match e
    case Recorded(kind, key, now) =>
      if !s.closed && Penalizes(kind) {
        var s1 :| LocalFailure(s, key, now, s1) && s' == Correlate(s1, key, now);
        LocalFailureKeeps(s, key, now, s1);
        CorrelateKeeps(s1, key, now);
      } else if !s.closed && kind.Success? {
        SubtableOk(s.health, s'.health);
      }
    case Ordered(cs, now) => SubtableOk(s.health, s'.health);
    case _ =>
  }

  lemma Smaller(m: map<Key, Health>, m': map<Key, Health>)
    requires m'.Keys <= m.Keys
    ensures |m'| <= |m|
  {
    CardinalitySubset(m'.Keys, m.Keys);
    assert |m'.Keys| == |m'| && |m.Keys| == |m|;
  }

  lemma {:induction false} CardinalitySubset<T>(a: set<T>, b: set<T>)
    requires a <= b
    ensures |a| <= |b|
  {
    assert b == a + (b - a);
  }

  // ---- The supervisor object ----

  class Supervisor {
    var closed: bool
    var health: map<Key, Health>
    var sequence: nat
    var networkEpoch: nat
    var lastNetworkEpoch: Option<int>
    var window: Window
    var internalStart: Option<int>
    var internalFailures: nat
    var fatalRequested: bool
    var fatalCh: seq<int>
    var delivered: seq<int>
    var progressSequence: nat
    var lastTick: Option<int>

    ghost function Abs(): State
      reads this
    {
      State(closed, health, sequence, networkEpoch, lastNetworkEpoch, window, internalStart, internalFailures,
            fatalRequested, fatalCh, delivered, progressSequence, lastTick)
    }

    ghost predicate Valid()
      reads this
    {
      Inv(Abs())
    }

    constructor ()
      ensures Valid() && Abs() == INIT
    {
      closed, health, sequence, networkEpoch, lastNetworkEpoch := false, map[], 0, 0, None;
      window, internalStart, internalFailures, fatalRequested := NoWindow, None, 0, false;
      fatalCh, delivered, progressSequence, lastTick := [], [], 0, None;
    }

    /** Deletes one entry with the least sequence number, found by a scan in any order. */
    method EvictOldest()
      requires health != map[]
      modifies this`health
      ensures exists v :: Oldest(old(health), v) && health == old(health) - {v}
    {
      var oldestKey: Key, oldestSeq, have := "", 0, false;
      var rest := health.Keys;
      while rest != {}
        invariant rest <= health.Keys
        invariant !have ==> rest == health.Keys
        invariant have ==> oldestKey in health && health[oldestKey].lastSequence == oldestSeq
        invariant have ==> forall k :: k in health && k !in rest ==> oldestSeq <= health[k].lastSequence
        decreases rest
      {
        var key :| key in rest;
        if !have || health[key].lastSequence < oldestSeq {
          oldestKey, oldestSeq, have := key, health[key].lastSequence, true;
        }
        rest := rest - {key};
      }
      if have {
        assert Oldest(health, oldestKey);
        health := health - {oldestKey};
      } else {
        assert false;
      }
    }

    /** One more failure of a candidate; reports whether it now enters cooldown. */
    method RecordLocalFailure(now: int, key: Key) returns (enteredCooling: bool)
      requires HealthOk(health)
      modifies this`health, this`sequence
      ensures LocalFailure(old(Abs()), key, now, Abs())
      ensures enteredCooling <==> key != "" && Failed(Find(old(health), key), now, 0).failures == 2
    {
      if key == "" {
        return false;
      }
      var state := Health(0, 0, None, 0);
      if key !in health {
        if |health| >= MAX_HEALTH_ENTRIES {
          EvictOldest();
        }
      } else {
        state := health[key];
      }
      ghost var room := health;
      assert MakesRoom(old(health), key, room);
      sequence := sequence + 1;
      state := state.(lastSequence := sequence);
      if state.coolingUntil.Some? && now >= state.coolingUntil.value {
        state := state.(failures := 0, backoffLevel := 0, coolingUntil := None);
      }
      state := state.(failures := state.failures + 1);
      enteredCooling := false;
      if state.failures >= LOCAL_FAILURE_THRESHOLD {
        enteredCooling := state.coolingUntil.None?;
        if state.backoffLevel < MAX_BACKOFF_LEVEL {
          state := state.(backoffLevel := state.backoffLevel + 1);
        }
        state := state.(coolingUntil := Some(now + Cooldown(state.backoffLevel)));
      }
      assert state == Failed(Find(room, key), now, sequence);
      health := health[key := state];
    }

    method StartNetworkEpoch(now: int)
      modifies this
      ensures Abs() == NewEpoch(old(Abs()), now)
    {
      networkEpoch, lastNetworkEpoch := networkEpoch + 1, Some(now);
      health, window := map[], NoWindow;
    }

    method ObserveCorrelatedFailure(now: int, key: Key) returns (epoch: bool)
      modifies this
      ensures Abs() == Correlate(old(Abs()), key, now)
      ensures epoch <==> networkEpoch != old(networkEpoch)
    {
      if key == "" {
        return false;
      }
      if lastNetworkEpoch.Some? && now - lastNetworkEpoch.value < EPOCH_COOLDOWN {
        return false;
      }
      if window.NoWindow? || now - window.start > CORRELATED_WINDOW {
        window := Window(now, 0, {});
      }
      window := window.(count := window.count + 1, proxies := window.proxies + {key});
      if window.count < CORRELATED_THRESHOLD || |window.proxies| < 2 {
        return false;
      }
      StartNetworkEpoch(now);
      return true;
    }

    method RecordInternalFailure(now: int)
      modifies this
      ensures Abs() == Internal(old(Abs()), now)
    {
      if internalStart.None? || now - internalStart.value > INTERNAL_WINDOW {
        internalStart, internalFailures := Some(now), 0;
      }
      internalFailures := internalFailures + 1;
      if internalFailures < INTERNAL_FATAL_THRESHOLD || fatalRequested {
        return;
      }
      fatalRequested := true;
      if fatalCh == [] {
        fatalCh := [now];
      }
    }

    /** `record`: one step of a run; closed supervisors ignore outcomes. Idle transports are to be
        closed exactly on the failure that starts a cooldown. */
    method Record(kind: Kind, key: Key, now: int) returns (triggerIdle: bool, epoch: bool)
      requires Valid()
      modifies this
      ensures Valid() && Next(old(Abs()), Recorded(kind, key, now), Abs())
      ensures triggerIdle <==>
        (!old(closed) && Penalizes(kind) && key != "" && Failed(Find(old(health), key), now, 0).failures == 2)
      ensures epoch <==> networkEpoch != old(networkEpoch)
    {
      triggerIdle, epoch := false, false;
      if closed {
        return;
      }
      if kind.Success? {
        if key != "" {
          health := health - {key};
        }
        assert health == old(health) - {key};
      } else if Penalizes(kind) {
        triggerIdle := RecordLocalFailure(now, key);
        ghost var s1 := Abs();
        epoch := ObserveCorrelatedFailure(now, key);
        assert LocalFailure(old(Abs()), key, now, s1) && Abs() == Correlate(s1, key, now);
      } else if kind.InternalFailure? {
        RecordInternalFailure(now);
      }
      StepKeeps(old(Abs()), Recorded(kind, key, now), Abs());
    }

    method Tick(now: int) returns (epoch: bool)
      requires Valid()
      modifies this
      ensures Valid() && Next(old(Abs()), Ticked(now), Abs())
      ensures epoch <==> networkEpoch != old(networkEpoch)
    {
      epoch := false;
      if closed {
        return;
      }
      progressSequence := progressSequence + 1;
      if lastTick.Some? && now - lastTick.value > NETWORK_GAP_THRESHOLD {
        StartNetworkEpoch(now);
        epoch := true;
      }
      lastTick := Some(now);
    }

    method Close()
      requires Valid()
      modifies this
      ensures Valid() && Next(old(Abs()), Closed, Abs())
    {
      closed := true;
    }

    method Reset()
      requires Valid()
      modifies this
      ensures Valid() && Next(old(Abs()), ResetTransient, Abs())
    {
      health, window := map[], NoWindow;
    }

    /** Whether a candidate is in cooldown; an expired entry is deleted on the way. */
    method CandidateCooled(now: int, key: Key) returns (cooled: bool)
      modifies this`health
      ensures cooled <==> key in CooledKeys(old(health), now)
      ensures health == WithoutExpired(old(health), {key}, now)
    {
      if key !in health || health[key].coolingUntil.None? {
        return false;
      }
      if now < health[key].coolingUntil.value {
        return true;
      }
      health := health - {key};
      return false;
    }

    /** The first loop of `Order`: the candidates that are not DIRECT, split by cooldown. */
    method Partition(cs: seq<Candidate>, now: int, ghost f: Candidate -> Standing)
      returns (healthy: seq<Candidate>, cooled: seq<Candidate>)
      requires f == CandidateStanding(CooledKeys(health, now))
      modifies this`health
      ensures healthy == Select(cs, f, Healthy) && cooled == Select(cs, f, Cooled)
      ensures health == WithoutExpired(old(health), Explicit(cs), now)
    {
      healthy, cooled := [], [];
      assert Explicit(cs[..0]) == {};
      for i := 0 to |cs|
        invariant health == WithoutExpired(old(health), Explicit(cs[..i]), now)
        invariant healthy == Select(cs[..i], f, Healthy) && cooled == Select(cs[..i], f, Cooled)
      {
        var c := cs[i];
        assert cs[..i + 1] == cs[..i] + [c];
        SelectConcat(cs[..i], c, f, Healthy);
        SelectConcat(cs[..i], c, f, Cooled);
        ExplicitConcat(cs[..i], c);
        if !c.direct {
          AskedTwice(old(health), Explicit(cs[..i]), c.key, now);
          var cools := CandidateCooled(now, c.key);
          if cools {
            cooled := cooled + [c];
          } else {
            healthy := healthy + [c];
          }
        }
      }
      assert cs[..|cs|] == cs;
    }

    /** `Order`: the candidates rearranged by the cooldowns of this moment. */
    method Order(authoritative: seq<Candidate>, now: int) returns (out: seq<Candidate>)
      requires Valid()
      modifies this
      ensures Valid() && Next(old(Abs()), Ordered(authoritative, now), Abs())
      ensures out == Arrange(authoritative, CandidateStanding(CooledKeys(old(health), now)))
      ensures CooledLast(authoritative, (c: Candidate) => c.direct, Cools(old(health), now), out)
    {
      ghost var f := CandidateStanding(CooledKeys(health, now));
      ArrangeCooledLast(authoritative, f, (c: Candidate) => c.direct, Cools(health, now));
      if |authoritative| < 2 {
        ShortList(authoritative, f);
        assert health == WithoutExpired(health, {}, now);
        return authoritative;
      }
      var healthy, cooled := Partition(authoritative, now, f);
      StepKeeps(old(Abs()), Ordered(authoritative, now), Abs());
      if |healthy| == 0 || |cooled| == 0 {
        ArrangeUnchanged(authoritative, f);
        return authoritative;
      }
      OthersCount(authoritative, f);
      out := FillSlotsInOrder(authoritative, f, healthy + cooled);
    }
  }

  /** A candidate whose entry says that it is in cooldown. */
  function Cools(m: map<Key, Health>, now: int): Candidate -> bool {
    (c: Candidate) => c.key in m && Cooling(m[c.key], now)
  }

  function ServerCools(m: map<Key, Health>, now: int): Server -> bool {
    (s: Server) => KeyOf(s) in m && Cooling(m[KeyOf(s)], now)
  }

  lemma ServerStands(m: map<Key, Health>, now: int, s: Server)
    ensures ServerStanding(CooledKeys(m, now))(s) == StandsAs(s == DIRECT, ServerCools(m, now)(s))
  {
    var c := CandidateOf(s);
    assert ServerStanding(CooledKeys(m, now))(s) == CandidateStanding(CooledKeys(m, now))(c);
    assert c.key in CooledKeys(m, now) <==> ServerCools(m, now)(s);
    assert c.direct <==> s == DIRECT;
  }

  lemma ExplicitConcat(cs: seq<Candidate>, c: Candidate)
    ensures Explicit(cs + [c]) == Explicit(cs) + if c.direct then {} else {c.key}
  {
  }

  lemma SelectConcat<T>(xs: seq<T>, x: T, f: T -> Standing, c: Standing)
    ensures Select(xs + [x], f, c) == Select(xs, f, c) + if f(x) == c then [x] else []
  {
    if xs == [] {
      ConcatEmpty([x]);
    } else {
      ConcatTail(xs, [x]);
      SelectConcat(xs[1..], x, f, c);
      ConcatAssoc(if f(xs[0]) == c then [xs[0]] else [], Select(xs[1..], f, c), if f(x) == c then [x] else []);
    }
  }

  lemma AskedTwice(m: map<Key, Health>, asked: set<Key>, key: Key, now: int)
    ensures WithoutExpired(WithoutExpired(m, asked, now), {key}, now) == WithoutExpired(m, asked + {key}, now)
    ensures CooledKeys(WithoutExpired(m, asked, now), now) == CooledKeys(m, now)
  {
  }

  lemma FillNext<T>(front: seq<T>, rest: seq<T>, f: T -> Standing, queue: seq<T>)
    requires rest != [] && |queue| == Others(rest, f)
    ensures f(rest[0]) == Direct ==> front + Fill(rest, f, queue) == (front + [rest[0]]) + Fill(rest[1..], f, queue)
    ensures f(rest[0]) != Direct ==>
      |queue| > 0 && front + Fill(rest, f, queue) == (front + [queue[0]]) + Fill(rest[1..], f, queue[1..])
  {
  }

  /** The last loop of `Order`. */
  method FillSlotsInOrder(authoritative: seq<Candidate>, ghost f: Candidate -> Standing, reordered: seq<Candidate>)
    returns (out: seq<Candidate>)
    requires |reordered| == Others(authoritative, f)
    requires forall c: Candidate :: f(c) == Direct <==> c.direct
    ensures out == Fill(authoritative, f, reordered)
  {
    out := authoritative;
    var index := 0;
    for i := 0 to |authoritative|
      invariant |out| == |authoritative| && out[i..] == authoritative[i..]
      invariant index <= |reordered| && |reordered[index..]| == Others(authoritative[i..], f)
      invariant out[..i] + Fill(authoritative[i..], f, reordered[index..]) == Fill(authoritative, f, reordered)
    {
      ghost var front, rest, queue := out[..i], authoritative[i..], reordered[index..];
      FillNext(front, rest, f, queue);
      assert rest[0] == out[i..][0] == out[i] && rest[1..] == authoritative[i + 1..];
      if !out[i].direct {
        assert queue[0] == reordered[index] && queue[1..] == reordered[index + 1..];
        out := out[i := reordered[index]];
        index := index + 1;
      }
      assert out[..i + 1] == front + [out[i]];
    }
    assert out[..|out|] == out;
  }

  /** `orderProxyCandidates` with the supervisor it asks, if there is one: the stable arrangement
      of the authoritative servers themselves, whatever keys they share. */
  method OrderProxyCandidates(sup: Supervisor?, authoritative: seq<Server>, now: int) returns (result: seq<Server>)
    requires sup != null ==> sup.Valid()
    modifies sup
    ensures sup == null ==> result == authoritative
    ensures sup != null ==> sup.Valid()
    ensures sup != null ==> result == Arrange(authoritative, ServerStanding(CooledKeys(old(sup.health), now)))
    ensures sup != null ==>
      CooledLast(authoritative, (s: Server) => s == DIRECT, ServerCools(old(sup.health), now), result)
  {
    if sup == null {
      return authoritative;
    }
    ghost var cooled := CooledKeys(sup.health, now);
    forall s: Server ensures ServerStanding(cooled)(s) == StandsAs(s == DIRECT, ServerCools(sup.health, now)(s)) {
      ServerStands(sup.health, now, s);
    }
    ArrangeCooledLast(
      authoritative, ServerStanding(cooled), (s: Server) => s == DIRECT, ServerCools(sup.health, now));
    if |authoritative| < 2 {
      ShortList(authoritative, ServerStanding(cooled));
      return authoritative;
    }
    var candidates := Map(authoritative, CandidateOf);
    var byKey := GroupByKey(authoritative, KeyOf);
    var ordered := sup.Order(candidates, now);
    var keys := Map(ordered, (c: Candidate) => c.key);
    OrderedKeys(authoritative, cooled, keys);
    result := TakeByKey(keys, byKey, KeyOf, Arrange(authoritative, ServerStanding(cooled)));
  }
}
