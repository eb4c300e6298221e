/** The candidate loop of an HTTP request and the 407 retry loop it hands its pool lock to. Both
    loops run against arbitrary answers of the network and the credential providers and keep a log
    of what they do with locks, `authenticated` flags, responses, the auth session and the pinned
    transport; the log is judged by a small automaton. */
module UpstreamAuth {
  import opened Options

  /** Pool entries and responses are pointers in the program, and numbers here. */
  type Entry = nat
  type Response = nat

  datatype Event =
    | Lock(e: Entry)
    | Unlock(e: Entry)
    | ReadFlag(e: Entry, authenticated: bool)
    | WriteFlag(e: Entry, authenticated: bool)
    | Removed(e: Entry)
    | Got(r: Response, is407: bool)
    | CloseBody(r: Response)
    | Round
    | OpenSession
    | CloseSession
    | PinTransport
    | ReleasePinned
    | AttachPinned(r: Response)

  // ---- The automaton ----

  datatype Session = NoSession | SessionOpen | SessionClosed
  datatype Pinned = NotPinned | Live | Attached(r: Response) | Released

  /** `ok` is lost for good at the first step that breaks the discipline. `flag` is the flag of the
      entry held as last read or written, `refused` whether the last response since its lock was
      taken was a 407. */
  datatype Status = Status(
    ok: bool, held: Option<Entry>, flag: Option<bool>, refused: Option<bool>,
    received: nat, open: set<Response>, session: Session, pinned: Pinned, rounds: nat)

  const START := Status(true, None, None, None, 0, {}, NoSession, NotPinned, 0)

  /** An entry whose connection was just refused does not pass for authenticated. */
  predicate Honest(s: Status) { !(s.flag == Some(true) && s.refused == Some(true)) }

  function Step(s: Status, e: Event): Status {
    match e
    case Lock(x) => s.(ok := s.ok && s.held.None?, held := Some(x), flag := None, refused := None)
    case Unlock(x) => s.(ok := s.ok && s.held == Some(x) && Honest(s), held := None, flag := None, refused := None)
    case ReadFlag(x, b) => s.(ok := s.ok && s.held == Some(x), flag := Some(b))
    case WriteFlag(x, b) =>
      s.(ok := s.ok && s.held == Some(x) && (b ==> s.refused == Some(false)), flag := Some(b))
    case Removed(_) => s
    case Got(r, is407) =>
      s.(ok := s.ok && r == s.received, received := s.received + 1, open := s.open + {r}, refused := Some(is407))
    case CloseBody(r) => s.(ok := s.ok && r in s.open, open := s.open - {r})
    case Round => s.(rounds := s.rounds + 1)
    case OpenSession => s.(ok := s.ok && s.session.NoSession?, session := SessionOpen)
    case CloseSession => s.(ok := s.ok && s.session.SessionOpen?, session := SessionClosed)
    case PinTransport => s.(ok := s.ok && s.pinned.NotPinned?, pinned := Live)
    case ReleasePinned => s.(ok := s.ok && !s.pinned.NotPinned?, pinned := Released)
    case AttachPinned(r) => s.(ok := s.ok && s.pinned.Live? && r in s.open, pinned := Attached(r))
  }

  function Judge(log: seq<Event>): Status {
    if log == [] then START else Step(Judge(log[..|log| - 1]), log[|log| - 1])
  }

  /** What the log says of the entry locked last: whether it was dropped from the pool since, and
      what its flag was last read or written as. */
  datatype Fate = Fate(entry: Option<Entry>, dropped: bool, said: Option<bool>)

  const NO_ENTRY := Fate(None, false, None)

  function FateStep(f: Fate, e: Event): Fate {
    match e
    case Lock(x) => Fate(Some(x), false, None)
    case ReadFlag(x, b) => if f.entry == Some(x) then f.(said := Some(b)) else f
    case WriteFlag(x, b) => if f.entry == Some(x) then f.(said := Some(b)) else f
    case Removed(x) => if f.entry == Some(x) then f.(dropped := true) else f
    case _ => f
  }

  function FateIn(log: seq<Event>): Fate {
    if log == [] then NO_ENTRY else FateStep(FateIn(log[..|log| - 1]), log[|log| - 1])
  }

  /** The entry stayed in the pool, and the next request finds its connection authenticated. */
  predicate Kept(f: Fate, e: Entry) { f == Fate(Some(e), false, Some(true)) }

  predicate Dropped(f: Fate, e: Entry) { f.entry == Some(e) && f.dropped }

  /** A log with its verdict so far. */
  datatype Record = Record(log: seq<Event>, w: Status, f: Fate)
  type Trace = t: Record | t.w == Judge(t.log) && t.f == FateIn(t.log) witness Record([], START, NO_ENTRY)

  function Emit(t: Trace, e: Event): (r: Trace)
    ensures r.w == Step(t.w, e) && r.f == FateStep(t.f, e) && r.log == t.log + [e]
  {
    var log := t.log + [e];
    assert log[..|log| - 1] == t.log;
    Record(log, Step(t.w, e), FateStep(t.f, e))
  }

  // ---- What the automaton's verdict means ----

  /** How often an event is in the log. */
  function Count(log: seq<Event>, e: Event): nat {
    if log == [] then 0 else Count(log[..|log| - 1], e) + if log[|log| - 1] == e then 1 else 0
  }

  /** Every lock taken was released exactly once, but for the one still held. */
  lemma {:induction false} LocksBalance(log: seq<Event>, e: Entry)
    requires Judge(log).ok
    ensures Count(log, Lock(e)) == Count(log, Unlock(e)) + if Judge(log).held == Some(e) then 1 else 0
  {
    if log != [] {
      LocksBalance(log[..|log| - 1], e);
    }
  }

  /** The lock of `e` was taken at `j` and neither released nor any other taken before `n`. */
  predicate HeldSince(log: seq<Event>, n: nat, e: Entry, j: nat) {
    j < n <= |log| && log[j] == Lock(e) && forall k :: j < k < n ==> !log[k].Lock? && !log[k].Unlock?
  }

  lemma {:induction false} HeldMeans(log: seq<Event>, e: Entry) returns (j: nat)
    requires Judge(log).ok && Judge(log).held == Some(e)
    ensures HeldSince(log, |log|, e, j)
  {
    var n := |log| - 1;
    var front := log[..n];
    if log[n] == Lock(e) {
      j := n;
    } else {
      j := HeldMeans(front, e);
      assert front[j] == log[j];
      forall k | j < k < n ensures !log[k].Lock? && !log[k].Unlock? {
        assert front[k] == log[k];
      }
    }
  }

  lemma {:induction false} PrefixOk(log: seq<Event>, n: nat)
    requires Judge(log).ok && n <= |log|
    ensures Judge(log[..n]).ok
  {
    if n < |log| {
      var front := log[..|log| - 1];
      PrefixOk(front, n);
      assert front[..n] == log[..n];
    } else {
      assert log[..n] == log;
    }
  }

  /** A flag is read or written, and a lock released, only while that entry's lock is held. */
  lemma {:induction false} FlagsUnderLock(log: seq<Event>, n: nat) returns (j: nat)
    requires Judge(log).ok && n < |log| && NeedsLock(log[n])
    ensures HeldSince(log, n, log[n].e, j)
  {
    PrefixOk(log, n + 1);
    var upTo := log[..n + 1];
    assert upTo[..|upTo| - 1] == log[..n];
    PrefixOk(log, n);
    j := HeldMeans(log[..n], log[n].e);
    HeldInPrefix(log, n, log[n].e, j);
  }

  predicate NeedsLock(e: Event) { e.ReadFlag? || e.WriteFlag? || e.Unlock? }

  lemma HeldInPrefix(log: seq<Event>, n: nat, e: Entry, j: nat)
    requires n <= |log|
    ensures HeldSince(log[..n], n, e, j) <==> HeldSince(log, n, e, j)
  {
    var front := log[..n];
    assert forall k :: 0 <= k < n ==> front[k] == log[k];
    if HeldSince(log, n, e, j) {
      assert front[j] == log[j];
      forall k | j < k < n ensures !front[k].Lock? && !front[k].Unlock? {
        assert front[k] == log[k];
      }
    }
    if HeldSince(front, n, e, j) {
      forall k | j < k < n ensures !log[k].Lock? && !log[k].Unlock? {
        assert front[k] == log[k];
      }
    }
  }

  lemma {:induction false} HeldSinceHolds(log: seq<Event>, n: nat, e: Entry, j: nat)
    requires HeldSince(log, n, e, j)
    ensures Judge(log[..n]).held == Some(e)
  {
    var upTo := log[..n];
    assert upTo[..n - 1] == log[..n - 1] && upTo[n - 1] == log[n - 1];
    if j < n - 1 {
      HeldSinceHolds(log, n - 1, e, j);
    }
  }

  /** No lock is taken while another is held. */
  lemma {:induction false} NeverTwoLocks(log: seq<Event>, n: nat, e: Entry, j: nat)
    requires Judge(log).ok && n < |log| && log[n].Lock?
    ensures !HeldSince(log, n, e, j)
  {
    if HeldSince(log, n, e, j) {
      PrefixOk(log, n + 1);
      var upTo := log[..n + 1];
      assert upTo[..|upTo| - 1] == log[..n];
      HeldSinceHolds(log, n, e, j);
    }
  }

  /** The last response before `n`, received since the lock of `e` was taken at `j`, is at `k`. */
  predicate LastResponse(log: seq<Event>, n: nat, j: nat, k: nat) {
    j < k < n <= |log| && log[k].Got? && forall i :: k < i < n ==> !log[i].Got?
  }

  lemma {:induction false} RefusedMeans(log: seq<Event>, e: Entry, b: bool) returns (j: nat, k: nat)
    requires Judge(log).ok && Judge(log).held == Some(e) && Judge(log).refused == Some(b)
    ensures HeldSince(log, |log|, e, j) && LastResponse(log, |log|, j, k) && log[k].is407 == b
  {
    var n := |log| - 1;
    var front := log[..n];
    if log[n].Got? {
      j := HeldMeans(front, e);
      k := n;
      HeldInPrefix(log, n, e, j);
    } else {
      j, k := RefusedMeans(front, e, b);
      HeldInPrefix(log, n, e, j);
      assert front[k] == log[k];
      forall i | k < i < n ensures !log[i].Got? {
        assert front[i] == log[i];
      }
    }
  }

  /** A flag is set only under the lock and only after a response, the last since the lock was
      taken, that was not a 407. */
  lemma {:induction false} FlagsAreEarned(log: seq<Event>, n: nat) returns (j: nat, k: nat)
    requires Judge(log).ok && n < |log| && log[n].WriteFlag? && log[n].authenticated
    ensures HeldSince(log, n, log[n].e, j) && LastResponse(log, n, j, k) && !log[k].is407
  {
    PrefixOk(log, n + 1);
    var upTo := log[..n + 1];
    assert upTo[..|upTo| - 1] == log[..n];
    PrefixOk(log, n);
    j, k := RefusedMeans(log[..n], log[n].e, false);
    HeldInPrefix(log, n, log[n].e, j);
    assert log[..n][k] == log[k];
    forall i | k < i < n ensures !log[i].Got? {
      assert log[..n][i] == log[i];
    }
  }

  predicate SaysFlag(e: Event) { e.ReadFlag? || e.WriteFlag? }

  /** The last reading or writing of a flag before `n`, since the lock was taken at `j`, is at `f`. */
  predicate LastFlag(log: seq<Event>, n: nat, j: nat, f: nat) {
    j < f < n <= |log| && SaysFlag(log[f]) && forall i :: f < i < n ==> !SaysFlag(log[i])
  }

  lemma {:induction false} FlagIsLast(log: seq<Event>, n: nat, e: Entry, j: nat, f: nat)
    requires HeldSince(log, n, e, j) && LastFlag(log, n, j, f)
    ensures Judge(log[..n]).flag == Some(log[f].authenticated)
  {
    var upTo := log[..n];
    assert upTo[..n - 1] == log[..n - 1] && upTo[n - 1] == log[n - 1];
    if f < n - 1 {
      FlagIsLast(log, n - 1, e, j, f);
    }
  }

  lemma {:induction false} RefusalIsLast(log: seq<Event>, n: nat, e: Entry, j: nat, k: nat)
    requires HeldSince(log, n, e, j) && LastResponse(log, n, j, k)
    ensures Judge(log[..n]).refused == Some(log[k].is407)
  {
    var upTo := log[..n];
    assert upTo[..n - 1] == log[..n - 1] && upTo[n - 1] == log[n - 1];
    if k < n - 1 {
      RefusalIsLast(log, n - 1, e, j, k);
    }
  }

  /** No lock is released with the flag set after a 407: whenever the last response since the lock
      was taken is a 407, the flag was last said to be unset. */
  lemma {:induction false} NotLeftSet(log: seq<Event>, n: nat, j: nat, k: nat, f: nat)
    requires Judge(log).ok && n < |log| && log[n].Unlock? && HeldSince(log, n, log[n].e, j)
    requires LastResponse(log, n, j, k) && log[k].is407 && LastFlag(log, n, j, f)
    ensures !log[f].authenticated
  {
    PrefixOk(log, n + 1);
    var upTo := log[..n + 1];
    assert upTo[..|upTo| - 1] == log[..n];
    FlagIsLast(log, n, log[n].e, j, f);
    RefusalIsLast(log, n, log[n].e, j, k);
  }

  /** A response that is not open was closed, and the body of none was closed twice. */
  lemma {:induction false} ResponsesConserved(log: seq<Event>, r: Response)
    requires Judge(log).ok
    ensures r < Judge(log).received ==> Count(log, CloseBody(r)) == if r in Judge(log).open then 0 else 1
    ensures r >= Judge(log).received ==> Count(log, CloseBody(r)) == 0 && r !in Judge(log).open
  {
    if log != [] {
      ResponsesConserved(log[..|log| - 1], r);
    }
  }

  /** There is at most one auth session and it is closed at most once; at most one connection is
      pinned. */
  lemma {:induction false} SessionOnce(log: seq<Event>)
    requires Judge(log).ok
    ensures Count(log, OpenSession) == if Judge(log).session.NoSession? then 0 else 1
    ensures Count(log, CloseSession) == if Judge(log).session.SessionClosed? then 1 else 0
    ensures Count(log, PinTransport) == if Judge(log).pinned.NotPinned? then 0 else 1
  {
    if log != [] {
      SessionOnce(log[..|log| - 1]);
    }
  }

  // ---- The retry loop ----

  /** What reading a body meets: the bytes there are, and whether it breaks after them. */
  datatype BodyRead = BodyRead(length: nat, breaks: bool)

  const MAX_407_BODY := 64 * 1024

  /** What one round of the retry loop meets. `stale` is the body of the 407 it answers, `acquired`
      the entry the pool gives for the new scheme, and `flag` its flag once locked. */
  datatype Answer = Answer(
    connectionAuth: bool, schemeKept: bool, acquired: Entry, flag: bool,
    stale: BodyRead, requestOk: bool, tripOk: bool, again407: bool,
    sessionStarts: bool, authFails: bool, credentials: bool)

  /** The local variables of the retry loop: the response in hand and its status, the entry in use,
      the entry locked, whether a session and a pinned transport exist. */
  datatype Vars = Vars(
    t: Trace, resp: Response, is407: bool, active: Option<Entry>, locked: Option<Entry>, session: bool, pinned: bool)

  datatype Return = Return(resp: Option<Response>, err: bool)

  const FAILED := Return(None, true)

  // ---- What comes of a 407, told from the answers alone ----

  /** What the retry loop is given: the pool entry the 407 came through, whether the request has a
      reusable identity, and what each round meets. */
  datatype Retrying = Retrying(pooled: Option<Entry>, usePool: bool, answers: nat -> Answer)

  /** The stale 407 is drained and the request, sent once more, gets a response. */
  predicate Sent(a: Answer) { a.stale.length <= MAX_407_BODY && !a.stale.breaks && a.requestOk && a.tripOk }

  /** The stale 407 is drained, but the request cannot be built again. */
  predicate NotBuilt(a: Answer) { a.stale.length <= MAX_407_BODY && !a.stale.breaks && !a.requestOk }

  /** The 407 asks for connection authentication in a scheme that the entry in use does not serve. */
  predicate NeedsOther(entry: Option<Entry>, a: Answer) { a.connectionAuth && (entry.None? || !a.schemeKept) }

  /** The pool entry in use before round `i`. */
  function EntryBefore(q: Retrying, i: nat): Option<Entry> {
    if i == 0 then q.pooled
    else if NeedsOther(EntryBefore(q, i - 1), q.answers(i - 1)) then
      if q.usePool then Some(q.answers(i - 1).acquired) else None
    else EntryBefore(q, i - 1)
  }

  /** Round `i` replays the request on a connection that is new to it and authenticated already. */
  predicate Replays(q: Retrying, i: nat) {
    NeedsOther(EntryBefore(q, i), q.answers(i)) && q.usePool && q.answers(i).flag
  }

  /** Round `i` sends the request once more: as a replay, or with credentials. */
  predicate TriesAgain(q: Retrying, i: nat) {
    Replays(q, i) || (!q.answers(i).authFails && q.answers(i).credentials)
  }

  /** Round `i` is answered with another 407. */
  predicate Refused(q: Retrying, i: nat) { TriesAgain(q, i) && Sent(q.answers(i)) && q.answers(i).again407 }

  predicate RefusedFirst(q: Retrying, n: nat) { forall i: nat :: i < n ==> Refused(q, i) }

  /** Round `k` is the first that is not answered with another 407; 3 if there is none. */
  predicate LastRound(q: Retrying, k: nat) {
    k <= 3 && RefusedFirst(q, k) && (k < 3 ==> !Refused(q, k))
  }

  lemma {:induction false} SomeRoundIsLast(q: Retrying, i: nat) returns (k: nat)
    requires i <= 3 && RefusedFirst(q, i)
    ensures LastRound(q, k)
    decreases 3 - i
  {
    if i < 3 && Refused(q, i) {
      k := SomeRoundIsLast(q, i + 1);
    } else {
      k := i;
    }
  }

  lemma OneRoundIsLast(q: Retrying, k: nat)
    requires LastRound(q, k)
    ensures forall j: nat :: LastRound(q, j) ==> j == k
  {
    forall j: nat | LastRound(q, j) ensures j == k {
      assert j < k ==> Refused(q, j);
      assert k < j ==> Refused(q, k);
    }
  }

  /** An auth session is opened in one of the first `n` rounds. */
  predicate OpensSession(q: Retrying, n: nat) {
    n > 0 && (OpensSession(q, n - 1) || (!Replays(q, n - 1) && q.answers(n - 1).sessionStarts))
  }

  /** A connection is pinned in one of the first `n` rounds, for want of a reusable identity. */
  predicate Pins(q: Retrying, n: nat) {
    n > 0 && (Pins(q, n - 1) || (NeedsOther(EntryBefore(q, n - 1), q.answers(n - 1)) && !q.usePool))
  }

  /** How many rounds there are when `k` is the last. */
  function Rounds(k: nat): nat { if k < 3 then k + 1 else 3 }

  /** What the rounds come to when `k` is the last: `first` is the 407 at the start, and the responses
      of the rounds are `next`, `next + 1` and so on. */
  predicate RoundsGive(q: Retrying, k: nat, first: Response, next: Response, ret: Return) {
    var inHand := if k == 0 then first else next + k - 1;
    if k == 3 then ret == Return(Some(inHand), false)
    else if TriesAgain(q, k) then ret == if Sent(q.answers(k)) then Return(Some(next + k), false) else FAILED
    else ret == if q.answers(k).authFails then FAILED else Return(Some(inHand), false)
  }

  /** After last round `k` the entry in use stays in the pool: the request was answered through it, or
      nothing was sent over a connection that others authenticated. */
  predicate Keeps(q: Retrying, k: nat) {
    k < 3 && TriesAgain(q, k) && (Sent(q.answers(k)) || (Replays(q, k) && NotBuilt(q.answers(k))))
  }

  /** The same with the session: one that cannot be closed takes the answer back. */
  predicate RetryGives(
    q: Retrying, k: nat, sessionCloses: bool, first: Response, next: Response, ret: Return) {
    if OpensSession(q, Rounds(k)) && !sessionCloses then ret == FAILED else RoundsGive(q, k, first, next, ret)
  }

  /** What the whole leaves in the pool. */
  predicate PoolAfter(q: Retrying, k: nat, sessionCloses: bool, f: Fate) {
    var entry := EntryBefore(q, Rounds(k));
    var takenBack := OpensSession(q, Rounds(k)) && !sessionCloses && k < 3 && Sent(q.answers(k));
    entry.Some? ==> if Keeps(q, k) && !takenBack then Kept(f, entry.value) else Dropped(f, entry.value)
  }

  // ---- Its loop ----

  /** The session and the pinned transport are what the variables say. */
  predicate Owned(v: Vars) {
    && v.t.w.ok && v.t.w.held == v.locked && Honest(v.t.w) && (v.locked.None? ==> v.t.w.flag.None?)
    && v.t.w.session == (if v.session then SessionOpen else NoSession)
  }

  /** Between rounds: the entry in use is the one locked, and the response in hand is the only one
      still open. */
  predicate InLoop(v: Vars, usePool: bool) {
    && Owned(v) && v.locked == v.active
    && v.t.w.pinned == (if v.pinned then Live else NotPinned) && (v.pinned ==> !usePool)
    && v.t.w.open == {v.resp} && v.resp < v.t.w.received
    && (v.active.Some? ==> v.t.f.entry == v.active && !v.t.f.dropped)
  }

  /** On the way out: nothing is open but what is returned, and a pinned transport is released or
      rides on the response returned. */
  predicate Leaving(v: Vars, ret: Return) {
    && Owned(v)
    && v.t.w.open == (if ret.resp.Some? then {ret.resp.value} else {})
    && (ret.err ==> ret.resp.None?) && (!ret.err ==> ret.resp.Some?)
    && v.t.w.pinned == if !v.pinned then NotPinned else if ret.resp.Some? then Attached(ret.resp.value) else Released
  }

  /** The closure `lockPooled`: releases the lock in hand, then takes the one wanted. */
  method LockPooled(v: Vars, entry: Option<Entry>) returns (r: Vars)
    requires Owned(v)
    ensures r == v.(t := r.t, locked := entry)
    ensures r.t.w == if v.locked == entry then v.t.w else v.t.w.(held := entry, flag := None, refused := None)
    ensures r.t.f == if v.locked == entry || entry.None? then v.t.f else Fate(entry, false, None)
  {
    r := v;
    if v.locked == entry {
      return;
    }
    if r.locked.Some? {
      r := r.(t := Emit(r.t, Unlock(r.locked.value)));
    }
    r := r.(locked := entry);
    if entry.Some? {
      r := r.(t := Emit(r.t, Lock(entry.value)));
    }
  }

  method RemovePooled(v: Vars) returns (r: Vars)
    ensures r == v.(t := r.t) && r.t.w == v.t.w
    ensures r.t.log == v.t.log + if v.active.Some? then [Removed(v.active.value)] else []
    ensures r.t.f == if v.active.Some? && v.t.f.entry == v.active then v.t.f.(dropped := true) else v.t.f
  {
    r := v;
    if v.active.Some? {
      r := v.(t := Emit(v.t, Removed(v.active.value)));
    }
  }

  method ClosePinned(v: Vars) returns (r: Vars)
    requires v.t.w.ok && (v.pinned ==> !v.t.w.pinned.NotPinned?)
    ensures r == v.(t := r.t)
    ensures r.t.w == (if v.pinned then v.t.w.(pinned := Released) else v.t.w) && r.t.f == v.t.f
  {
    r := v;
    if v.pinned {
      r := v.(t := Emit(v.t, ReleasePinned));
    }
  }

  method Finish(v: Vars) returns (r: Vars)
    requires v.t.w.ok && (v.pinned ==> v.t.w.pinned.Live? && v.resp in v.t.w.open)
    ensures r == v.(t := r.t)
    ensures r.t.w == (if v.pinned then v.t.w.(pinned := Attached(v.resp)) else v.t.w) && r.t.f == v.t.f
  {
    r := v;
    if v.pinned {
      r := v.(t := Emit(v.t, AttachPinned(v.resp)));
    }
  }

  method CloseResponse(v: Vars) returns (r: Vars)
    requires v.t.w.ok && v.t.w.open == {v.resp}
    ensures r == v.(t := r.t) && r.t.w == v.t.w.(open := {}) && r.t.log == v.t.log + [CloseBody(v.resp)]
    ensures r.t.f == v.t.f
  {
    r := v.(t := Emit(v.t, CloseBody(v.resp)));
    assert {v.resp} - {v.resp} == {};
  }

  /** `drainUpstream407Body`: at most one byte over the limit is read, the body is closed on every
      path, and draining succeeds exactly when the body ends within the limit. */
  method Drain(v: Vars, body: BodyRead) returns (r: Vars, ok: bool)
    requires v.t.w.ok && v.t.w.open == {v.resp}
    ensures r == v.(t := r.t) && r.t.w == v.t.w.(open := {}) && r.t.log == v.t.log + [CloseBody(v.resp)]
    ensures r.t.f == v.t.f
    ensures ok <==> body.length <= MAX_407_BODY && !body.breaks
  {
    var n := if body.length > MAX_407_BODY then MAX_407_BODY + 1 else body.length;
    ok := n <= MAX_407_BODY && !body.breaks;
    r := CloseResponse(v);
  }

  method Receive(v: Vars, is407: bool) returns (r: Vars)
    requires v.t.w.ok && v.t.w.open == {}
    ensures r == v.(t := r.t, resp := v.t.w.received, is407 := is407)
    ensures r.t.w == v.t.w.(received := v.t.w.received + 1, open := {r.resp}, refused := Some(is407))
    ensures r.t.f == v.t.f
  {
    r := v.(resp := v.t.w.received, is407 := is407, t := Emit(v.t, Got(v.t.w.received, is407)));
  }

  method SetFlag(v: Vars, authenticated: bool) returns (r: Vars)
    requires v.t.w.ok && v.active.Some? && v.t.w.held == v.active && (authenticated ==> v.t.w.refused == Some(false))
    ensures r == v.(t := r.t) && r.t.w == v.t.w.(flag := Some(authenticated))
    ensures r.t.f == if v.t.f.entry == v.active then v.t.f.(said := Some(authenticated)) else v.t.f
  {
    r := v.(t := Emit(v.t, WriteFlag(v.active.value, authenticated)));
  }

  /** Failing before the response in hand was drained. */
  method FailAuth(v: Vars) returns (r: Vars)
    requires v.t.w.ok && v.t.w.open == {v.resp} && (v.pinned ==> !v.t.w.pinned.NotPinned?)
    ensures r == v.(t := r.t)
    ensures r.t.w == v.t.w.(open := {}, pinned := if v.pinned then Released else v.t.w.pinned)
    ensures r.t.f == if v.active.Some? && v.t.f.entry == v.active then v.t.f.(dropped := true) else v.t.f
  {
    r := CloseResponse(v);
    r := RemovePooled(r);
    r := ClosePinned(r);
  }

  predicate SameResponse(v0: Vars, v: Vars) {
    v.resp == v0.resp && v.is407 == v0.is407 && v.t.w.received == v0.t.w.received
  }

  /** The variables after one more response. */
  predicate NextResponse(v0: Vars, is407: bool, v: Vars) {
    v.resp == v0.t.w.received && v.is407 == is407 && v.t.w.received == v0.t.w.received + 1
  }

  /** A replay gives the request its answer, or another 407 to go on with. */
  predicate ReplayGives(v0: Vars, a: Answer, v: Vars, ret: Option<Return>, again: bool) {
    && (again <==> Sent(a) && a.again407) && (again ==> NextResponse(v0, true, v))
    && (!again ==> ret == Some(if Sent(a) then Return(Some(v0.t.w.received), false) else FAILED))
    && (again ==> v.t.f.said == Some(false))
    && (!again && v.active.Some? ==>
          if Sent(a) || NotBuilt(a) then Kept(v.t.f, v.active.value) else Dropped(v.t.f, v.active.value))
  }

  /** The part of a round that finds the transport: it may answer the request by replaying it on a
      connection another request has authenticated meanwhile. */
  method ChooseTransport(v0: Vars, usePool: bool, a: Answer) returns (v: Vars, ret: Option<Return>, again: bool)
    requires InLoop(v0, usePool)
    ensures ret.None? ==> InLoop(v, usePool)
    ensures ret.Some? ==> Leaving(v, ret.value) && !again
    ensures v.t.w.rounds == v0.t.w.rounds && v.t.w.received <= v0.t.w.received + 1
    ensures v.session == v0.session && (v.pinned <==> v0.pinned || (NeedsOther(v0.active, a) && !usePool))
    ensures v.active == if !NeedsOther(v0.active, a) then v0.active else if usePool then Some(a.acquired) else None
    ensures if NeedsOther(v0.active, a) && usePool && a.flag then ReplayGives(v0, a, v, ret, again)
            else ret.None? && !again && SameResponse(v0, v)
  {
    v, ret, again := v0, None, false;
    if !a.connectionAuth {
      return;
    }
    if v.active.Some? && !a.schemeKept {
      v := RetireEntry(v, usePool);
    }
    if v.active.None? {
      if usePool {
        v := UseEntry(v, usePool, a);
        if a.flag {
          v, ret, again := ReplayPooled(v, usePool, a);
        }
      } else if !v.pinned {
        v := v.(t := Emit(v.t, PinTransport), pinned := true);
      }
    }
  }

  /** A change of scheme retires the entry in use. */
  method RetireEntry(v0: Vars, usePool: bool) returns (v: Vars)
    requires InLoop(v0, usePool)
    ensures InLoop(v, usePool) && v == v0.(t := v.t, active := None, locked := None)
    ensures v.t.w == if v0.active.Some? then v0.t.w.(held := None, flag := None, refused := None) else v0.t.w
  {
    v := RemovePooled(v0);
    v := LockPooled(v, None);
    v := v.(active := None);
  }

  /** The entry that the pool gives for the new scheme is locked before its flag is read. */
  method UseEntry(v0: Vars, usePool: bool, a: Answer) returns (v: Vars)
    requires InLoop(v0, usePool) && v0.active.None?
    ensures InLoop(v, usePool) && v == v0.(t := v.t, active := Some(a.acquired), locked := Some(a.acquired))
    ensures v.t.w == v0.t.w.(held := Some(a.acquired), flag := Some(a.flag), refused := None)
    ensures v.t.f == Fate(Some(a.acquired), false, Some(a.flag))
  {
    v := LockPooled(v0, Some(a.acquired));
    v := v.(active := Some(a.acquired));
    v := v.(t := Emit(v.t, ReadFlag(a.acquired, a.flag)));
  }

  method ReplayPooled(v0: Vars, usePool: bool, a: Answer) returns (v: Vars, ret: Option<Return>, again: bool)
    requires InLoop(v0, usePool) && usePool && v0.active.Some? && v0.t.f.said == Some(true)
    ensures ret.None? ==> InLoop(v, usePool) && again
    ensures ret.Some? ==> Leaving(v, ret.value) && !again
    ensures v.t.w.rounds == v0.t.w.rounds && v.t.w.received <= v0.t.w.received + 1
    ensures v.active == v0.active && v.session == v0.session && v.pinned == v0.pinned
    ensures ReplayGives(v0, a, v, ret, again)
  {
    again := false;
    var drained: bool;
    v, drained := Drain(v0, a.stale);
    if !drained {
      v := RemovePooled(v);
      return v, Some(FAILED), false;
    }
    if !a.requestOk {
      return v, Some(FAILED), false;
    }
    if !a.tripOk {
      v := RemovePooled(v);
      return v, Some(FAILED), false;
    }
    v := Receive(v, a.again407);
    if !v.is407 {
      return v, Some(Return(Some(v.resp), false)), false;
    }
    v := SetFlag(v, false);
    return v, None, true;
  }

  /** The rest of a round: credentials, and the request sent once more. */
  method Authenticate(v0: Vars, usePool: bool, a: Answer) returns (v: Vars, ret: Option<Return>)
    requires InLoop(v0, usePool)
    ensures ret.None? ==> InLoop(v, usePool)
    ensures ret.Some? ==> Leaving(v, ret.value)
    ensures v.t.w.rounds == v0.t.w.rounds && v.t.w.received <= v0.t.w.received + 1
    ensures v.active == v0.active && (v.session <==> v0.session || a.sessionStarts) && v.pinned == v0.pinned
    ensures ret.None? <==> !a.authFails && a.credentials && Sent(a)
    ensures ret.None? ==> NextResponse(v0, a.again407, v) && (v.active.Some? ==> v.t.f.said == Some(!a.again407))
    ensures ret.Some? && v.active.Some? ==> Dropped(v.t.f, v.active.value)
    ensures ret.Some? ==> ret.value == if a.authFails || a.credentials then FAILED else Return(Some(v0.resp), false)
  {
    v := v0;
    if !v.session && a.sessionStarts {
      v := v.(t := Emit(v.t, OpenSession), session := true);
    }
    if a.authFails {
      v := FailAuth(v);
      return v, Some(FAILED);
    }
    if !a.credentials {
      v := RemovePooled(v);
      v := Finish(v);
      return v, Some(Return(Some(v.resp), false));
    }
    v, ret := Resend(v, usePool, a);
  }

  /** The request sent with credentials: the response decides the flag of the entry in use. */
  method Resend(v0: Vars, usePool: bool, a: Answer) returns (v: Vars, ret: Option<Return>)
    requires InLoop(v0, usePool)
    ensures ret.None? ==> InLoop(v, usePool)
    ensures ret.Some? ==> Leaving(v, ret.value)
    ensures v.t.w.rounds == v0.t.w.rounds && v.t.w.received <= v0.t.w.received + 1
    ensures v.active == v0.active && v.session == v0.session && v.pinned == v0.pinned
    ensures ret == if Sent(a) then None else Some(FAILED)
    ensures ret.None? ==> NextResponse(v0, a.again407, v) && (v.active.Some? ==> v.t.f.said == Some(!a.again407))
    ensures ret.Some? && v.active.Some? ==> Dropped(v.t.f, v.active.value)
  {
    var drained: bool;
    v, drained := Drain(v0, a.stale);
    if !drained || !a.requestOk || !a.tripOk {
      v := RemovePooled(v);
      v := ClosePinned(v);
      return v, Some(FAILED);
    }
    v := Receive(v, a.again407);
    if v.active.Some? {
      v := SetFlag(v, !v.is407);
    }
    return v, None;
  }

  /** The loop, up to where the deferred function takes over. */
  method RetryLoop(v0: Vars, usePool: bool, answers: nat -> Answer) returns (v: Vars, ret: Return)
    requires InLoop(v0, usePool) && !v0.session && !v0.pinned
    ensures Leaving(v, ret)
    ensures v.t.w.rounds <= v0.t.w.rounds + 3 && v.t.w.received <= v0.t.w.received + 3
    ensures !v0.is407 ==> ret == Return(Some(v0.resp), false) && !v.session
    ensures v0.is407 ==> forall k: nat :: LastRound(Retrying(v0.active, usePool, answers), k) ==>
      EndsAt(Retrying(v0.active, usePool, answers), v0, v, k, ret)
  {
    ghost var q := Retrying(v0.active, usePool, answers);
    v := v0;
    var attempts := 0;
    while attempts < 3 && v.is407
      invariant 0 <= attempts <= 3 && InLoop(v, usePool)
      invariant v.t.w.rounds == v0.t.w.rounds + attempts && Reached(q, v0, v, attempts)
      invariant !v0.is407 ==> attempts == 0
      decreases 3 - attempts
    {
      ghost var v1 := v;
      var early: Option<Return>;
      v, early := TakeRound(v, usePool, answers(attempts));
      if early.Some? {
        EndsEarly(q, v0, v1, v, attempts, early.value);
        return v, early.value;
      }
      RoundReached(q, v0, v1, v, attempts);
      attempts := attempts + 1;
    }
    ghost var last := v;
    if v.is407 {
      v := RemovePooled(v);
    }
    v := Finish(v);
    if v0.is407 {
      LoopEnds(q, v0, last, v, attempts);
    }
    return v, Return(Some(v.resp), false);
  }

  /** One round: the transport, and unless that answered the request, the credentials. */
  method TakeRound(v0: Vars, usePool: bool, a: Answer) returns (v: Vars, ret: Option<Return>)
    requires InLoop(v0, usePool)
    ensures ret.None? ==> InLoop(v, usePool)
    ensures ret.Some? ==> Leaving(v, ret.value)
    ensures v.t.w.rounds == v0.t.w.rounds + 1 && v.t.w.received <= v0.t.w.received + 1
    ensures RoundGives(v0, usePool, a, v, ret)
  {
    v := v0.(t := Emit(v0.t, Round));
    var again: bool;
    v, ret, again := ChooseTransport(v, usePool, a);
    if ret.None? && !again {
      v, ret := Authenticate(v, usePool, a);
    }
  }

  /** What one round makes of the request: `ret`, or one more response to go on with. */
  predicate RoundGives(v0: Vars, usePool: bool, a: Answer, v: Vars, ret: Option<Return>) {
    var replays := NeedsOther(v0.active, a) && usePool && a.flag;
    var tries := replays || (!a.authFails && a.credentials);
    && v.active == (if !NeedsOther(v0.active, a) then v0.active else if usePool then Some(a.acquired) else None)
    && (v.session <==> v0.session || (!replays && a.sessionStarts))
    && (v.pinned <==> v0.pinned || (NeedsOther(v0.active, a) && !usePool))
    && (ret.None? ==> tries && Sent(a) && NextResponse(v0, a.again407, v))
    && (ret.None? && v.active.Some? ==> v.t.f == Fate(v.active, false, Some(!a.again407)))
    && (ret.Some? && v.active.Some? ==>
          if replays && (Sent(a) || NotBuilt(a)) then Kept(v.t.f, v.active.value) else Dropped(v.t.f, v.active.value))
    && (ret.Some? ==>
          if !tries then ret.value == if a.authFails then FAILED else Return(Some(v0.resp), false)
          else if !Sent(a) then ret.value == FAILED
          else replays && !a.again407 && ret.value == Return(Some(v0.t.w.received), false))
  }

  lemma RoundReached(q: Retrying, v0: Vars, v1: Vars, v: Vars, n: nat)
    requires Reached(q, v0, v1, n) && v1.is407 && RoundGives(v1, q.usePool, q.answers(n), v, None)
    ensures Reached(q, v0, v, n + 1)
  {
  }

  lemma EndsEarly(q: Retrying, v0: Vars, v1: Vars, v: Vars, n: nat, ret: Return)
    requires Reached(q, v0, v1, n) && v1.is407 && n < 3 && RoundGives(v1, q.usePool, q.answers(n), v, Some(ret))
    ensures EndsAt(q, v0, v, n, ret) && forall k: nat :: LastRound(q, k) ==> k == n
  {
    OneRoundIsLast(q, n);
  }

  /** The loop ran out: the entry of a last 407 is dropped. */
  lemma LoopEnds(q: Retrying, v0: Vars, v: Vars, r: Vars, n: nat)
    requires Reached(q, v0, v, n) && n <= 3 && (v.is407 ==> n == 3) && v0.is407
    requires v.active.Some? ==> v.t.f.entry == v.active && !v.t.f.dropped
    requires r == v.(t := r.t)
    requires r.t.f == if v.is407 && v.active.Some? then v.t.f.(dropped := true) else v.t.f
    ensures var last := if v.is407 then n else n - 1;
      && EndsAt(q, v0, r, last, Return(Some(v.resp), false)) && forall k: nat :: LastRound(q, k) ==> k == last
  {
    OneRoundIsLast(q, if v.is407 then n else n - 1);
  }

  /** The variables after `n` rounds that did not return. */
  ghost predicate Reached(q: Retrying, v0: Vars, v: Vars, n: nat) {
    && v.active == EntryBefore(q, n) && v.t.w.received == v0.t.w.received + n
    && v.resp == (if n == 0 then v0.resp else v0.t.w.received + n - 1)
    && (v.session <==> OpensSession(q, n)) && (v.pinned <==> Pins(q, n))
    && (if n == 0 then v.is407 == v0.is407
        else RefusedFirst(q, n - 1) && TriesAgain(q, n - 1) && Sent(q.answers(n - 1))
             && v.is407 == q.answers(n - 1).again407 && (v.active.Some? ==> v.t.f.said == Some(!v.is407)))
  }

  ghost predicate EndsAt(q: Retrying, v0: Vars, v: Vars, k: nat, ret: Return) {
    && RoundsGive(q, k, v0.resp, v0.t.w.received, ret) && (v.session <==> OpensSession(q, Rounds(k)))
    && v.active == EntryBefore(q, Rounds(k)) && (v.pinned <==> Pins(q, Rounds(k)))
    && (v.active.Some? ==>
          if Keeps(q, k) then Kept(v.t.f, v.active.value) else Dropped(v.t.f, v.active.value))
  }

  /** The deferred function: the lock is released, the session closed, and an error of that close
      takes the response back. */
  method Deferred(v0: Vars, ret0: Return, sessionCloses: bool) returns (t: Trace, ret: Return)
    requires Leaving(v0, ret0)
    ensures Settled(t.w, ret)
    ensures t.w.rounds == v0.t.w.rounds && t.w.received == v0.t.w.received
    ensures ret == if v0.session && !sessionCloses && !ret0.err then FAILED else ret0
    ensures t.w.pinned.NotPinned? <==> !v0.pinned
    ensures t.f == if v0.session && !sessionCloses && !ret0.err && v0.active.Some? && v0.t.f.entry == v0.active
                   then v0.t.f.(dropped := true) else v0.t.f
  {
    ret := ret0;
    var v := LockPooled(v0, None);
    if v.session {
      v := v.(t := Emit(v.t, CloseSession));
      if !sessionCloses && !ret.err {
        if ret.resp.Some? {
          v := v.(t := Emit(v.t, CloseBody(ret.resp.value)));
          assert v.t.w.open == {};
        }
        v := RemovePooled(v);
        v := ClosePinned(v);
        ret := FAILED;
      }
    }
    t := v.t;
  }

  /** Nothing is held, nothing is open but what is returned, the session is over and the pinned
      transport released or riding on the response returned. */
  predicate Settled(w: Status, ret: Return) {
    && w.ok && w.held.None? && !w.session.SessionOpen?
    && (ret.err <==> ret.resp.None?)
    && w.open == (if ret.resp.Some? then {ret.resp.value} else {})
    && (w.pinned.NotPinned? || w.pinned == if ret.resp.Some? then Attached(ret.resp.value) else Released)
  }

  /** `retryHTTPProxyAuthWithPool`: for every sequence of answers, with or without an inherited
      lock, at most three rounds end with everything settled. `streamed`: the body cannot be sent
      again; `usePool`: the request has a reusable identity. */
  method Retry(t0: Trace, resp: Response, is407: bool, pooled: Option<Entry>, alreadyLocked: bool, streamed: bool,
               usePool: bool, answers: nat -> Answer, sessionCloses: bool) returns (t: Trace, ret: Return)
    requires t0.w.ok && t0.w.open == {resp} && resp < t0.w.received
    requires t0.w.session.NoSession? && t0.w.pinned.NotPinned?
    requires t0.w.held == (if alreadyLocked then pooled else None) && Honest(t0.w)
    requires t0.w.held.None? ==> t0.w.flag.None?
    requires t0.w.held.Some? ==> t0.f.entry == t0.w.held && !t0.f.dropped
    ensures Settled(t.w, ret)
    ensures t.w.rounds <= t0.w.rounds + 3 && t.w.received <= t0.w.received + 3
    ensures streamed || !is407 ==> ret == Return(Some(resp), false)
    ensures !streamed && is407 ==>
      forall k: nat :: LastRound(Retrying(pooled, usePool, answers), k) ==>
        && RetryGives(Retrying(pooled, usePool, answers), k, sessionCloses, resp, t0.w.received, ret)
        && PoolAfter(Retrying(pooled, usePool, answers), k, sessionCloses, t.f)
        && (t.w.pinned.NotPinned? <==> !Pins(Retrying(pooled, usePool, answers), Rounds(k)))
    ensures streamed && pooled.Some? ==> Dropped(t.f, pooled.value) && t.f.said == Some(false)
  {
    if streamed {
      t := t0;
      if pooled.Some? {
        if !alreadyLocked {
          t := Emit(t, Lock(pooled.value));
        }
        t := Emit(t, WriteFlag(pooled.value, false));
        t := Emit(t, Unlock(pooled.value));
        t := Emit(t, Removed(pooled.value));
      }
      return t, Return(Some(resp), false);
    }
    var v := Vars(t0, resp, is407, pooled, if alreadyLocked then pooled else None, false, false);
    if pooled.Some? {
      if !alreadyLocked {
        v := LockPooled(v, pooled);
      }
      v := SetFlag(v, false);
    }
    var ret0: Return;
    v, ret0 := RetryLoop(v, usePool, answers);
    t, ret := Deferred(v, ret0, sessionCloses);
  }

  // ---- The candidate loop ----

  /** What one candidate meets; `cached` is the pool entry found for it, `flag` its flag once locked,
      and `identity` says whether the request has a reusable identity. */
  datatype Candidate = Candidate(
    direct: bool, identity: bool, cached: Option<Entry>, flag: bool, requestOk: bool, cancelled: bool,
    tripOk: bool, is407: bool, answers: nat -> Answer, sessionCloses: bool)

  /** The entry that the request goes through: the cached one, if it is authenticated. */
  function Pooled(c: Candidate): Option<Entry> { if !c.direct && c.identity && c.flag then c.cached else None }

  predicate Answers(c: Candidate) { c.requestOk && c.tripOk }

  /** The candidate fails, and the next one has its turn. */
  predicate Passed(c: Candidate) { !Answers(c) && !c.cancelled }

  predicate FirstUnpassed(candidates: seq<Candidate>, n: nat) {
    n < |candidates| && !Passed(candidates[n]) && forall i :: 0 <= i < n ==> Passed(candidates[i])
  }

  function RetryingFor(c: Candidate): Retrying { Retrying(Pooled(c), c.identity, c.answers) }

  /** What an unpassed candidate gives: its answer; for a 407 of a proxy what the rounds come to; an
      error when the caller is gone. */
  ghost predicate CandidateGives(c: Candidate, streamed: bool, t: Trace, ret: Return) {
    if !Answers(c) then ret == FAILED
    else if c.direct || !c.is407 || streamed then ret == Return(Some(0), false)
    else
      var q := RetryingFor(c);
      forall k: nat :: LastRound(q, k) ==>
        && RetryGives(q, k, c.sessionCloses, 0, 1, ret) && PoolAfter(q, k, c.sessionCloses, t.f)
        && (t.w.pinned.NotPinned? <==> !Pins(q, Rounds(k)))
  }

  /** `roundTripHTTPWithProxyFallback`: on every way out, for every list of candidates and every
      answer, no pool lock is held, each was released once, no two were held together, flags were
      touched only under their lock, and the only open response is the one returned. */
  method RoundTripWithFallback(candidates: seq<Candidate>, streamed: bool) returns (t: Trace, ret: Return)
    ensures Disciplined(t.log, ret) && Settled(t.w, ret)
    ensures t.w.rounds <= 3 && t.w.received <= 4
    ensures (forall i :: 0 <= i < |candidates| ==> Passed(candidates[i])) ==> ret == FAILED
    ensures forall n: nat :: FirstUnpassed(candidates, n) ==> CandidateGives(candidates[n], streamed, t, ret)
  {
    t := Record([], START, NO_ENTRY);
    for i := 0 to |candidates|
      invariant t.w == START && forall j :: 0 <= j < i ==> Passed(candidates[j])
    {
      var done: Option<Return>;
      t, done := TryCandidate(t, candidates[i], streamed);
      if done.Some? {
        ret := done.value;
        SettledMeans(t, ret);
        return;
      }
    }
    ret := FAILED;
    SettledMeans(t, ret);
  }

  /** The pool entry for a candidate: it stays locked only if its connection is authenticated. */
  method FindPooled(t0: Trace, c: Candidate) returns (t: Trace, pooled: Option<Entry>)
    requires t0.w == START
    ensures t.w == START.(held := pooled, flag := if pooled.Some? then Some(true) else None)
    ensures pooled == Pooled(c) && (pooled.Some? ==> Kept(t.f, pooled.value))
  {
    t, pooled := t0, None;
    if !c.direct && c.identity {
      pooled := c.cached;
    }
    if pooled.Some? {
      t := LockAndRead(t, pooled.value, c.flag);
      if !c.flag {
        t := Unlocked(t, pooled);
        pooled := None;
      }
    }
  }

  method LockAndRead(t0: Trace, e: Entry, flag: bool) returns (t: Trace)
    requires t0.w.ok && t0.w.held.None?
    ensures t.w == t0.w.(held := Some(e), flag := Some(flag), refused := None)
    ensures t.f == Fate(Some(e), false, Some(flag))
  {
    t := Emit(t0, Lock(e));
    t := Emit(t, ReadFlag(e, flag));
  }

  method Unlocked(t0: Trace, pooled: Option<Entry>) returns (t: Trace)
    requires t0.w.ok && t0.w.held == pooled && Honest(t0.w)
    ensures t.w == if pooled.Some? then t0.w.(held := None, flag := None, refused := None) else t0.w
    ensures t.f == t0.f
  {
    t := t0;
    if pooled.Some? {
      t := Emit(t, Unlock(pooled.value));
    }
  }

  method ClearFlag(t0: Trace, pooled: Option<Entry>) returns (t: Trace)
    requires t0.w.ok && t0.w.held == pooled
    ensures t.w == if pooled.Some? then t0.w.(flag := Some(false)) else t0.w
    ensures t.f == if pooled.Some? && t0.f.entry == pooled then t0.f.(said := Some(false)) else t0.f
  {
    t := t0;
    if pooled.Some? {
      t := Emit(t, WriteFlag(pooled.value, false));
    }
  }

  /** One candidate: an answer, or `None` to go on with the next. An entry whose connection failed is
      dropped, and one that served stays. */
  method TryCandidate(t0: Trace, c: Candidate, streamed: bool) returns (t: Trace, done: Option<Return>)
    requires t0.w == START
    ensures done.None? ==> t.w == START
    ensures done.Some? ==> Settled(t.w, done.value) && t.w.rounds <= 3 && t.w.received <= 4
    ensures done.None? <==> Passed(c)
    ensures done.Some? ==> CandidateGives(c, streamed, t, done.value)
    ensures Answers(c) && Pooled(c).Some? && !c.is407 ==> Kept(t.f, Pooled(c).value)
    ensures c.requestOk && !c.tripOk && Pooled(c).Some? ==> Dropped(t.f, Pooled(c).value)
  {
    var pooled: Option<Entry>;
    t, pooled := FindPooled(t0, c);
    if !c.requestOk {
      t := Unlocked(t, pooled);
      return t, if c.cancelled then Some(FAILED) else None;
    }
    if !c.tripOk {
      t := ClearFlag(t, pooled);
      t := Unlocked(t, pooled);
      if pooled.Some? {
        t := Emit(t, Removed(pooled.value));
      }
      return t, if c.cancelled then Some(FAILED) else None;
    }
    t := Emit(t, Got(0, c.is407));
    var ret := Return(Some(0), false);
    if !c.direct && c.is407 {
      t := ClearFlag(t, pooled);
      t, ret := Retry(t, 0, true, pooled, pooled.Some?, streamed, c.identity, c.answers, c.sessionCloses);
    } else {
      t := Unlocked(t, pooled);
    }
    return t, Some(ret);
  }

  /** What the log itself shows: every lock taken was released once, no lock was taken while one was
      held, flags were touched under their own lock, set only after a response that was not a 407
      and never left set after one that was, an auth session was closed once, and of the responses
      received exactly the one returned was left unclosed, the others closed once. */
  ghost predicate Disciplined(log: seq<Event>, ret: Return) {
    && (forall e: Entry :: Count(log, Lock(e)) == Count(log, Unlock(e)))
    && Count(log, OpenSession) == Count(log, CloseSession) <= 1
    && (forall n: nat, e: Entry, j: nat :: n < |log| && log[n].Lock? ==> !HeldSince(log, n, e, j))
    && (forall n: nat :: n < |log| && NeedsLock(log[n]) ==> exists j: nat :: HeldSince(log, n, log[n].e, j))
    && (forall n: nat :: n < |log| && log[n].WriteFlag? && log[n].authenticated ==> Earned(log, n))
    && (forall n: nat, j: nat, k: nat, f: nat :: !LeftSet(log, n, j, k, f))
    && (forall n: nat :: n < |log| && log[n].Got? ==>
          Count(log, CloseBody(log[n].r)) == if ret.resp == Some(log[n].r) then 0 else 1)
  }

  /** The lock taken at `j` is released at `n` with the flag set, although the last response since was
      a 407. */
  predicate LeftSet(log: seq<Event>, n: nat, j: nat, k: nat, f: nat) {
    && n < |log| && log[n].Unlock? && HeldSince(log, n, log[n].e, j)
    && LastResponse(log, n, j, k) && log[k].is407 && LastFlag(log, n, j, f) && log[f].authenticated
  }

  /** The flag set at `n` was earned by a response under the same lock. */
  ghost predicate Earned(log: seq<Event>, n: nat)
    requires n < |log| && log[n].WriteFlag?
  {
    exists j: nat, k: nat :: HeldSince(log, n, log[n].e, j) && LastResponse(log, n, j, k) && !log[k].is407
  }

  lemma {:induction false} GotCounts(log: seq<Event>, n: nat)
    requires Judge(log).ok && n < |log| && log[n].Got?
    ensures log[n].r < Judge(log).received
  {
    if n < |log| - 1 {
      GotCounts(log[..|log| - 1], n);
    }
  }

  lemma SettledMeans(t: Trace, ret: Return)
    requires Settled(t.w, ret)
    ensures Disciplined(t.log, ret)
  {
    forall e: Entry ensures Count(t.log, Lock(e)) == Count(t.log, Unlock(e)) {
      LocksBalance(t.log, e);
    }
    forall n: nat, e: Entry, j: nat | n < |t.log| && t.log[n].Lock? ensures !HeldSince(t.log, n, e, j) {
      NeverTwoLocks(t.log, n, e, j);
    }
    forall n: nat | n < |t.log| && NeedsLock(t.log[n]) ensures exists j: nat :: HeldSince(t.log, n, t.log[n].e, j) {
      var j := FlagsUnderLock(t.log, n);
    }
    forall n: nat | n < |t.log| && t.log[n].WriteFlag? && t.log[n].authenticated ensures Earned(t.log, n) {
      var j, k := FlagsAreEarned(t.log, n);
    }
    forall n: nat, j: nat, k: nat, f: nat ensures !LeftSet(t.log, n, j, k, f) {
      if LeftSet(t.log, n, j, k, f) {
        NotLeftSet(t.log, n, j, k, f);
      }
    }
    forall n: nat | n < |t.log| && t.log[n].Got?
      ensures Count(t.log, CloseBody(t.log[n].r)) == if ret.resp == Some(t.log[n].r) then 0 else 1
    {
      GotCounts(t.log, n);
      ResponsesConserved(t.log, t.log[n].r);
    }
    SessionOnce(t.log);
  }
}
