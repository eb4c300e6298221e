/** What holds in every run of the supervisor: health entries, eviction, network epochs and the
    fatal signal are explained by the history of events alone. */
module SupervisionRuns {
  import opened Options
  import opened Supervision

  /** A run: `ss[i]` is the state before event `es[i]`. */
  ghost predicate Run(ss: seq<State>, es: seq<Event>) {
    && |ss| == |es| + 1 && ss[0] == INIT
    && forall i :: 0 <= i < |es| ==> Next(ss[i], es[i], ss[i + 1])
  }

  /** Every state of every run keeps the invariant: at most 256 entries, each with
      `backoffLevel == min(5, failures - 1)` and cooling exactly from the second failure on, and
      one fatal signal, never dropped, exactly when one was requested. */
  lemma {:induction false} RunInv(ss: seq<State>, es: seq<Event>, n: nat)
    requires Run(ss, es) && n <= |es|
    ensures Inv(ss[n]) && |ss[n].health| <= 256
  {
    if n > 0 {
      RunInv(ss, es, n - 1);
      StepKeeps(ss[n - 1], es[n - 1], ss[n]);
    }
  }

  // ---- Health entries and their history ----

  /** The event counts a failure of `k`. */
  predicate Fails(s: State, e: Event, k: Key) {
    !s.closed && e.Recorded? && AgainstProxy(e.kind) && e.key == k && k != ""
  }

  /** The outcomes that are held against a proxy. */
  predicate AgainstProxy(k: Kind) {
    k == ProxyDnsFailure || k == ProxyDialFailure || k == ProxyTlsFailure || k == ProxyProtocolFailure
  }

  predicate FailsSome(s: State, e: Event) { e.Recorded? && Fails(s, e, e.key) }

  /** An entry that survives a step is unchanged, or has failed once more. */
  lemma StepEntry(s: State, e: Event, s': State, k: Key)
    requires Next(s, e, s') && k in s'.health
    ensures !Fails(s, e, k) ==> k in s.health && s'.health[k] == s.health[k]
    ensures Fails(s, e, k) ==> s'.health[k] == Failed(Find(s.health, k), e.now, s'.sequence)
  {
    if FailsSome(s, e) {
      var s1 := FailureStep(s, e, s');
      assert s'.health == s1.health;
      FailureEntry(s, e.key, e.now, s1, k);
    }
  }

  lemma FailureEntry(s: State, key: Key, now: int, s1: State, k: Key)
    requires key != "" && LocalFailure(s, key, now, s1) && k in s1.health
    ensures s1.sequence == s.sequence + 1
    ensures k != key ==> k in s.health && s1.health[k] == s.health[k]
    ensures k == key ==> s1.health[k] == Failed(Find(s.health, k), now, s.sequence + 1)
  {
  }

  /** The counted failure in a step: first the entry, then the correlation window. */
  lemma FailureStep(s: State, e: Event, s': State) returns (s1: State)
    requires Next(s, e, s') && FailsSome(s, e)
    ensures LocalFailure(s, e.key, e.now, s1) && s' == Correlate(s1, e.key, e.now)
    ensures s1 == s.(sequence := s.sequence + 1, health := s1.health)
  {
    s1 :| LocalFailure(s, e.key, e.now, s1) && s' == Correlate(s1, e.key, e.now);
  }

  lemma StepSequence(s: State, e: Event, s': State)
    requires Next(s, e, s')
    ensures s'.sequence == s.sequence + if FailsSome(s, e) then 1 else 0
  {
    if FailsSome(s, e) {
      var s1 := FailureStep(s, e, s');
    }
  }

  predicate FailsAt(ss: seq<State>, es: seq<Event>, j: int, k: Key)
    requires |ss| == |es| + 1
  {
    0 <= j < |es| && Fails(ss[j], es[j], k)
  }

  /** Failures of `k` among the events from `b` to before `n`. */
  function FailCount(ss: seq<State>, es: seq<Event>, b: nat, n: nat, k: Key): nat
    requires |ss| == |es| + 1
    decreases n
  {
    if n <= b then 0 else FailCount(ss, es, b, n - 1, k) + if FailsAt(ss, es, n - 1, k) then 1 else 0
  }

  /** The entry of `k` before event `n` began at event `b`, when `k` had no entry or an expired one,
      last changed at event `l`, and counts exactly the failures between. */
  predicate History(ss: seq<State>, es: seq<Event>, n: nat, k: Key, b: nat, l: nat)
    requires |ss| == |es| + 1 && n <= |es|
  {
    && b <= l < n && k in ss[n].health
    && FailsAt(ss, es, b, k) && FailsAt(ss, es, l, k)
    && (forall j :: l < j < n ==> !FailsAt(ss, es, j, k))
    && (k in ss[b].health ==> Expired(ss[b].health[k], es[b].now))
    && (forall j :: b < j <= n ==> k in ss[j].health)
    && (forall j :: b < j < n && FailsAt(ss, es, j, k) ==> !Expired(ss[j].health[k], es[j].now))
    && var h := ss[n].health[k];
       && h.failures == FailCount(ss, es, b, n, k)
       && h.lastSequence == ss[l + 1].sequence
       && (h.failures >= 2 ==> h.coolingUntil == Some(es[l].now + Cooldown(h.backoffLevel)))
  }

  /** A step's effect on the entry of one key. */
  predicate EntryStep(s: State, e: Event, s': State, k: Key) {
    k in s'.health ==>
      if Fails(s, e, k) then s'.health[k] == Failed(Find(s.health, k), e.now, s'.sequence)
      else k in s.health && s'.health[k] == s.health[k]
  }

  ghost predicate Entries(ss: seq<State>, es: seq<Event>, k: Key) {
    && |ss| == |es| + 1 && k !in ss[0].health
    && (forall i :: 0 <= i < |es| ==> EntryStep(ss[i], es[i], ss[i + 1], k))
    && (forall i :: 0 <= i < |ss| && k in ss[i].health ==> EntryOk(ss[i].health[k]))
  }

  lemma RunEntries(ss: seq<State>, es: seq<Event>, k: Key)
    requires Run(ss, es)
    ensures Entries(ss, es, k)
  {
    forall i | 0 <= i < |es| ensures EntryStep(ss[i], es[i], ss[i + 1], k) {
      if k in ss[i + 1].health {
        StepEntry(ss[i], es[i], ss[i + 1], k);
      }
    }
    forall i | 0 <= i < |ss| && k in ss[i].health ensures EntryOk(ss[i].health[k]) {
      RunInv(ss, es, i);
    }
  }

  lemma HistoryAgain(ss: seq<State>, es: seq<Event>, n: nat, k: Key, b: nat, l: nat)
    requires Entries(ss, es, k) && n < |es| && History(ss, es, n, k, b, l)
    requires k in ss[n + 1].health && !FailsAt(ss, es, n, k)
    ensures History(ss, es, n + 1, k, b, l)
  {
    assert EntryStep(ss[n], es[n], ss[n + 1], k);
  }

  lemma HistoryGrows(ss: seq<State>, es: seq<Event>, n: nat, k: Key, b: nat, l: nat)
    requires Entries(ss, es, k) && n < |es| && History(ss, es, n, k, b, l)
    requires k in ss[n + 1].health
    requires FailsAt(ss, es, n, k) && !Expired(ss[n].health[k], es[n].now)
    ensures History(ss, es, n + 1, k, b, n)
  {
    assert EntryStep(ss[n], es[n], ss[n + 1], k);
  }

  lemma HistoryBegins(ss: seq<State>, es: seq<Event>, n: nat, k: Key)
    requires Entries(ss, es, k) && n < |es| && k in ss[n + 1].health
    requires FailsAt(ss, es, n, k) && (k in ss[n].health ==> Expired(ss[n].health[k], es[n].now))
    ensures History(ss, es, n + 1, k, n, n)
  {
    assert EntryStep(ss[n], es[n], ss[n + 1], k);
    assert FailCount(ss, es, n, n, k) == 0;
  }

  /** Every entry of every run is explained by the failures of its key since it began. */
  lemma {:induction false} EntryHistory(ss: seq<State>, es: seq<Event>, n: nat, k: Key) returns (b: nat, l: nat)
    requires Entries(ss, es, k) && n <= |es| && k in ss[n].health
    ensures History(ss, es, n, k, b, l)
  {
    var m := n - 1;
    assert EntryStep(ss[m], es[m], ss[n], k);
    if FailsAt(ss, es, m, k) && (k in ss[m].health ==> Expired(ss[m].health[k], es[m].now)) {
      HistoryBegins(ss, es, m, k);
      b, l := m, m;
    } else {
      b, l := EntryHistory(ss, es, m, k);
      if FailsAt(ss, es, m, k) {
        HistoryGrows(ss, es, m, k, b, l);
        l := m;
      } else {
        HistoryAgain(ss, es, m, k, b, l);
      }
    }
  }

  /** A candidate is in cooldown exactly when its entry counts at least two failures, and then for
      at most 30 seconds after the last of them. */
  lemma {:induction false} CoolsAfterTwoFailures(ss: seq<State>, es: seq<Event>, n: nat, k: Key, now: int)
    requires Run(ss, es) && n <= |es| && k in ss[n].health
    ensures exists b: nat, l: nat :: (
      && History(ss, es, n, k, b, l)
      && (Cooling(ss[n].health[k], now) <==>
            FailCount(ss, es, b, n, k) >= 2
            && now < es[l].now + Cooldown(ss[n].health[k].backoffLevel))
      && ss[n].health[k].backoffLevel == (if FailCount(ss, es, b, n, k) <= 5 then FailCount(ss, es, b, n, k) - 1 else 5)
      && 0 <= Cooldown(ss[n].health[k].backoffLevel) <= 30 * SECOND)
  {
    RunEntries(ss, es, k);
    var b, l := EntryHistory(ss, es, n, k);
    RunInv(ss, es, n);
    CooldownValues();
    var level := ss[n].health[k].backoffLevel;
    assert level == 0 || level == 1 || level == 2 || level == 3 || level == 4 || level == 5;
  }

  // ---- Eviction ----

  predicate Sequenced(ss: seq<State>, es: seq<Event>) {
    && |ss| == |es| + 1
    && forall i :: 0 <= i < |es| ==> ss[i + 1].sequence == ss[i].sequence + if FailsSome(ss[i], es[i]) then 1 else 0
  }

  lemma RunSequenced(ss: seq<State>, es: seq<Event>)
    requires Run(ss, es)
    ensures Sequenced(ss, es)
  {
    forall i | 0 <= i < |es| ensures ss[i + 1].sequence == ss[i].sequence + if FailsSome(ss[i], es[i]) then 1 else 0 {
      StepSequence(ss[i], es[i], ss[i + 1]);
    }
  }

  lemma {:induction false} SequenceGrows(ss: seq<State>, es: seq<Event>, i: nat, n: nat)
    requires Sequenced(ss, es) && i <= n <= |es|
    ensures ss[i].sequence <= ss[n].sequence
  {
    if i < n {
      SequenceGrows(ss, es, i, n - 1);
    }
  }

  /** Entries are ordered by sequence number as they are by their last failure. */
  lemma LaterFailure(ss: seq<State>, es: seq<Event>, n: nat, k1: Key, k2: Key, b1: nat, l1: nat, b2: nat, l2: nat)
    requires Sequenced(ss, es) && n <= |es| && k1 != k2
    requires History(ss, es, n, k1, b1, l1) && History(ss, es, n, k2, b2, l2)
    requires ss[n].health[k1].lastSequence <= ss[n].health[k2].lastSequence
    ensures l1 < l2
  {
    if l2 < l1 {
      SequenceGrows(ss, es, l2 + 1, l1);
    }
  }

  /** The last event before `n` that counts a failure of `k`. */
  predicate LastFailure(ss: seq<State>, es: seq<Event>, n: nat, k: Key, l: nat)
    requires |ss| == |es| + 1 && n <= |es|
  {
    l < n && FailsAt(ss, es, l, k) && forall j :: l < j < n ==> !FailsAt(ss, es, j, k)
  }

  /** `v` has an entry before event `n` and every other entry failed more recently. */
  ghost predicate LeastRecent(ss: seq<State>, es: seq<Event>, n: nat, v: Key)
    requires |ss| == |es| + 1 && n <= |es|
  {
    && v in ss[n].health
    && forall k, l1: nat, l2: nat ::
         (k in ss[n].health && k != v && LastFailure(ss, es, n, v, l1) && LastFailure(ss, es, n, k, l2)) ==> l1 < l2
  }

  lemma OldestIsLeastRecent(ss: seq<State>, es: seq<Event>, n: nat, v: Key)
    requires Run(ss, es) && n <= |es| && Oldest(ss[n].health, v)
    ensures LeastRecent(ss, es, n, v)
  {
    forall k, l1: nat, l2: nat | k in ss[n].health && k != v
        && LastFailure(ss, es, n, v, l1) && LastFailure(ss, es, n, k, l2)
      ensures l1 < l2
    {
      RunEntries(ss, es, v);
      RunEntries(ss, es, k);
      var b1, m1 := EntryHistory(ss, es, n, v);
      var b2, m2 := EntryHistory(ss, es, n, k);
      RunSequenced(ss, es);
      LaterFailure(ss, es, n, v, k, b1, m1, b2, m2);
    }
  }

  /** A failure of a new key in a full table removes the entry that failed least recently, and no
      other. */
  lemma {:induction false} EvictsLeastRecentlyFailing(ss: seq<State>, es: seq<Event>, n: nat)
    requires Run(ss, es) && n < |es| && FailsSome(ss[n], es[n])
    requires es[n].key !in ss[n].health && |ss[n].health| == MAX_HEALTH_ENTRIES
    requires ss[n + 1].networkEpoch == ss[n].networkEpoch
    ensures exists v :: (LeastRecent(ss, es, n, v)
      && ss[n + 1].health.Keys == ss[n].health.Keys - {v} + {es[n].key})
  {
    var s, e, s' := ss[n], es[n], ss[n + 1];
    var s1 := FailureStep(s, e, s');
    assert s'.health == s1.health;
    var v := VictimOf(s, e.key, e.now, s1);
    OldestIsLeastRecent(ss, es, n, v);
  }

  lemma VictimOf(s: State, key: Key, now: int, s1: State) returns (v: Key)
    requires key != "" && LocalFailure(s, key, now, s1)
    requires key !in s.health && |s.health| >= MAX_HEALTH_ENTRIES
    ensures Oldest(s.health, v) && s1.health.Keys == s.health.Keys - {v} + {key}
  {
    var room :| MakesRoom(s.health, key, room)
      && s1.health == room[key := Failed(Find(room, key), now, s.sequence + 1)];
    v :| Oldest(s.health, v) && room == s.health - {v};
    assert room.Keys == s.health.Keys - {v};
  }

  // ---- Network epochs ----

  predicate EpochAt(ss: seq<State>, es: seq<Event>, j: int)
    requires |ss| == |es| + 1
  {
    0 <= j < |es| && ss[j + 1].networkEpoch != ss[j].networkEpoch
  }

  /** A failure that the correlation window counts. */
  predicate CountedAt(ss: seq<State>, es: seq<Event>, j: int)
    requires |ss| == |es| + 1
  {
    0 <= j < |es| && FailsSome(ss[j], es[j]) && EpochAllowed(ss[j], es[j].now)
  }

  predicate ResetAt(ss: seq<State>, es: seq<Event>, j: int)
    requires |ss| == |es| + 1
  {
    0 <= j < |es| && (EpochAt(ss, es, j) || es[j].ResetTransient?)
  }

  function Counted(ss: seq<State>, es: seq<Event>, f: nat, n: nat): set<nat>
    requires |ss| == |es| + 1
  {
    set j: nat | f <= j < n && CountedAt(ss, es, j)
  }

  function KeysAt(ss: seq<State>, es: seq<Event>, f: nat, n: nat): set<Key>
    requires |ss| == |es| + 1
  {
    set j: nat | f <= j < n && CountedAt(ss, es, j) :: es[j].key
  }

  /** The event that opened the correlation window before event `n`, if one is open: the first
      counted failure after a reset, or one more than three seconds after the last opener. */
  function Opener(ss: seq<State>, es: seq<Event>, n: nat): (o: Option<nat>)
    requires |ss| == |es| + 1 && n <= |es|
    ensures o.Some? ==> o.value < n && CountedAt(ss, es, o.value)
    decreases n, 0
  {
    if n == 0 || ResetAt(ss, es, n - 1) then None
    else if CountedAt(ss, es, n - 1) then Some(OpenerFor(ss, es, n - 1))
    else Opener(ss, es, n - 1)
  }

  /** The opener of the window that counts the failure at event `n`. */
  function OpenerFor(ss: seq<State>, es: seq<Event>, n: nat): (f: nat)
    requires |ss| == |es| + 1 && CountedAt(ss, es, n)
    ensures f <= n && CountedAt(ss, es, f)
    decreases n, 1
  {
    var o := Opener(ss, es, n);
    if o.None? || es[n].now - es[o.value].now > CORRELATED_WINDOW then n else o.value
  }

  /** Every failure counted since the window was opened is read at most three seconds later than the
      opener, and nothing reset the window. */
  lemma {:induction false} OpenerMeans(ss: seq<State>, es: seq<Event>, n: nat)
    requires |ss| == |es| + 1 && n <= |es| && Opener(ss, es, n).Some?
    ensures var f := Opener(ss, es, n).value;
      && (forall j :: f <= j < n && CountedAt(ss, es, j) ==> es[j].now - es[f].now <= CORRELATED_WINDOW)
      && (forall j :: f <= j < n ==> !ResetAt(ss, es, j))
  {
    if !CountedAt(ss, es, n - 1) || OpenerFor(ss, es, n - 1) < n - 1 {
      OpenerMeans(ss, es, n - 1);
    }
  }

  /** The window that holds the failures counted since `f`. */
  function WindowFrom(ss: seq<State>, es: seq<Event>, f: nat, n: nat): Window
    requires |ss| == |es| + 1 && CountedAt(ss, es, f)
  {
    Window(es[f].now, |Counted(ss, es, f, n)|, KeysAt(ss, es, f, n))
  }

  lemma CountedStep(ss: seq<State>, es: seq<Event>, f: nat, n: nat)
    requires |ss| == |es| + 1 && f <= n < |es|
    ensures |Counted(ss, es, f, n + 1)| == |Counted(ss, es, f, n)| + if CountedAt(ss, es, n) then 1 else 0
    ensures KeysAt(ss, es, f, n + 1) == KeysAt(ss, es, f, n) + if CountedAt(ss, es, n) then {es[n].key} else {}
    ensures Counted(ss, es, n, n) == {} && KeysAt(ss, es, n, n) == {}
  {
    assert Counted(ss, es, f, n + 1) == Counted(ss, es, f, n) + if CountedAt(ss, es, n) then {n} else {};
    KeysStep(ss, es, f, n);
  }

  lemma KeysStep(ss: seq<State>, es: seq<Event>, f: nat, n: nat)
    requires |ss| == |es| + 1 && f <= n < |es|
    ensures KeysAt(ss, es, f, n + 1) == KeysAt(ss, es, f, n) + if CountedAt(ss, es, n) then {es[n].key} else {}
  {
  }

  predicate Counts(s: State, e: Event) { FailsSome(s, e) && EpochAllowed(s, e.now) }

  predicate Full(w: Window) { w.Window? && w.count >= CORRELATED_THRESHOLD && |w.proxies| >= 2 }

  /** A step's effect on the correlation window and the epoch. */
  predicate WindowStep(s: State, e: Event, s': State) {
    var epoch := s'.networkEpoch != s.networkEpoch;
    && (epoch || e.ResetTransient? ==> s'.window == NoWindow)
    && (!epoch ==> s'.lastNetworkEpoch == s.lastNetworkEpoch)
    && (epoch ==> (e.Ticked? || Counts(s, e)) && s'.lastNetworkEpoch == Some(e.now))
    && (!epoch && !e.ResetTransient? && !Counts(s, e) ==> s'.window == s.window)
    && (Counts(s, e) ==>
          var w := WindowAfter(s.window, e.key, e.now);
          (epoch <==> Full(w)) && (!epoch ==> s'.window == w))
  }

  ghost predicate Windows(ss: seq<State>, es: seq<Event>) {
    && |ss| == |es| + 1 && ss[0].window == NoWindow
    && forall i :: 0 <= i < |es| ==> WindowStep(ss[i], es[i], ss[i + 1])
  }

  lemma RunWindows(ss: seq<State>, es: seq<Event>)
    requires Run(ss, es)
    ensures Windows(ss, es)
  {
    forall i | 0 <= i < |es| ensures WindowStep(ss[i], es[i], ss[i + 1]) {
      StepWindow(ss[i], es[i], ss[i + 1]);
    }
  }

  lemma FailureWindow(s: State, e: Event, s': State)
    requires Next(s, e, s') && FailsSome(s, e)
    ensures WindowStep(s, e, s')
  {
    var s1 := FailureStep(s, e, s');
  }

  lemma StepWindow(s: State, e: Event, s': State)
    requires Next(s, e, s')
    ensures WindowStep(s, e, s')
  {
    if FailsSome(s, e) {
      FailureWindow(s, e, s');
    } else if e.Recorded? && AgainstProxy(e.kind) && !s.closed {
      assert e.key == "";
    }
  }

  /** The window before event `n`, told from the history. */
  function WindowAt(ss: seq<State>, es: seq<Event>, n: nat): Window
    requires |ss| == |es| + 1 && n <= |es|
  {
    match Opener(ss, es, n)
    case None => NoWindow
    case Some(f) => WindowFrom(ss, es, f, n)
  }

  lemma WindowNext(ss: seq<State>, es: seq<Event>, n: nat)
    requires |ss| == |es| + 1 && n < |es| && WindowStep(ss[n], es[n], ss[n + 1])
    requires ss[n].window == WindowAt(ss, es, n)
    ensures ss[n + 1].window == WindowAt(ss, es, n + 1)
  {
    if CountedAt(ss, es, n) {
      WindowGrows(ss, es, n);
    } else if Opener(ss, es, n).Some? {
      CountedStep(ss, es, Opener(ss, es, n).value, n);
    }
  }

  /** The window after a counted failure, told from the window before it. */
  lemma WindowGrows(ss: seq<State>, es: seq<Event>, n: nat)
    requires |ss| == |es| + 1 && CountedAt(ss, es, n)
    requires ss[n].window == WindowAt(ss, es, n)
    ensures WindowAfter(ss[n].window, es[n].key, es[n].now) == WindowFrom(ss, es, OpenerFor(ss, es, n), n + 1)
  {
    CountedStep(ss, es, OpenerFor(ss, es, n), n);
  }

  /** At every moment the window holds exactly the failures counted since it was opened. */
  lemma {:induction false} WindowHolds(ss: seq<State>, es: seq<Event>, n: nat)
    requires Windows(ss, es) && n <= |es|
    ensures ss[n].window == WindowAt(ss, es, n)
  {
    if n > 0 {
      WindowHolds(ss, es, n - 1);
      WindowNext(ss, es, n - 1);
    }
  }

  /** A reported outcome starts a network epoch exactly when it is a counted failure that brings
      its window to at least eight failures on at least two proxies. */
  lemma {:induction false} CorrelatedEpochIff(ss: seq<State>, es: seq<Event>, n: nat)
    requires Run(ss, es) && n < |es| && es[n].Recorded?
    ensures EpochAt(ss, es, n) <==> (CountedAt(ss, es, n) &&
      var f := OpenerFor(ss, es, n);
      |Counted(ss, es, f, n + 1)| >= 8 && |KeysAt(ss, es, f, n + 1)| >= 2)
  {
    RunWindows(ss, es);
    WindowHolds(ss, es, n);
    assert WindowStep(ss[n], es[n], ss[n + 1]);
    if CountedAt(ss, es, n) {
      WindowGrows(ss, es, n);
    }
  }

  lemma WithinWindow(ss: seq<State>, es: seq<Event>, n: nat)
    requires |ss| == |es| + 1 && CountedAt(ss, es, n)
    ensures var f := OpenerFor(ss, es, n);
      && (forall j :: f <= j <= n && CountedAt(ss, es, j) ==> es[j].now - es[f].now <= CORRELATED_WINDOW)
      && (forall j :: f <= j < n ==> !EpochAt(ss, es, j))
  {
    var f := OpenerFor(ss, es, n);
    if f < n {
      OpenerMeans(ss, es, n);
      forall j | f <= j <= n && CountedAt(ss, es, j) ensures es[j].now - es[f].now <= CORRELATED_WINDOW {
        assert j == n || j < n;
      }
      forall j | f <= j < n ensures !EpochAt(ss, es, j) {
        NotReset(ss, es, j);
      }
    }
  }

  lemma NotReset(ss: seq<State>, es: seq<Event>, j: nat)
    requires |ss| == |es| + 1 && !ResetAt(ss, es, j)
    ensures !EpochAt(ss, es, j)
  {
  }

  /** What a correlated epoch needs: at least eight counted failures on at least two proxies, none
      read more than three seconds later than the first of them, with no epoch in between. When
      readings arrive in order they all lie in one window of three seconds. */
  lemma {:induction false} CorrelatedEpochNeeds(ss: seq<State>, es: seq<Event>, n: nat)
    requires Run(ss, es) && EpochAt(ss, es, n) && es[n].Recorded?
    ensures CountedAt(ss, es, n)
    ensures var f := OpenerFor(ss, es, n);
      && |Counted(ss, es, f, n + 1)| >= 8 && |KeysAt(ss, es, f, n + 1)| >= 2
      && (forall j :: f <= j <= n && CountedAt(ss, es, j) ==> es[j].now - es[f].now <= 3 * SECOND)
      && (forall j :: f <= j < n ==> !EpochAt(ss, es, j))
      && (ClockNondecreasing(es) ==>
            forall j :: f <= j <= n && CountedAt(ss, es, j) ==> es[f].now <= es[j].now <= es[f].now + 3 * SECOND)
  {
    CorrelatedEpochIff(ss, es, n);
    WithinWindow(ss, es, n);
  }

  /** The last epoch before event `n`, if any, is the one the supervisor remembers. */
  lemma {:induction false} RemembersLastEpoch(ss: seq<State>, es: seq<Event>, n: nat, e: nat)
    requires Windows(ss, es) && e < n <= |es| && EpochAt(ss, es, e)
    requires forall j :: e < j < n ==> !EpochAt(ss, es, j)
    ensures ss[n].lastNetworkEpoch == Some(es[e].now)
  {
    if e < n - 1 {
      RemembersLastEpoch(ss, es, n - 1, e);
      assert !EpochAt(ss, es, n - 1);
    }
  }

  /** The readings of the events that read the clock arrive in order. */
  predicate ClockNondecreasing(es: seq<Event>) {
    forall i, j :: 0 <= i <= j < |es| && HasTime(es[i]) && HasTime(es[j]) ==> es[i].now <= es[j].now
  }

  predicate HasTime(e: Event) { e.Recorded? || e.Ticked? || e.Ordered? }

  /** Epoch `l` is the latest one before event `n`. */
  ghost predicate LatestEpoch(ss: seq<State>, es: seq<Event>, n: nat, l: nat)
    requires |ss| == |es| + 1
  {
    l < n <= |es| && EpochAt(ss, es, l) && forall j :: l < j < n ==> !EpochAt(ss, es, j)
  }

  /** A correlated epoch starts at least 30 seconds after the latest epoch before it, and after every
      earlier one that was read no later than that. */
  lemma {:induction false} EpochsSpaced(ss: seq<State>, es: seq<Event>, n: nat, e: nat, l: nat)
    requires Run(ss, es) && n < |es| && EpochAt(ss, es, n) && es[n].Recorded?
    requires LatestEpoch(ss, es, n, l) && EpochAt(ss, es, e) && (es[e].Ticked? || es[e].Recorded?)
    requires es[e].now <= es[l].now
    ensures es[n].now - es[e].now >= 30 * SECOND
  {
    RunWindows(ss, es);
    RemembersLastEpoch(ss, es, n, l);
  }

  /** Only outcomes and ticks start epochs. */
  lemma EpochReads(ss: seq<State>, es: seq<Event>, e: nat)
    requires Run(ss, es) && EpochAt(ss, es, e)
    ensures es[e].Recorded? || es[e].Ticked?
  {
    RunWindows(ss, es);
    assert WindowStep(ss[e], es[e], ss[e + 1]);
  }

  // ---- Clock readings out of order ----

  /** A failure can always be the next event: it finds room in every table. */
  lemma CanFail(s: State, key: Key, now: int) returns (s': State)
    requires Inv(s) && !s.closed && key != ""
    ensures Next(s, Recorded(ProxyDialFailure, key, now), s') && Inv(s')
    ensures s'.closed == s.closed && s'.lastTick == s.lastTick
    ensures WindowStep(s, Recorded(ProxyDialFailure, key, now), s')
  {
    var room := s.health;
    if key !in s.health && |s.health| >= MAX_HEALTH_ENTRIES {
      assert |s.health.Keys| == |s.health|;
      var v := SomeOldest(s.health);
      room := s.health - {v};
    }
    assert MakesRoom(s.health, key, room);
    var s1 := s.(sequence := s.sequence + 1, health := room[key := Failed(Find(room, key), now, s.sequence + 1)]);
    assert LocalFailure(s, key, now, s1);
    s' := Correlate(s1, key, now);
    var e := Recorded(ProxyDialFailure, key, now);
    StepKeeps(s, e, s');
    StepWindow(s, e, s');
  }

  lemma {:induction false} SomeOldest(m: map<Key, Health>) returns (v: Key)
    requires m.Keys != {}
    ensures Oldest(m, v)
    decreases m.Keys
  {
    var k :| k in m.Keys;
    v := k;
    var rest := m - {k};
    if rest.Keys != {} {
      assert rest.Keys == m.Keys - {k};
      var w := SomeOldest(rest);
      if m[w].lastSequence < m[k].lastSequence {
        v := w;
      }
      forall l | l in m ensures m[v].lastSequence <= m[l].lastSequence {
        assert l == k || l in rest;
      }
    } else {
      forall l | l in m ensures l == k {
        assert l !in rest;
      }
    }
  }

  lemma Extend(ss: seq<State>, es: seq<Event>, e: Event, s: State)
    requires Run(ss, es) && Next(ss[|es|], e, s)
    ensures Run(ss + [s], es + [e])
  {
    forall i | 0 <= i < |es| + 1 ensures Next((ss + [s])[i], (es + [e])[i], (ss + [s])[i + 1]) {
      if i < |es| {
        assert (ss + [s])[i] == ss[i] && (ss + [s])[i + 1] == ss[i + 1] && (es + [e])[i] == es[i];
      }
    }
  }

  function KeyNumber(j: nat): Key { if j % 2 == 0 then "a" else "b" }

  function KeysUpTo(j: nat): set<Key> { if j == 0 then {} else KeysUpTo(j - 1) + {KeyNumber(j - 1)} }

  lemma TwoKeys()
    ensures |KeysUpTo(7) + {KeyNumber(7)}| >= 2
  {
    assert KeysUpTo(2) == {"a", "b"};
    assert "a" != "b";
    KeysGrow(2, 7);
    assert {"a", "b"} <= KeysUpTo(7) + {KeyNumber(7)};
    CardinalitySubset({"a", "b"}, KeysUpTo(7) + {KeyNumber(7)});
  }

  lemma {:induction false} KeysGrow(i: nat, j: nat)
    requires i <= j
    ensures KeysUpTo(i) <= KeysUpTo(j)
  {
    if i < j {
      KeysGrow(i, j - 1);
    }
  }

  /** The run `ss'`, `es'` begins with the run `ss`, `es`. */
  predicate Continues(ss: seq<State>, es: seq<Event>, ss': seq<State>, es': seq<Event>) {
    |es| <= |es'| && |ss| <= |ss'| && es == es'[..|es|] && ss == ss'[..|ss|]
  }

  /** No epoch starts from event `n` up to, not including, event `m`. */
  ghost predicate Quiet(ss: seq<State>, es: seq<Event>, n: nat, m: nat)
    requires |ss| == |es| + 1
  {
    forall i :: n <= i < m ==> !EpochAt(ss, es, i)
  }

  /** `j` failures at time `t` after a state that remembers epoch `last` and tick `tick`. */
  predicate Waiting(s: State, last: Option<int>, tick: Option<int>, t: int, j: nat) {
    && Inv(s) && !s.closed && s.lastNetworkEpoch == last && s.lastTick == tick && EpochAllowed(s, t)
    && s.window == if j == 0 then NoWindow else Window(t, j, KeysUpTo(j))
  }

  function FailureAt(j: nat, t: int): Event { Recorded(ProxyDialFailure, KeyNumber(j), t) }

  lemma OneMore(s: State, s': State, last: Option<int>, tick: Option<int>, t: int, j: nat)
    requires Waiting(s, last, tick, t, j) && j < 7 && Inv(s') && !s'.closed && s'.lastTick == s.lastTick
    requires WindowStep(s, FailureAt(j, t), s')
    ensures Waiting(s', last, tick, t, j + 1) && s'.networkEpoch == s.networkEpoch
  {
  }

  lemma TheEighth(s: State, s': State, last: Option<int>, tick: Option<int>, t: int)
    requires Waiting(s, last, tick, t, 7) && WindowStep(s, FailureAt(7, t), s')
    ensures s'.networkEpoch != s.networkEpoch && s'.lastNetworkEpoch == Some(t) && s'.window == NoWindow
  {
    TwoKeys();
  }

  lemma ContinuesMore(ss: seq<State>, es: seq<Event>, rs: seq<State>, fs: seq<Event>, s: State, e: Event)
    requires |ss| == |es| + 1 && |rs| == |fs| + 1 && Continues(ss, es, rs, fs)
    ensures Continues(ss, es, rs + [s], fs + [e])
    ensures Quiet(rs, fs, |es|, |fs|) ==> Quiet(rs + [s], fs + [e], |es|, |fs|)
  {
    forall i: nat | |es| <= i < |fs| && Quiet(rs, fs, |es|, |fs|) ensures !EpochAt(rs + [s], fs + [e], i) {
      assert !EpochAt(rs, fs, i);
    }
  }

  /** `rs`, `fs` is a run that goes on from `ss`, `es` with `j` failures at time `t`. */
  ghost predicate FailedOn(ss: seq<State>, es: seq<Event>, rs: seq<State>, fs: seq<Event>, t: int, j: nat) {
    && |ss| == |es| + 1 && Run(rs, fs) && |fs| == |es| + j && Continues(ss, es, rs, fs)
    && forall i :: |es| <= i < |fs| ==> fs[i] == FailureAt(i - |es|, t)
  }

  lemma FailNext(ss: seq<State>, es: seq<Event>, rs: seq<State>, fs: seq<Event>, t: int, j: nat)
    returns (s: State)
    requires FailedOn(ss, es, rs, fs, t, j) && Inv(rs[|fs|]) && !rs[|fs|].closed
    ensures FailedOn(ss, es, rs + [s], fs + [FailureAt(j, t)], t, j + 1)
    ensures WindowStep(rs[|fs|], FailureAt(j, t), s) && Inv(s) && !s.closed && s.lastTick == rs[|fs|].lastTick
    ensures Quiet(rs, fs, |es|, |fs|) ==> Quiet(rs + [s], fs + [FailureAt(j, t)], |es|, |fs|)
  {
    s := CanFailNext(rs, fs, KeyNumber(j), t);
    FailedMore(ss, es, rs, fs, t, j, s);
  }

  lemma CanFailNext(rs: seq<State>, fs: seq<Event>, key: Key, t: int) returns (s: State)
    requires Run(rs, fs) && Inv(rs[|fs|]) && !rs[|fs|].closed && key != ""
    ensures Run(rs + [s], fs + [Recorded(ProxyDialFailure, key, t)])
    ensures WindowStep(rs[|fs|], Recorded(ProxyDialFailure, key, t), s)
    ensures Inv(s) && !s.closed && s.lastTick == rs[|fs|].lastTick
  {
    s := CanFail(rs[|fs|], key, t);
    Extend(rs, fs, Recorded(ProxyDialFailure, key, t), s);
  }

  lemma FailedMore(ss: seq<State>, es: seq<Event>, rs: seq<State>, fs: seq<Event>, t: int, j: nat, s: State)
    requires FailedOn(ss, es, rs, fs, t, j) && Run(rs + [s], fs + [FailureAt(j, t)])
    ensures FailedOn(ss, es, rs + [s], fs + [FailureAt(j, t)], t, j + 1)
    ensures Quiet(rs, fs, |es|, |fs|) ==> Quiet(rs + [s], fs + [FailureAt(j, t)], |es|, |fs|)
  {
    ContinuesMore(ss, es, rs, fs, s, FailureAt(j, t));
    FailuresMore(es, fs, t, j);
  }

  lemma FailuresMore(es: seq<Event>, fs: seq<Event>, t: int, j: nat)
    requires |fs| == |es| + j && forall i :: |es| <= i < |fs| ==> fs[i] == FailureAt(i - |es|, t)
    ensures var gs := fs + [FailureAt(j, t)]; forall i :: |es| <= i < |gs| ==> gs[i] == FailureAt(i - |es|, t)
  {
  }

  /** Fewer than eight failures: no epoch yet. */
  lemma {:induction false} SomeFailures(ss: seq<State>, es: seq<Event>, t: int, j: nat)
    returns (rs: seq<State>, fs: seq<Event>)
    requires Run(ss, es) && j < 8
    requires Waiting(ss[|es|], ss[|es|].lastNetworkEpoch, ss[|es|].lastTick, t, 0)
    ensures FailedOn(ss, es, rs, fs, t, j) && Quiet(rs, fs, |es|, |fs|)
    ensures Waiting(rs[|fs|], ss[|es|].lastNetworkEpoch, ss[|es|].lastTick, t, j)
  {
    if j == 0 {
      rs, fs := ss, es;
    } else {
      rs, fs := SomeFailures(ss, es, t, j - 1);
      var s := FailNext(ss, es, rs, fs, t, j - 1);
      OneMore(rs[|fs|], s, ss[|es|].lastNetworkEpoch, ss[|es|].lastTick, t, j - 1);
      QuietMore(rs, fs, |es|, s, FailureAt(j - 1, t));
      rs, fs := rs + [s], fs + [FailureAt(j - 1, t)];
    }
  }

  lemma QuietMore(rs: seq<State>, fs: seq<Event>, n: nat, s: State, e: Event)
    requires |rs| == |fs| + 1 && Quiet(rs + [s], fs + [e], n, |fs|)
    ensures s.networkEpoch == rs[|fs|].networkEpoch ==> Quiet(rs + [s], fs + [e], n, |fs| + 1)
    ensures s.networkEpoch != rs[|fs|].networkEpoch ==> EpochAt(rs + [s], fs + [e], |fs|)
  {
  }

  /** Eight failures on two proxies at a time when an epoch is allowed start one, and not before the
      last of them. */
  lemma EightFailures(ss: seq<State>, es: seq<Event>, t: int) returns (rs: seq<State>, fs: seq<Event>)
    requires Run(ss, es) && !ss[|es|].closed && ss[|es|].window == NoWindow && EpochAllowed(ss[|es|], t)
    ensures FailedOn(ss, es, rs, fs, t, 8) && Quiet(rs, fs, |es|, |fs| - 1) && EpochAt(rs, fs, |fs| - 1)
    ensures var s := rs[|fs|];
      s.lastNetworkEpoch == Some(t) && s.window == NoWindow && !s.closed && s.lastTick == ss[|es|].lastTick
  {
    RunInv(ss, es, |es|);
    rs, fs := SomeFailures(ss, es, t, 7);
    var s := FailNext(ss, es, rs, fs, t, 7);
    TheEighth(rs[|fs|], s, ss[|es|].lastNetworkEpoch, ss[|es|].lastTick, t);
    QuietMore(rs, fs, |es|, s, FailureAt(7, t));
    rs, fs := rs + [s], fs + [FailureAt(7, t)];
  }

  /** The run goes on to a correlated epoch, the first after it, that is read less than 30 seconds
      after epoch `e`. */
  ghost predicate GoesOnTooEarly(ss: seq<State>, es: seq<Event>, e: nat, rs: seq<State>, fs: seq<Event>, n: nat)
    requires |ss| == |es| + 1 && EpochAt(ss, es, e) && (es[e].Ticked? || es[e].Recorded?)
  {
    && Run(rs, fs) && Continues(ss, es, rs, fs) && |es| <= n < |fs|
    && Quiet(rs, fs, |es|, n) && EpochAt(rs, fs, n) && fs[n].Recorded? && fs[n].now < es[e].now + 30 * SECOND
  }

  lemma SameEpochs(ss: seq<State>, es: seq<Event>, rs: seq<State>, fs: seq<Event>, j: nat)
    requires |ss| == |es| + 1 && |rs| == |fs| + 1 && Continues(ss, es, rs, fs) && j < |es|
    ensures es[j] == fs[j] && (EpochAt(ss, es, j) <==> EpochAt(rs, fs, j))
  {
    assert ss[j] == rs[j] && ss[j + 1] == rs[j + 1];
  }

  lemma TooEarlyNeeds(ss: seq<State>, es: seq<Event>, e: nat, l: nat, rs: seq<State>, fs: seq<Event>, n: nat)
    requires Run(ss, es) && LatestEpoch(ss, es, |es|, l) && EpochAt(ss, es, e)
    requires (es[e].Ticked? || es[e].Recorded?) && (es[l].Ticked? || es[l].Recorded?)
    requires GoesOnTooEarly(ss, es, e, rs, fs, n)
    ensures es[l].now < es[e].now
  {
    SameEpochs(ss, es, rs, fs, e);
    SameEpochs(ss, es, rs, fs, l);
    forall j: nat | l < j < n ensures !EpochAt(rs, fs, j) {
      if j < |es| {
        SameEpochs(ss, es, rs, fs, j);
      }
    }
    if es[e].now <= es[l].now {
      EpochsSpaced(rs, fs, n, e, l);
    }
  }

  lemma TooEarlyHappens(ss: seq<State>, es: seq<Event>, e: nat, l: nat)
    returns (rs: seq<State>, fs: seq<Event>, n: nat)
    requires Run(ss, es) && !ss[|es|].closed && LatestEpoch(ss, es, |es|, l) && EpochAt(ss, es, e)
    requires (es[e].Ticked? || es[e].Recorded?) && (es[l].Ticked? || es[l].Recorded?) && es[l].now < es[e].now
    ensures GoesOnTooEarly(ss, es, e, rs, fs, n)
  {
    RemembersLatest(ss, es, l);
    rs, fs, n := ResetThenFail(ss, es, es[l].now + 30 * SECOND);
  }

  lemma RemembersLatest(ss: seq<State>, es: seq<Event>, l: nat)
    requires Run(ss, es) && LatestEpoch(ss, es, |es|, l) && (es[l].Ticked? || es[l].Recorded?)
    ensures ss[|es|].lastNetworkEpoch == Some(es[l].now)
  {
    RunWindows(ss, es);
    RemembersLastEpoch(ss, es, |es|, l);
  }

  /** From any state that is not closed, and at any time that allows an epoch, a run can go on to one. */
  lemma ResetThenFail(ss: seq<State>, es: seq<Event>, t: int) returns (rs: seq<State>, fs: seq<Event>, n: nat)
    requires Run(ss, es) && !ss[|es|].closed && EpochAllowed(ss[|es|], t)
    ensures Run(rs, fs) && Continues(ss, es, rs, fs) && |es| <= n < |fs|
    ensures Quiet(rs, fs, |es|, n) && EpochAt(rs, fs, n) && fs[n] == FailureAt(7, t)
  {
    var s := ResetNext(ss, es);
    rs, fs := EightFailures(ss + [s], es + [ResetTransient], t);
    n := |fs| - 1;
    AfterReset(ss, es, s, rs, fs, n);
  }

  lemma ResetNext(ss: seq<State>, es: seq<Event>) returns (s: State)
    requires Run(ss, es)
    ensures Run(ss + [s], es + [ResetTransient]) && s == ss[|es|].(health := map[], window := NoWindow)
  {
    s := ss[|es|].(health := map[], window := NoWindow);
    Extend(ss, es, ResetTransient, s);
  }

  /** A run that goes on after a reset goes on, and no epoch starts with the reset. */
  lemma AfterReset(ss: seq<State>, es: seq<Event>, s: State, rs: seq<State>, fs: seq<Event>, n: nat)
    requires |ss| == |es| + 1 && |rs| == |fs| + 1 && s.networkEpoch == ss[|es|].networkEpoch
    requires Continues(ss + [s], es + [ResetTransient], rs, fs) && Quiet(rs, fs, |es| + 1, n)
    ensures Continues(ss, es, rs, fs) && Quiet(rs, fs, |es|, n)
  {
    var m := |es|;
    assert es == fs[..m + 1][..m] == fs[..m];
    assert ss == rs[..m + 2][..m + 1] == rs[..m + 1];
    SameEpochs(ss + [s], es + [ResetTransient], rs, fs, m);
  }

  /** When the spacing can fail. For every run of a supervisor that is not closed, with an epoch `e`
      and a latest epoch `l`: the run can go on to a correlated epoch, the first after it, less than
      30 seconds after `e` if and only if `l` was read before `e`. */
  lemma {:induction false} SpacingFailsIff(ss: seq<State>, es: seq<Event>, e: nat, l: nat)
    requires Run(ss, es) && !ss[|es|].closed && LatestEpoch(ss, es, |es|, l) && EpochAt(ss, es, e)
    ensures (es[e].Ticked? || es[e].Recorded?) && (es[l].Ticked? || es[l].Recorded?)
    ensures (exists rs: seq<State>, fs: seq<Event>, n: nat :: GoesOnTooEarly(ss, es, e, rs, fs, n))
      <==> es[l].now < es[e].now
  {
    EpochReads(ss, es, e);
    EpochReads(ss, es, l);
    if rs: seq<State>, fs: seq<Event>, n: nat :| GoesOnTooEarly(ss, es, e, rs, fs, n) {
      TooEarlyNeeds(ss, es, e, l, rs, fs, n);
    }
    if es[l].now < es[e].now {
      var rs, fs, n := TooEarlyHappens(ss, es, e, l);
    }
  }

  // ---- A run in which it fails ----

  /** Event `n` starts a correlated epoch less than 30 seconds after the epoch at event `e`. */
  ghost predicate CloseEpochs(ss: seq<State>, es: seq<Event>, n: nat, e: nat) {
    && Run(ss, es) && e < n < |es| && EpochAt(ss, es, e) && EpochAt(ss, es, n) && es[n].Recorded? && es[e].Recorded?
    && es[n].now - es[e].now < 30 * SECOND
  }

  predicate TicksInOrder(es: seq<Event>) {
    forall i, j :: 0 <= i <= j < |es| && es[i].Ticked? && es[j].Ticked? ==> es[i].now <= es[j].now
  }

  lemma EarlyTick() returns (ss: seq<State>, es: seq<Event>)
    ensures Run(ss, es) && es == [Ticked(0)] && ss[1] == Tick(INIT, 0)
  {
    ss, es := [INIT], [];
    Extend(ss, es, Ticked(0), Tick(INIT, 0));
    ss, es := ss + [Tick(INIT, 0)], es + [Ticked(0)];
  }

  /** A tick whose reading is seven seconds, taken before the failures at nine seconds were recorded
      and handed over after them. */
  lemma StaleTick() returns (ss: seq<State>, es: seq<Event>)
    ensures Run(ss, es) && |es| == 10 && es[0] == Ticked(0) && es[9] == Ticked(7 * SECOND)
    ensures forall i :: 1 <= i < 9 ==> es[i].Recorded?
    ensures EpochAt(ss, es, 8) && es[8] == FailureAt(7, 9 * SECOND)
    ensures !ss[10].closed && ss[10].window == NoWindow && ss[10].lastNetworkEpoch == Some(7 * SECOND)
  {
    var rs, fs := EarlyTick();
    ss, es := EightFailures(rs, fs, 9 * SECOND);
    assert es[0] == es[..1][0];
    var s := Tick(ss[9], 7 * SECOND);
    Extend(ss, es, Ticked(7 * SECOND), s);
    assert EpochAt(ss, es, 8);
    ss, es := ss + [s], es + [Ticked(7 * SECOND)];
  }

  /** The ticks of this run are in order and each outcome is read before it is recorded, yet the
      second correlated epoch starts 28 seconds after the first. */
  lemma StaleTickBreaksSpacing()
    ensures exists ss: seq<State>, es: seq<Event>, n: nat, e: nat :: CloseEpochs(ss, es, n, e) && TicksInOrder(es)
  {
    var rs, fs := StaleTick();
    var ss, es := EightFailures(rs, fs, 37 * SECOND);
    SameEpochs(rs, fs, ss, es, 8);
    forall i | 0 <= i < 10 ensures es[i] == fs[i] {
      assert es[i] == es[..10][i];
    }
    assert CloseEpochs(ss, es, 17, 8);
    assert TicksInOrder(es);
  }

  /** The last tick that counted before event `n`. */
  function LastTick(ss: seq<State>, es: seq<Event>, n: nat): Option<int>
    requires |ss| == |es| + 1 && n <= |es|
  {
    if n == 0 then None
    else if es[n - 1].Ticked? && !ss[n - 1].closed then Some(es[n - 1].now)
    else LastTick(ss, es, n - 1)
  }

  predicate TickStep(s: State, e: Event, s': State) {
    if e.Ticked? && !s.closed then s'.lastTick == Some(e.now) && s'.progressSequence == s.progressSequence + 1
    else s'.lastTick == s.lastTick && s'.progressSequence == s.progressSequence
  }

  lemma StepTick(s: State, e: Event, s': State)
    requires Next(s, e, s')
    ensures TickStep(s, e, s')
  {
    if FailsSome(s, e) {
      var s1 := FailureStep(s, e, s');
    }
  }

  ghost predicate Ticks(ss: seq<State>, es: seq<Event>) {
    && |ss| == |es| + 1 && ss[0].lastTick == None
    && forall i :: 0 <= i < |es| ==> TickStep(ss[i], es[i], ss[i + 1])
  }

  lemma RunTicks(ss: seq<State>, es: seq<Event>)
    requires Run(ss, es)
    ensures Ticks(ss, es)
  {
    forall i | 0 <= i < |es| ensures TickStep(ss[i], es[i], ss[i + 1]) {
      StepTick(ss[i], es[i], ss[i + 1]);
    }
  }

  lemma {:induction false} RemembersLastTick(ss: seq<State>, es: seq<Event>, n: nat)
    requires Ticks(ss, es) && n <= |es|
    ensures ss[n].lastTick == LastTick(ss, es, n)
  {
    if n > 0 {
      RemembersLastTick(ss, es, n - 1);
      assert TickStep(ss[n - 1], es[n - 1], ss[n]);
    }
  }

  /** A tick starts an epoch exactly when it comes more than five seconds after the tick before it:
      the process, or the machine, was asleep. */
  lemma {:induction false} TickEpochIff(ss: seq<State>, es: seq<Event>, n: nat)
    requires Run(ss, es) && n < |es| && es[n].Ticked? && !ss[n].closed
    ensures EpochAt(ss, es, n) <==>
      (LastTick(ss, es, n).Some? && es[n].now - LastTick(ss, es, n).value > 5 * SECOND)
  {
    RunTicks(ss, es);
    RemembersLastTick(ss, es, n);
    assert Next(ss[n], es[n], ss[n + 1]);
  }

  // ---- What makes an entry go ----

  /** What at event `n` takes the entry of `k` away: a reset or an epoch, its own success, or a lookup
      among several candidates that finds it expired. */
  ghost predicate TakenAway(ss: seq<State>, es: seq<Event>, n: nat, k: Key)
    requires |ss| == |es| + 1 && n < |es| && k in ss[n].health
  {
    || ResetAt(ss, es, n)
    || (!ss[n].closed && es[n].Recorded? && es[n].kind.Success? && es[n].key == k)
    || (es[n].Ordered? && |es[n].candidates| >= 2 && Expired(ss[n].health[k], es[n].now)
        && exists c :: c in es[n].candidates && !c.direct && c.key == k)
  }

  /** Or it makes room: it is the least recently failing entry of a full table, and another failed. */
  ghost predicate MakesWay(ss: seq<State>, es: seq<Event>, n: nat, k: Key)
    requires |ss| == |es| + 1 && n < |es| && k in ss[n].health
  {
    FailsSome(ss[n], es[n]) && |ss[n].health| == 256 && es[n].key !in ss[n].health && LeastRecent(ss, es, n, k)
  }

  lemma FailureLeaves(s: State, key: Key, now: int, s1: State, k: Key)
    requires key != "" && LocalFailure(s, key, now, s1) && k in s.health && k !in s1.health
    ensures |s.health| >= MAX_HEALTH_ENTRIES && key !in s.health && Oldest(s.health, k)
  {
    if key !in s.health && |s.health| >= MAX_HEALTH_ENTRIES {
      var v := VictimOf(s, key, now, s1);
    }
  }

  lemma StepLeaves(s: State, e: Event, s': State, k: Key)
    requires Next(s, e, s') && k in s.health && !FailsSome(s, e)
    ensures k !in s'.health <==>
      || s'.networkEpoch != s.networkEpoch || e.ResetTransient?
      || (!s.closed && e.Recorded? && e.kind.Success? && e.key == k)
      || (e.Ordered? && |e.candidates| >= 2 && Expired(s.health[k], e.now)
          && exists c :: c in e.candidates && !c.direct && c.key == k)
  {
    if e.Recorded? && AgainstProxy(e.kind) && !s.closed {
      assert e.key == "";
    }
  }

  lemma EpochClears(s: State, e: Event, s': State)
    requires Next(s, e, s') && s'.networkEpoch != s.networkEpoch
    ensures s'.health == map[]
  {
    if FailsSome(s, e) {
      var s1 := FailureStep(s, e, s');
    }
  }

  /** Two oldest entries would have failed last at the same event. */
  lemma OneLeastRecent(ss: seq<State>, es: seq<Event>, n: nat, v: Key, k: Key)
    requires Run(ss, es) && n <= |es| && LeastRecent(ss, es, n, v) && LeastRecent(ss, es, n, k)
    ensures v == k
  {
    if v != k {
      RunEntries(ss, es, v);
      RunEntries(ss, es, k);
      var b1, l1 := EntryHistory(ss, es, n, v);
      var b2, l2 := EntryHistory(ss, es, n, k);
      assert LastFailure(ss, es, n, v, l1) && LastFailure(ss, es, n, k, l2);
    }
  }

  lemma FullTableLoses(ss: seq<State>, es: seq<Event>, n: nat, k: Key)
    requires Run(ss, es) && n < |es| && k in ss[n].health && MakesWay(ss, es, n, k)
    ensures k !in ss[n + 1].health
  {
    if !EpochAt(ss, es, n) {
      EvictsLeastRecentlyFailing(ss, es, n);
      var v :| LeastRecent(ss, es, n, v) && ss[n + 1].health.Keys == ss[n].health.Keys - {v} + {es[n].key};
      OneLeastRecent(ss, es, n, v, k);
    } else {
      EpochClears(ss[n], es[n], ss[n + 1]);
    }
  }

  /** For every event of every run: the entry of a candidate goes if and only if the event takes it
      away or it makes way. */
  lemma {:induction false} EntryLeavesIff(ss: seq<State>, es: seq<Event>, n: nat, k: Key)
    requires Run(ss, es) && n < |es| && k in ss[n].health
    ensures k !in ss[n + 1].health <==> TakenAway(ss, es, n, k) || MakesWay(ss, es, n, k)
  {
    var s, e, s' := ss[n], es[n], ss[n + 1];
    if FailsSome(s, e) {
      if s'.networkEpoch == s.networkEpoch && k !in s'.health {
        var s1 := FailureStep(s, e, s');
        assert s'.health == s1.health;
        FailureLeaves(s, e.key, e.now, s1, k);
        RunInv(ss, es, n);
        OldestIsLeastRecent(ss, es, n, k);
      } else if s'.networkEpoch != s.networkEpoch {
        EpochClears(s, e, s');
      } else if MakesWay(ss, es, n, k) {
        FullTableLoses(ss, es, n, k);
      }
    } else {
      StepLeaves(s, e, s', k);
    }
  }

  /** A candidate gets an entry exactly by a failure of its own that starts no epoch. */
  lemma {:induction false} EntryAppearsIff(ss: seq<State>, es: seq<Event>, n: nat, k: Key)
    requires Run(ss, es) && n < |es| && k !in ss[n].health
    ensures k in ss[n + 1].health <==> FailsAt(ss, es, n, k) && !EpochAt(ss, es, n)
  {
    var s, e, s' := ss[n], es[n], ss[n + 1];
    if k in s'.health {
      StepEntry(s, e, s', k);
    }
    if EpochAt(ss, es, n) {
      EpochClears(s, e, s');
    } else if FailsSome(s, e) {
      var s1 := FailureStep(s, e, s');
    }
  }

  // ---- What counts for nothing ----

  /** An outcome that says nothing about the health of a proxy or of the process. */
  predicate SaysNothing(e: Event) {
    e.Recorded? && (e.kind in {ClientCancelled, DestinationFailure, RouteFailure, AuthExhausted}
                    || (e.key == "" && !e.kind.InternalFailure?))
  }

  /** The supervisor is closed exactly from the first close on; from then on outcomes and ticks change
      nothing, as before do outcomes that say nothing. */
  lemma {:induction false} IgnoresWhatSaysNothing(ss: seq<State>, es: seq<Event>, n: nat)
    requires Run(ss, es) && n < |es|
    ensures ss[n].closed <==> exists j :: 0 <= j < n && es[j].Closed?
    ensures (ss[n].closed && (es[n].Recorded? || es[n].Ticked?)) || SaysNothing(es[n]) ==> ss[n + 1] == ss[n]
  {
    ClosedSince(ss, es, n);
    assert Next(ss[n], es[n], ss[n + 1]);
    if es[n].Recorded? && es[n].key == "" {
      RunInv(ss, es, n);
      assert ss[n].health - {""} == ss[n].health;
    }
  }

  lemma {:induction false} ClosedSince(ss: seq<State>, es: seq<Event>, n: nat)
    requires Run(ss, es) && n <= |es|
    ensures ss[n].closed <==> exists j :: 0 <= j < n && es[j].Closed?
  {
    if n > 0 {
      ClosedSince(ss, es, n - 1);
      StepCloses(ss[n - 1], es[n - 1], ss[n]);
    }
  }

  lemma StepCloses(s: State, e: Event, s': State)
    requires Next(s, e, s')
    ensures s'.closed <==> s.closed || e.Closed?
  {
    if FailsSome(s, e) {
      var s1 := FailureStep(s, e, s');
    }
  }

  // ---- The fatal signal ----

  predicate InternalAt(ss: seq<State>, es: seq<Event>, j: int)
    requires |ss| == |es| + 1
  {
    0 <= j < |es| && !ss[j].closed && es[j].Recorded? && es[j].kind.InternalFailure?
  }

  function Internals(ss: seq<State>, es: seq<Event>, f: nat, n: nat): set<nat>
    requires |ss| == |es| + 1
  {
    set j: nat | f <= j < n && InternalAt(ss, es, j)
  }

  /** The event that opened the window of internal failures before event `n`, if any has: the first
      one, or one more than 30 seconds after the last opener. */
  function InternalOpener(ss: seq<State>, es: seq<Event>, n: nat): (o: Option<nat>)
    requires |ss| == |es| + 1 && n <= |es|
    ensures o.Some? ==> o.value < n && InternalAt(ss, es, o.value)
    decreases n, 0
  {
    if n == 0 then None
    else if InternalAt(ss, es, n - 1) then Some(InternalOpenerFor(ss, es, n - 1))
    else InternalOpener(ss, es, n - 1)
  }

  function InternalOpenerFor(ss: seq<State>, es: seq<Event>, n: nat): (f: nat)
    requires |ss| == |es| + 1 && InternalAt(ss, es, n)
    ensures f <= n && InternalAt(ss, es, f)
    decreases n, 1
  {
    var o := InternalOpener(ss, es, n);
    if o.None? || es[n].now - es[o.value].now > 30 * SECOND then n else o.value
  }

  /** Every internal failure since its window was opened is read at most 30 seconds later. */
  lemma {:induction false} InternalOpenerMeans(ss: seq<State>, es: seq<Event>, n: nat)
    requires |ss| == |es| + 1 && n <= |es| && InternalOpener(ss, es, n).Some?
    ensures var f := InternalOpener(ss, es, n).value;
      forall j :: f <= j < n && InternalAt(ss, es, j) ==> es[j].now - es[f].now <= 30 * SECOND
  {
    if !InternalAt(ss, es, n - 1) || InternalOpenerFor(ss, es, n - 1) < n - 1 {
      InternalOpenerMeans(ss, es, n - 1);
    }
  }

  /** The count of internal failures is that of the events since the opener. */
  predicate InternalCount(ss: seq<State>, es: seq<Event>, n: nat)
    requires |ss| == |es| + 1 && n <= |es|
  {
    match InternalOpener(ss, es, n)
    case None => ss[n].internalStart.None?
    case Some(f) => ss[n].internalStart == Some(es[f].now) && ss[n].internalFailures == |Internals(ss, es, f, n)|
  }

  /** A step's effect on the count of internal failures. */
  predicate InternalStep(s: State, e: Event, s': State) {
    if !s.closed && e.Recorded? && e.kind.InternalFailure? then
      && s'.internalStart == Internal(s, e.now).internalStart
      && s'.internalFailures == Internal(s, e.now).internalFailures
      && s'.fatalRequested == (s.fatalRequested || s'.internalFailures >= 3)
    else
      && s'.internalStart == s.internalStart && s'.internalFailures == s.internalFailures
      && s'.fatalRequested == s.fatalRequested
  }

  ghost predicate InternalSteps(ss: seq<State>, es: seq<Event>) {
    && |ss| == |es| + 1 && ss[0].internalStart == None
    && forall i :: 0 <= i < |es| ==> InternalStep(ss[i], es[i], ss[i + 1])
  }

  lemma RunInternal(ss: seq<State>, es: seq<Event>)
    requires Run(ss, es)
    ensures InternalSteps(ss, es)
  {
    forall i | 0 <= i < |es| ensures InternalStep(ss[i], es[i], ss[i + 1]) {
      StepInternal(ss[i], es[i], ss[i + 1]);
    }
  }

  lemma StepInternal(s: State, e: Event, s': State)
    requires Next(s, e, s')
    ensures InternalStep(s, e, s')
  {
    if FailsSome(s, e) {
      var s1 := FailureStep(s, e, s');
    }
  }

  lemma InternalsStep(ss: seq<State>, es: seq<Event>, f: nat, n: nat)
    requires |ss| == |es| + 1 && f <= n < |es|
    ensures |Internals(ss, es, f, n + 1)| == |Internals(ss, es, f, n)| + if InternalAt(ss, es, n) then 1 else 0
    ensures Internals(ss, es, n, n) == {}
  {
    InternalsNext(ss, es, f, n);
    Added(Internals(ss, es, f, n), n);
  }

  lemma InternalsNext(ss: seq<State>, es: seq<Event>, f: nat, n: nat)
    requires |ss| == |es| + 1 && f <= n < |es|
    ensures Internals(ss, es, f, n + 1) == Internals(ss, es, f, n) + if InternalAt(ss, es, n) then {n} else {}
    ensures n !in Internals(ss, es, f, n)
  {
  }

  lemma Added(xs: set<nat>, n: nat)
    requires n !in xs
    ensures |xs + {n}| == |xs| + 1 && xs + {} == xs
  {
  }

  lemma InternalCountNext(ss: seq<State>, es: seq<Event>, n: nat)
    requires |ss| == |es| + 1 && n < |es| && InternalStep(ss[n], es[n], ss[n + 1]) && InternalCount(ss, es, n)
    ensures InternalCount(ss, es, n + 1)
  {
    if InternalAt(ss, es, n) {
      InternalsStep(ss, es, InternalOpenerFor(ss, es, n), n);
    } else if InternalOpener(ss, es, n).Some? {
      InternalsStep(ss, es, InternalOpener(ss, es, n).value, n);
    }
  }

  lemma {:induction false} InternalCounted(ss: seq<State>, es: seq<Event>, n: nat)
    requires InternalSteps(ss, es) && n <= |es|
    ensures InternalCount(ss, es, n)
  {
    if n > 0 {
      InternalCounted(ss, es, n - 1);
      InternalCountNext(ss, es, n - 1);
    }
  }

  /** The fatal signal is requested exactly by an internal failure that is at least the third since
      the opener of its window, and never withdrawn: over a whole run at most one signal exists. */
  lemma {:induction false} FatalNeedsThree(ss: seq<State>, es: seq<Event>, n: nat)
    requires Run(ss, es) && n < |es|
    ensures ss[n].fatalRequested ==> ss[n + 1].fatalRequested
    ensures |ss[n + 1].fatalCh| + |ss[n + 1].delivered| <= 1
    ensures !ss[n].fatalRequested ==> (ss[n + 1].fatalRequested <==>
      (InternalAt(ss, es, n) && |Internals(ss, es, InternalOpenerFor(ss, es, n), n + 1)| >= 3))
  {
    RunInv(ss, es, n + 1);
    RunInternal(ss, es);
    InternalCounted(ss, es, n + 1);
    assert InternalStep(ss[n], es[n], ss[n + 1]);
  }
}
