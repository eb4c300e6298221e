/** Every interleaving of lookups, completions and clears of the DNS cache. */
module DnsCacheRuns {
  import opened Options
  import opened DnsCache

  /** A run: `ss[i]` is the state before event `es[i]`. */
  ghost predicate Run(ss: seq<State>, es: seq<Event>) {
    && |ss| == |es| + 1 && ss[0] == Init(ss[0].ttlResolver)
    && forall i :: 0 <= i < |es| ==> Next(ss[i], es[i], ss[i + 1])
  }

  predicate Unfinished(s: State, id: int) { 0 <= id < |s.calls| && s.calls[id].result.None? }

  predicate FlyingFor(s: State, h: Host, id: int) {
    Unfinished(s, id) && s.calls[id].host == h && s.calls[id].generation == s.generation
  }

  predicate SameWork(a: Call, b: Call) { a.host == b.host && a.generation == b.generation }

  /** The table of calls in flight is exact for the current generation, and two unfinished calls
      never share host and generation. */
  ghost predicate CallsOk(s: State) {
    && (forall h :: h in s.inflight ==> FlyingFor(s, h, s.inflight[h]))
    && (forall id :: Unfinished(s, id) && s.calls[id].generation == s.generation ==>
                       s.calls[id].host in s.inflight && s.inflight[s.calls[id].host] == id)
    && (forall id :: 0 <= id < |s.calls| ==> s.calls[id].generation <= s.generation)
    && OneCallEach(s)
  }

  ghost predicate OneCallEach(s: State) {
    forall id1, id2 :: Unfinished(s, id1) && Unfinished(s, id2) && SameWork(s.calls[id1], s.calls[id2]) ==> id1 == id2
  }

  lemma BeginKeeps(s: State, e: Event, s': State)
    requires CallsOk(s) && e.Begun? && Next(s, e, s')
    ensures CallsOk(s')
  {
    if e.reply.Start? {
      var n := |s.calls|;
      assert forall id :: 0 <= id < n ==> s'.calls[id] == s.calls[id];
      assert s'.calls[n] == Call(e.host, s.generation, None);
      forall id | Unfinished(s', id) && id < n ensures Unfinished(s, id) {}
    }
  }

  lemma CompleteKeeps(s: State, e: Event, s': State)
    requires CallsOk(s) && e.Completed? && Next(s, e, s')
    ensures CallsOk(s')
  {
    assert forall id :: 0 <= id < |s.calls| && id != e.id ==> s'.calls[id] == s.calls[id];
    forall id | Unfinished(s', id) ensures Unfinished(s, id) && id != e.id {}
  }

  lemma {:induction false} StepKeeps(s: State, e: Event, s': State)
    requires CallsOk(s) && Next(s, e, s')
    ensures CallsOk(s')
  {
    match e
    case Begun(_, _, _) => BeginKeeps(s, e, s');
    case Completed(_, _, _, _) => CompleteKeeps(s, e, s');
    case Cleared =>
      assert forall id :: Unfinished(s', id) ==> Unfinished(s, id);
    case _ =>
  }

  /** At every moment of every run there is at most one unfinished call per host and generation. */
  lemma {:induction false} RunInv(ss: seq<State>, es: seq<Event>, n: nat)
    requires Run(ss, es) && n <= |es|
    ensures CallsOk(ss[n])
  {
    if n > 0 {
      RunInv(ss, es, n - 1);
      StepKeeps(ss[n - 1], es[n - 1], ss[n]);
    }
  }

  // ---- Where an answer comes from ----

  /** A step's effect on the calls. */
  ghost predicate CallStep(s: State, e: Event, s': State) {
    && |s.calls| <= |s'.calls| && s'.ttlResolver == s.ttlResolver
    && s'.generation == s.generation + (if e.Cleared? then 1 else 0)
    && (forall id :: 0 <= id < |s.calls| ==> SameWork(s'.calls[id], s.calls[id]))
    && (forall id :: 0 <= id < |s.calls| ==>
          s'.calls[id].result == if e.Completed? && e.id == id then Some(Settled(e.outcome)) else s.calls[id].result)
    && (e.Completed? ==> Unfinished(s, e.id))
    && (forall id :: |s.calls| <= id < |s'.calls| ==>
          e.Begun? && e.reply == Start(id) && s'.calls[id] == Call(e.host, s.generation, None))
  }

  /** The entry that a completion stores. */
  function Stored(s: State, e: Event): Entry
    requires e.Completed?
  {
    Entry(Settled(e.outcome), e.at + Lifetime(s.ttlResolver, e.outcome))
  }

  /** A step's effect on the cache: an entry stays, or is stored by a call of this generation. */
  ghost predicate CacheStep(s: State, e: Event, s': State) {
    forall h :: h in s'.cache ==>
      if h in s.cache && s'.cache[h] == s.cache[h] && !e.Cleared? then true
      else
        && e.Completed? && Unfinished(s, e.id) && FlyingFor(s, h, e.id)
        && Cacheable(s.ttlResolver, e.outcome, e.cancelled) && s'.cache[h] == Stored(s, e)
  }

  lemma StepCalls(s: State, e: Event, s': State)
    requires Next(s, e, s')
    ensures CallStep(s, e, s')
  {
  }

  lemma StoresSub(m: map<Host, Entry>, host: Host, e: Entry, at: int, m': map<Host, Entry>)
    requires Stores(m, host, e, at, m')
    ensures forall h :: h in m' && h != host ==> h in m && m'[h] == m[h]
    ensures host in m' && m'[host] == e
  {
    var room :| MakesRoom(m, at, room) && m' == room[host := e];
    if |m| >= MAX_ENTRIES {
      EvictsSub(Unexpired(m, at), room);
    }
  }

  lemma StepCache(s: State, e: Event, s': State)
    requires Next(s, e, s')
    ensures CacheStep(s, e, s')
  {
    if e.Completed? {
      var call := s.calls[e.id];
      if Cacheable(s.ttlResolver, e.outcome, e.cancelled) && call.generation == s.generation {
        StoresSub(s.cache, call.host, Stored(s, e), e.at, s'.cache);
      }
    }
  }

  /** What the history lemmas need of a run. */
  ghost predicate Steps(ss: seq<State>, es: seq<Event>) {
    && |ss| == |es| + 1 && ss[0].calls == [] && ss[0].cache == map[]
    && (forall i :: 0 <= i < |es| ==> CallStep(ss[i], es[i], ss[i + 1]))
    && (forall i :: 0 <= i < |es| ==> CacheStep(ss[i], es[i], ss[i + 1]))
  }

  lemma RunSteps(ss: seq<State>, es: seq<Event>)
    requires Run(ss, es)
    ensures Steps(ss, es)
  {
    forall i | 0 <= i < |es| ensures CallStep(ss[i], es[i], ss[i + 1]) && CacheStep(ss[i], es[i], ss[i + 1]) {
      StepCalls(ss[i], es[i], ss[i + 1]);
      StepCache(ss[i], es[i], ss[i + 1]);
    }
  }

  /** Event `b` started call `id`. */
  predicate BeganAt(ss: seq<State>, es: seq<Event>, n: nat, id: nat, b: nat)
    requires |ss| == |es| + 1 && n <= |es|
  {
    && b < n && id < |ss[n].calls| && es[b].Begun? && es[b].reply == Start(id)
    && ss[n].calls[id].host == es[b].host && ss[n].calls[id].generation == ss[b].generation
  }

  lemma NewCall(s: State, e: Event, s': State, id: nat)
    requires CallStep(s, e, s') && |s.calls| <= id < |s'.calls|
    ensures e.Begun? && e.reply == Start(id) && s'.calls[id] == Call(e.host, s.generation, None)
  {
  }

  lemma {:induction false} CallBegan(ss: seq<State>, es: seq<Event>, n: nat, id: nat) returns (b: nat)
    requires Steps(ss, es) && n <= |es| && id < |ss[n].calls|
    ensures BeganAt(ss, es, n, id, b)
  {
    assert CallStep(ss[n - 1], es[n - 1], ss[n]);
    if id < |ss[n - 1].calls| {
      b := CallBegan(ss, es, n - 1, id);
      assert SameWork(ss[n].calls[id], ss[n - 1].calls[id]);
    } else {
      b := n - 1;
      NewCall(ss[b], es[b], ss[n], id);
    }
  }

  predicate NoClear(es: seq<Event>, b: nat, n: nat) { forall i :: b <= i < n && i < |es| ==> !es[i].Cleared? }

  lemma {:induction false} GenerationGrows(ss: seq<State>, es: seq<Event>, b: nat, n: nat)
    requires Steps(ss, es) && b <= n <= |es|
    ensures ss[b].generation <= ss[n].generation
    ensures ss[b].generation == ss[n].generation ==> NoClear(es, b, n)
  {
    if b < n {
      GenerationGrows(ss, es, b, n - 1);
      assert CallStep(ss[n - 1], es[n - 1], ss[n]);
    }
  }

  /** The entry of `h` before event `n` is what a call for `h` returned that began at `b`, after the
      last clear, and completed at `j`. */
  ghost predicate Origin(ss: seq<State>, es: seq<Event>, n: nat, h: Host, b: nat, j: nat)
    requires |ss| == |es| + 1 && n <= |es|
  {
    && b < j < n && h in ss[n].cache
    && es[b].Begun? && es[b].host == h && es[j].Completed? && es[b].reply == Start(es[j].id)
    && Cacheable(ss[j].ttlResolver, es[j].outcome, es[j].cancelled)
    && ss[n].cache[h] == Stored(ss[j], es[j])
    && NoClear(es, b, n)
  }

  lemma {:induction false} EntryOrigin(ss: seq<State>, es: seq<Event>, n: nat, h: Host) returns (b: nat, j: nat)
    requires Steps(ss, es) && n <= |es| && h in ss[n].cache
    ensures Origin(ss, es, n, h, b, j)
  {
    var m := n - 1;
    assert CacheStep(ss[m], es[m], ss[n]);
    if h in ss[m].cache && ss[n].cache[h] == ss[m].cache[h] && !es[m].Cleared? {
      b, j := EntryOrigin(ss, es, m, h);
    } else {
      j := m;
      b := CallBegan(ss, es, m, es[m].id);
      GenerationGrows(ss, es, b, m);
    }
  }

  predicate HitAt(es: seq<Event>, n: nat, h: Host, now: int, answer: Answer) {
    n < |es| && (es[n] == Peeked(h, now, answer) || es[n] == Begun(h, now, Hit(answer)))
  }

  /** Every hit is what a resolver call for that host said, one that began after the last clear, and
      comes before the lifetime of that answer, counted from the completion, is over. */
  lemma {:induction false} HitsAreSound(ss: seq<State>, es: seq<Event>, n: nat, h: Host, now: int, answer: Answer)
    requires Run(ss, es) && HitAt(es, n, h, now, answer)
    ensures exists b: nat, j: nat, d: int :: (Origin(ss, es, n, h, b, j) && Tells(answer, es[j].outcome)
      && now < es[j].at + d && GoodFor(ss[j].ttlResolver, es[j].outcome, d)
      && MIN_POSITIVE_TTL <= d <= MAX_POSITIVE_TTL)
  {
    RunSteps(ss, es);
    assert Next(ss[n], es[n], ss[n + 1]);
    var b, j := EntryOrigin(ss, es, n, h);
    LifetimeBounds(ss[j].ttlResolver, es[j].outcome, es[j].cancelled);
    assert GoodFor(ss[j].ttlResolver, es[j].outcome, Lifetime(ss[j].ttlResolver, es[j].outcome));
  }

  // ---- An answer is used as long as it is good ----

  /** The completion at `j` caches its answer for `h`: nobody cancelled, the resolver failed or gave an
      answer worth keeping, and its call belongs to the current generation. */
  predicate CachesAt(ss: seq<State>, es: seq<Event>, j: nat, h: Host)
    requires |ss| == |es| + 1
  {
    && j < |es| && es[j].Completed? && FlyingFor(ss[j], h, es[j].id) && !es[j].cancelled
    && (es[j].outcome.err.Some? || !ss[j].ttlResolver || es[j].outcome.ttl > 0)
  }

  /** Nothing between `j` and `n` clears the cache, completes a call for `h`, or finds the cache full. */
  ghost predicate Undisturbed(ss: seq<State>, es: seq<Event>, j: nat, n: nat, h: Host)
    requires |ss| == |es| + 1
  {
    forall i :: j < i < n && i < |es| ==>
      !es[i].Cleared? && (es[i].Completed? ==> |ss[i].cache| < 4096 && !FlyingFor(ss[i], h, es[i].id))
  }

  lemma StoreKeeps(s: State, e: Event, s': State, h: Host)
    requires Next(s, e, s') && h in s.cache && !e.Cleared?
    requires e.Completed? ==> |s.cache| < MAX_ENTRIES && !FlyingFor(s, h, e.id)
    ensures h in s'.cache && s'.cache[h] == s.cache[h]
  {
  }

  lemma {:induction false} EntryStays(ss: seq<State>, es: seq<Event>, j: nat, n: nat, h: Host)
    requires Run(ss, es) && j < n <= |es| && CachesAt(ss, es, j, h) && Undisturbed(ss, es, j, n, h)
    ensures h in ss[n].cache && ss[n].cache[h] == Stored(ss[j], es[j])
  {
    var m := n - 1;
    assert Next(ss[m], es[m], ss[n]);
    if j < m {
      EntryStays(ss, es, j, m, h);
      StoreKeeps(ss[m], es[m], ss[n], h);
    } else {
      StoresSub(ss[j].cache, h, Stored(ss[j], es[j]), es[j].at, ss[n].cache);
    }
  }

  /** A lookup within the lifetime of a cached answer is served that answer. */
  lemma {:induction false} AnswersAreReused(ss: seq<State>, es: seq<Event>, j: nat, n: nat, h: Host, d: int)
    requires Run(ss, es) && j < n < |es| && CachesAt(ss, es, j, h) && Undisturbed(ss, es, j, n, h)
    requires GoodFor(ss[j].ttlResolver, es[j].outcome, d)
    requires es[n].Begun? && es[n].host == h && es[n].now < es[j].at + d
    ensures es[n].reply.Hit? && Tells(es[n].reply.answer, es[j].outcome)
  {
    EntryStays(ss, es, j, n, h);
    LifetimeBounds(ss[j].ttlResolver, es[j].outcome, es[j].cancelled);
    assert Next(ss[n], es[n], ss[n + 1]);
  }

  // ---- What a joined caller gets ----

  predicate CompletedAt(es: seq<Event>, j: nat, id: nat) { j < |es| && es[j].Completed? && es[j].id == id }

  lemma {:induction false} ResultOrigin(ss: seq<State>, es: seq<Event>, n: nat, id: nat) returns (j: nat)
    requires Steps(ss, es) && n <= |es| && id < |ss[n].calls| && ss[n].calls[id].result.Some?
    ensures j < n && CompletedAt(es, j, id) && ss[n].calls[id].result == Some(Settled(es[j].outcome))
  {
    var m := n - 1;
    assert CallStep(ss[m], es[m], ss[n]);
    if CompletedAt(es, m, id) {
      j := m;
    } else {
      j := ResultOrigin(ss, es, m, id);
    }
  }

  lemma {:induction false} ResultStays(ss: seq<State>, es: seq<Event>, j: nat, n: nat, id: nat)
    requires Steps(ss, es) && j < n <= |es| && CompletedAt(es, j, id)
    ensures id < |ss[n].calls| && ss[n].calls[id].result.Some?
  {
    assert CallStep(ss[n - 1], es[n - 1], ss[n]);
    assert CallStep(ss[j], es[j], ss[j + 1]);
    if j < n - 1 {
      ResultStays(ss, es, j, n - 1, id);
    }
  }

  /** A call completes at most once. */
  lemma {:induction false} CompletesOnce(ss: seq<State>, es: seq<Event>, i: nat, j: nat, id: nat)
    requires Run(ss, es) && i < j && CompletedAt(es, i, id)
    ensures !CompletedAt(es, j, id)
  {
    RunSteps(ss, es);
    if CompletedAt(es, j, id) {
      assert CallStep(ss[j], es[j], ss[j + 1]);
      ResultStays(ss, es, i, j, id);
    }
  }

  /** A caller that joined call `id` joined an unfinished call for its host that began after the
      last clear, and gets exactly what the one completion of that call returns. */
  lemma {:induction false} JoinersGetTheirCall(ss: seq<State>, es: seq<Event>, a: nat, n: nat)
    requires Run(ss, es) && a < n < |es|
    requires es[a].Begun? && es[a].reply.Join? && es[n].Waited? && es[n].id == es[a].reply.id
    ensures exists b: nat, j: nat :: (b < a < j < n && BeganAt(ss, es, a, es[n].id, b) && es[b].host == es[a].host
      && NoClear(es, b, a) && CompletedAt(es, j, es[n].id) && Tells(es[n].answer, es[j].outcome))
  {
    RunSteps(ss, es);
    RunInv(ss, es, a);
    var id := es[n].id;
    JoinsUnfinished(ss[a], es[a], ss[a + 1]);
    var b := CallBegan(ss, es, a, id);
    GenerationGrows(ss, es, b, a);
    assert Next(ss[n], es[n], ss[n + 1]);
    var j := ResultOrigin(ss, es, n, id);
    if j < a {
      ResultStays(ss, es, j, a, id);
    }
  }

  /** The caller that started the call gets the same. */
  lemma {:induction false} StarterGetsItsCall(ss: seq<State>, es: seq<Event>, a: nat, n: nat)
    requires Run(ss, es) && a < n < |es|
    requires es[a].Begun? && es[a].reply.Start? && es[n].Waited? && es[n].id == es[a].reply.id
    ensures exists j: nat :: a < j < n && CompletedAt(es, j, es[n].id) && Tells(es[n].answer, es[j].outcome)
  {
    RunSteps(ss, es);
    assert Next(ss[n], es[n], ss[n + 1]) && Next(ss[a], es[a], ss[a + 1]);
    var j := ResultOrigin(ss, es, n, es[n].id);
    if j < a {
      ResultStays(ss, es, j, a, es[n].id);
    }
  }

  /** Call `id` for `h`, begun at `b`, is still wanted before event `n`: no clear since, not completed. */
  ghost predicate Wanted(es: seq<Event>, n: nat, h: Host, id: nat, b: nat) {
    && b < n <= |es| && es[b].Begun? && es[b].host == h && es[b].reply == Start(id)
    && NoClear(es, b, n) && forall j: nat :: j < n ==> !CompletedAt(es, j, id)
  }

  lemma {:induction false} WantedFlies(ss: seq<State>, es: seq<Event>, n: nat, h: Host, id: nat, b: nat)
    requires Run(ss, es) && n <= |es| && Wanted(es, n, h, id, b)
    ensures FlyingFor(ss[n], h, id)
  {
    var m := n - 1;
    assert Next(ss[m], es[m], ss[n]);
    StepCalls(ss[m], es[m], ss[n]);
    if b < m {
      WantedFlies(ss, es, m, h, id, b);
      assert !CompletedAt(es, m, id);
    }
  }

  lemma {:induction false} FlyingIsWanted(ss: seq<State>, es: seq<Event>, n: nat, h: Host, id: nat) returns (b: nat)
    requires Run(ss, es) && n <= |es| && FlyingFor(ss[n], h, id)
    ensures Wanted(es, n, h, id, b)
  {
    RunSteps(ss, es);
    b := CallBegan(ss, es, n, id);
    GenerationGrows(ss, es, b, n);
    forall j: nat | j < n ensures !CompletedAt(es, j, id) {
      if CompletedAt(es, j, id) {
        ResultStays(ss, es, j, n, id);
      }
    }
  }

  /** A lookup that is no hit joins the call for its host that is still wanted, and starts one only if
      there is none. */
  lemma {:induction false} LookupsCoalesce(ss: seq<State>, es: seq<Event>, n: nat, id: nat)
    requires Run(ss, es) && n < |es| && es[n].Begun? && !es[n].reply.Hit?
    ensures es[n].reply == Join(id) <==> exists b: nat :: Wanted(es, n, es[n].host, id, b)
    ensures es[n].reply.Start? ==> forall b: nat :: !Wanted(es, n, es[n].host, id, b)
  {
    var h := es[n].host;
    RunInv(ss, es, n);
    assert Next(ss[n], es[n], ss[n + 1]);
    if es[n].reply == Join(id) {
      var b := FlyingIsWanted(ss, es, n, h, id);
    }
    forall b: nat | Wanted(es, n, h, id, b) ensures es[n].reply == Join(id) {
      WantedFlies(ss, es, n, h, id, b);
    }
  }

  lemma JoinsUnfinished(s: State, e: Event, s': State)
    requires CallsOk(s) && e.Begun? && e.reply.Join? && Next(s, e, s')
    ensures FlyingFor(s, e.host, e.reply.id)
  {
  }

  // ---- Size ----

  predicate AsksOnlyNames(es: seq<Event>, n: nat) {
    forall i :: 0 <= i < n && i < |es| && es[i].Begun? ==> es[i].host != ""
  }

  lemma StoreFits(m: map<Host, Entry>, host: Host, e: Entry, at: int, m': map<Host, Entry>)
    requires Stores(m, host, e, at, m') && |m| <= MAX_ENTRIES && "" !in m && host != ""
    ensures |m'| <= MAX_ENTRIES && "" !in m'
  {
    var room :| MakesRoom(m, at, room) && m' == room[host := e];
    if |m| >= MAX_ENTRIES {
      EvictsEarliest(Unexpired(m, at), room);
      UnexpiredSmaller(m, at);
    }
    assert m'.Keys == room.Keys + {host};
    assert |m'.Keys| == |m'| && |room.Keys| == |room|;
  }

  /** As long as no caller asks for the empty host, the cache never holds more than 4096 entries. */
  lemma {:induction false} SizeBounded(ss: seq<State>, es: seq<Event>, n: nat)
    requires Run(ss, es) && n <= |es| && AsksOnlyNames(es, n)
    ensures |ss[n].cache| <= 4096 && "" !in ss[n].cache
  {
    if n > 0 {
      var m := n - 1;
      SizeBounded(ss, es, m);
      RunSteps(ss, es);
      assert Next(ss[m], es[m], ss[n]);
      if es[m].Completed? {
        var b := CallBegan(ss, es, m, es[m].id);
        SizeStep(ss[m], es[m], ss[n]);
      }
    }
  }

  lemma SizeStep(s: State, e: Event, s': State)
    requires e.Completed? && Next(s, e, s') && s.calls[e.id].host != ""
    requires |s.cache| <= MAX_ENTRIES && "" !in s.cache
    ensures |s'.cache| <= MAX_ENTRIES && "" !in s'.cache
  {
    if Cacheable(s.ttlResolver, e.outcome, e.cancelled) && s.calls[e.id].generation == s.generation {
      StoreFits(s.cache, s.calls[e.id].host, Stored(s, e), e.at, s'.cache);
    }
  }

  /** The completion stores an answer that may take the cache past its bound. */
  predicate OverflowingStep(s: State, e: Event) {
    && e.Completed? && Unfinished(s, e.id) && Cacheable(s.ttlResolver, e.outcome, e.cancelled)
    && s.calls[e.id].generation == s.generation && Overflows(s.cache, s.calls[e.id].host, e.at)
  }

  lemma StepOverflowNeeds(s: State, e: Event, s': State)
    requires Next(s, e, s') && |s.cache| <= MAX_ENTRIES && |s'.cache| > MAX_ENTRIES
    ensures OverflowingStep(s, e)
  {
    assert e.Completed?;
    OverflowNeeds(s.cache, s.calls[e.id].host, Stored(s, e), e.at, s'.cache);
  }

  lemma StepOverflowHappens(s: State, e: Event) returns (s': State)
    requires |s.cache| <= MAX_ENTRIES && OverflowingStep(s, e)
    ensures Next(s, e, s') && |s'.cache| > MAX_ENTRIES
  {
    var call := s.calls[e.id];
    var m := OverflowHappens(s.cache, call.host, Stored(s, e), e.at);
    s' := s.(cache := m, inflight := Landed(s.inflight, call.host, e.id),
             calls := s.calls[e.id := call.(result := Some(Settled(e.outcome)))]);
    assert CompleteNext(s, e.id, e.outcome, e.cancelled, e.at, s');
  }

  lemma Extend(ss: seq<State>, es: seq<Event>, e: Event, s: State)
    requires Run(ss, es) && Next(ss[|es|], e, s)
    ensures Run(ss + [s], es + [e])
  {
    forall i | 0 <= i < |es| + 1 ensures Next((ss + [s])[i], (es + [e])[i], (ss + [s])[i + 1]) {
      if i < |es| {
        assert (ss + [s])[i] == ss[i] && (ss + [s])[i + 1] == ss[i + 1] && (es + [e])[i] == es[i];
      }
    }
  }

  /** For every run that has kept the bound so far and every next event: the run can go on past
      4096 entries if and only if the event is such a completion. */
  lemma {:induction false} OverflowIff(ss: seq<State>, es: seq<Event>, e: Event)
    requires Run(ss, es) && |ss[|es|].cache| <= 4096
    ensures (exists s' :: Run(ss + [s'], es + [e]) && |s'.cache| > 4096) <==> OverflowingStep(ss[|es|], e)
  {
    var s := ss[|es|];
    if s' :| Run(ss + [s'], es + [e]) && |s'.cache| > 4096 {
      var n := |es|;
      assert (ss + [s'])[n] == s && (es + [e])[n] == e && (ss + [s'])[n + 1] == s';
      StepOverflowNeeds(s, e, s');
    }
    if OverflowingStep(s, e) {
      var s' := StepOverflowHappens(s, e);
      Extend(ss, es, e, s');
    }
  }

  /** A host name of `n` letters; the first one is the empty host. */
  function Name(n: nat): (h: Host)
    ensures |h| == n
  {
    if n == 0 then "" else Name(n - 1) + "a"
  }

  const NO_ADDRESS := Outcome([], 0, None)
  const ENTRY := Entry(Answer([], None), POSITIVE_TTL)

  function Table(n: nat): map<Host, Entry> {
    if n == 0 then map[] else Table(n - 1)[Name(n - 1) := ENTRY]
  }

  function Calls(n: nat): (cs: seq<Call>)
    ensures |cs| == n
  {
    if n == 0 then [] else Calls(n - 1) + [Call(Name(n - 1), 0, Some(ENTRY.answer))]
  }

  function Filled(n: nat): State { State(Table(n), map[], 0, Calls(n), false) }

  lemma {:induction false} TableHost(n: nat, h: Host)
    ensures h in Table(n) <==> |h| < n && h == Name(|h|)
    ensures h in Table(n) ==> Table(n)[h] == ENTRY
  {
    if n > 0 {
      TableHost(n - 1, h);
      if h == Name(n - 1) {
        assert |h| == n - 1;
      }
    }
  }

  lemma {:induction false} TableSize(n: nat)
    ensures |Table(n)| == n
  {
    if n > 0 {
      TableSize(n - 1);
      TableHost(n - 1, Name(n - 1));
      Grows(Table(n - 1), Name(n - 1));
    }
  }

  lemma Grows(m: map<Host, Entry>, h: Host)
    requires h !in m
    ensures |m[h := ENTRY]| == |m| + 1
  {
    var k := m[h := ENTRY];
    assert k.Keys == m.Keys + {h};
    assert |k.Keys| == |k| && |m.Keys| == |m|;
  }

  function Downwards(n: nat): (order: seq<Host>)
    ensures |order| == n
  {
    if n == 0 then [] else [Name(n - 1)] + Downwards(n - 1)
  }

  lemma {:induction false} DownwardsAt(n: nat)
    ensures forall i :: 0 <= i < n ==> Downwards(n)[i] == Name(n - 1 - i)
  {
    if n > 0 {
      DownwardsAt(n - 1);
    }
  }

  lemma DownwardsEnumerates(n: nat)
    ensures Enumerates(Downwards(n), Table(n))
  {
    DownwardsAt(n);
    forall h ensures h in Table(n) <==> h in Downwards(n) {
      TableHost(n, h);
      if h in Table(n) {
        assert Downwards(n)[n - 1 - |h|] == h;
      }
    }
  }

  lemma AllAlike(n: nat, h: Host)
    requires n > 0
    ensures "" in Table(n) && Table(n)[""] == ENTRY
    ensures h in Table(n) ==> Table(n)[h] == ENTRY
  {
    TableHost(n, "");
    TableHost(n, h);
  }

  /** A table with the empty host enumerated last has no victim. */
  lemma NoVictim(n: nat)
    requires n > 0
    ensures Enumerates(Downwards(n), Table(n)) && Scan(Table(n), Downwards(n)) == ""
    ensures Unexpired(Table(n), 0) == Table(n)
  {
    DownwardsEnumerates(n);
    DownwardsAt(n);
    forall h ensures "" in Table(n) && Table(n)[""] == ENTRY && (h in Table(n) ==> Table(n)[h] == ENTRY) {
      AllAlike(n, h);
    }
    ScanFailsIff(Table(n), Downwards(n));
  }

  lemma NothingEvicted()
    ensures MakesRoom(Table(MAX_ENTRIES), 0, Table(MAX_ENTRIES))
  {
    var n := MAX_ENTRIES;
    var m := Table(n);
    TableSize(n);
    NoVictim(n);
    assert EvictsBy(m, Downwards(n), m);
  }

  /** The state between the two events that add host `n`. */
  function Asked(n: nat): State {
    State(Table(n), map[Name(n) := n], 0, Calls(n) + [Call(Name(n), 0, None)], false)
  }

  lemma FillBegins(n: nat)
    ensures Next(Filled(n), Begun(Name(n), 0, Start(n)), Asked(n))
  {
    TableHost(n, Name(n));
  }

  lemma FillEnds(n: nat)
    requires n <= MAX_ENTRIES
    ensures Next(Asked(n), Completed(n, NO_ADDRESS, false, 0), Filled(n + 1))
  {
    TableSize(n);
    if n == MAX_ENTRIES {
      NothingEvicted();
    }
    FillStores(n);
    var s := Asked(n);
    assert Filled(n + 1).calls == s.calls[n := s.calls[n].(result := Some(ENTRY.answer))];
    assert s.inflight - {Name(n)} == map[];
    assert CompleteNext(s, n, NO_ADDRESS, false, 0, Filled(n + 1));
  }

  lemma FillStores(n: nat)
    requires MakesRoom(Table(n), 0, Table(n))
    ensures Stores(Table(n), Name(n), ENTRY, 0, Table(n + 1))
  {
  }

  lemma {:induction false} FillAll(n: nat) returns (ss: seq<State>, es: seq<Event>)
    requires n <= MAX_ENTRIES + 1
    ensures Run(ss, es) && ss[|es|] == Filled(n)
  {
    if n == 0 {
      ss, es := [Filled(0)], [];
    } else {
      ss, es := FillAll(n - 1);
      FillBegins(n - 1);
      Extend(ss, es, Begun(Name(n - 1), 0, Start(n - 1)), Asked(n - 1));
      ss, es := ss + [Asked(n - 1)], es + [Begun(Name(n - 1), 0, Start(n - 1))];
      FillEnds(n - 1);
      Extend(ss, es, Completed(n - 1, NO_ADDRESS, false, 0), Filled(n));
      ss, es := ss + [Filled(n)], es + [Completed(n - 1, NO_ADDRESS, false, 0)];
    }
  }

  /** With the empty host the bound fails: some run ends with 4097 entries. */
  lemma EmptyHostBreaksTheBound()
    ensures exists ss: seq<State>, es: seq<Event> :: Run(ss, es) && |ss[|es|].cache| == 4097
  {
    var ss, es := FillAll(MAX_ENTRIES + 1);
    TableSize(MAX_ENTRIES + 1);
  }
}
