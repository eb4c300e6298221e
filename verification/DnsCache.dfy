/** The DNS cache: network generations, coalesced lookups and eviction. The methods of the class
    are its critical sections; each takes one step of `Next`. */
module DnsCache {
  import opened Options
  import opened Text

  type Host = string

  /** Times and durations are nanoseconds. */
  const SECOND := 1_000_000_000
  const POSITIVE_TTL := 60 * SECOND
  const MIN_POSITIVE_TTL := SECOND
  const MAX_POSITIVE_TTL := 3600 * SECOND
  const NEGATIVE_TTL := 5 * SECOND
  const MAX_ENTRIES: nat := 4096

  datatype Answer = Answer(ips: seq<string>, err: Option<string>)
  datatype Entry = Entry(answer: Answer, expires: int)

  /** A resolver call: a heap object of the program, never forgotten by the model. */
  datatype Call = Call(host: Host, generation: nat, result: Option<Answer>)

  /** `ttlResolver`: the resolver reports a TTL. */
  datatype State = State(
    cache: map<Host, Entry>, inflight: map<Host, nat>, generation: nat, calls: seq<Call>, ttlResolver: bool)

  // ---- What a resolver's outcome becomes ----

  /** A resolver's outcome; without a TTL resolver the reported TTL is ignored. */
  datatype Outcome = Outcome(ips: seq<string>, ttl: int, err: Option<string>)

  function Settled(o: Outcome): Answer { if o.err.Some? then Answer([], o.err) else Answer(o.ips, None) }

  function Lifetime(ttlResolver: bool, o: Outcome): int {
    if o.err.Some? then NEGATIVE_TTL
    else if !ttlResolver then POSITIVE_TTL
    else if o.ttl <= 0 then o.ttl
    else if o.ttl < MIN_POSITIVE_TTL then MIN_POSITIVE_TTL
    else if o.ttl > MAX_POSITIVE_TTL then MAX_POSITIVE_TTL
    else o.ttl
  }

  /** A caller that was cancelled caches nothing, nor does a successful answer with no TTL. */
  predicate Cacheable(ttlResolver: bool, o: Outcome, cancelled: bool) {
    !cancelled && (o.err.Some? || !ttlResolver || o.ttl > 0)
  }

  /** The answer is what the resolver said: its addresses, or its error and no address. */
  predicate Tells(answer: Answer, o: Outcome) {
    answer.err == o.err && answer.ips == if o.err.None? then o.ips else []
  }

  /** An answer is good for 5 seconds if it is an error, for a minute if no TTL is known, and else for
      the TTL, but at least for a second and at most for an hour. */
  predicate GoodFor(ttlResolver: bool, o: Outcome, d: int) {
    && (o.err.Some? ==> d == 5_000_000_000)
    && (o.err.None? && !ttlResolver ==> d == 60_000_000_000)
    && (o.err.None? && ttlResolver && 1_000_000_000 <= o.ttl <= 3600_000_000_000 ==> d == o.ttl)
    && (o.err.None? && ttlResolver && 0 < o.ttl < 1_000_000_000 ==> d == 1_000_000_000)
    && (o.err.None? && ttlResolver && o.ttl > 3600_000_000_000 ==> d == 3600_000_000_000)
  }

  lemma LifetimeBounds(ttlResolver: bool, o: Outcome, cancelled: bool)
    requires Cacheable(ttlResolver, o, cancelled)
    ensures MIN_POSITIVE_TTL <= Lifetime(ttlResolver, o) <= MAX_POSITIVE_TTL
    ensures GoodFor(ttlResolver, o, Lifetime(ttlResolver, o)) && Tells(Settled(o), o)
  {
  }

  // ---- Eviction ----

  function Unexpired(m: map<Host, Entry>, now: int): map<Host, Entry> {
    map h | h in m && now < m[h].expires :: m[h]
  }

  ghost predicate Enumerates(order: seq<Host>, m: map<Host, Entry>) {
    && (forall h :: h in m <==> h in order)
    && forall i, j :: 0 <= i < j < |order| ==> order[i] != order[j]
  }

  /** `a` leaves before `b`. */
  predicate Earlier(m: map<Host, Entry>, a: Host, b: Host)
    requires a in m && b in m
  {
    m[a].expires < m[b].expires || (m[a].expires == m[b].expires && TextLess(a, b))
  }

  /** One step of the scan, in which the empty text stands for "no victim yet". */
  function Better(m: map<Host, Entry>, victim: Host, host: Host): (r: Host)
    requires host in m && (victim == "" || victim in m)
  {
    if victim == "" || Earlier(m, host, victim) then host else victim
  }

  /** The victim after a scan in the given order. */
  function Scan(m: map<Host, Entry>, order: seq<Host>): (v: Host)
    requires forall i :: 0 <= i < |order| ==> order[i] in m
    ensures v == "" || v in order
  {
    if order == [] then "" else Better(m, Scan(m, order[..|order| - 1]), order[|order| - 1])
  }

  /** The loop that deletes victims while the table is full, for some order of each scan. */
  ghost predicate Evicts(m: map<Host, Entry>, m': map<Host, Entry>)
    decreases |m|
  {
    if |m| < MAX_ENTRIES then m' == m
    else exists order :: Enumerates(order, m) && EvictsBy(m, order, m')
  }

  ghost predicate EvictsBy(m: map<Host, Entry>, order: seq<Host>, m': map<Host, Entry>)
    requires Enumerates(order, m)
    decreases |m|, 0
  {
    var v := Scan(m, order);
    if v == "" then m' == m else (Shrinks(m, v); Evicts(m - {v}, m'))
  }

  lemma Shrinks(m: map<Host, Entry>, v: Host)
    requires v in m
    ensures |m - {v}| == |m| - 1
  {
    assert (m - {v}).Keys == m.Keys - {v};
    assert |(m - {v}).Keys| == |m - {v}| && |m.Keys| == |m|;
  }

  lemma EarlierTotal(m: map<Host, Entry>, a: Host, b: Host)
    requires a in m && b in m && a != b
    ensures Earlier(m, a, b) <==> !Earlier(m, b, a)
  {
    TextLessTotal(a, b);
  }

  lemma EarlierTransitive(m: map<Host, Entry>, a: Host, b: Host, c: Host)
    requires a in m && b in m && c in m && Earlier(m, a, b) && Earlier(m, b, c)
    ensures Earlier(m, a, c)
  {
    if m[a].expires == m[c].expires {
      TextLessTransitive(a, b, c);
    }
  }

  /** `v` leaves before every other host of `hosts`. */
  predicate Earliest(m: map<Host, Entry>, hosts: seq<Host>, v: Host) {
    && v in hosts && v in m
    && forall h :: h in hosts && h != v ==> h in m && Earlier(m, v, h)
  }

  lemma BetterIsEarliest(m: map<Host, Entry>, front: seq<Host>, w: Host, last: Host)
    requires Earliest(m, front, w) && w != "" && last in m
    ensures Earliest(m, front + [last], Better(m, w, last))
  {
    if w != last {
      EarlierTotal(m, w, last);
      if Earlier(m, last, w) {
        forall h | h in front && h != w && h != last ensures Earlier(m, last, h) {
          EarlierTransitive(m, last, w, h);
        }
      }
    }
  }

  /** A scan that never meets the empty host finds the entry that expires first. */
  lemma {:induction false} ScanFindsEarliest(m: map<Host, Entry>, order: seq<Host>)
    requires order != [] && forall i :: 0 <= i < |order| ==> order[i] in m && order[i] != ""
    ensures Earliest(m, order, Scan(m, order))
  {
    var front, last := order[..|order| - 1], order[|order| - 1];
    assert order == front + [last];
    if front != [] {
      ScanFindsEarliest(m, front);
      BetterIsEarliest(m, front, Scan(m, front), last);
    }
  }

  /** A scan reports no victim exactly when it scans nothing, or meets the empty host last and
      that host expires no later than all others. */
  lemma {:induction false} ScanFailsIff(m: map<Host, Entry>, order: seq<Host>)
    requires Enumerates(order, m)
    ensures Scan(m, order) == "" <==>
      (order == [] || (order[|order| - 1] == "" && forall h :: h in m ==> m[""].expires <= m[h].expires))
  {
    if order != [] {
      var front, last := order[..|order| - 1], order[|order| - 1];
      assert order == front + [last];
      if last == "" {
        EmptyHostLast(m, front);
      }
    }
  }

  lemma EmptyHostLast(m: map<Host, Entry>, front: seq<Host>)
    requires Enumerates(front + [""], m)
    ensures forall i :: 0 <= i < |front| ==> front[i] in m
    ensures "" in m
    ensures Better(m, Scan(m, front), "") == "" <==> forall h :: h in m ==> m[""].expires <= m[h].expires
  {
    var order := front + [""];
    assert order[|front|] == "";
    forall i | 0 <= i < |front| ensures front[i] in m && front[i] != "" {
      assert order[i] == front[i];
    }
    if front == [] {
      assert forall h :: h in m ==> h == "";
    } else {
      ScanFindsEarliest(m, front);
      var w := Scan(m, front);
      assert TextLess("", w);
      forall h | h in m && h != "" ensures m[w].expires <= m[h].expires {
        assert h in front;
      }
    }
  }

  predicate Sub(m': map<Host, Entry>, m: map<Host, Entry>) { forall h :: h in m' ==> h in m && m'[h] == m[h] }

  /** Everything deleted leaves before everything kept. */
  predicate DeletedFirst(m: map<Host, Entry>, m': map<Host, Entry>)
    requires Sub(m', m)
  {
    forall gone, kept :: gone in m && gone !in m' && kept in m' ==> Earlier(m, gone, kept)
  }

  lemma DeletedFirstStep(m: map<Host, Entry>, order: seq<Host>, v: Host, m': map<Host, Entry>)
    requires Enumerates(order, m) && Earliest(m, order, v)
    requires Sub(m', m - {v}) && DeletedFirst(m - {v}, m')
    ensures Sub(m', m) && DeletedFirst(m, m')
  {
    forall gone, kept | gone in m && gone !in m' && kept in m' ensures Earlier(m, gone, kept) {
      if gone != v {
        assert Earlier(m - {v}, gone, kept);
      }
    }
  }

  /** Without an empty host the loop leaves room for one more entry, and what it deletes expires
      before what it keeps. */
  lemma {:induction false} EvictsEarliest(m: map<Host, Entry>, m': map<Host, Entry>)
    requires "" !in m && Evicts(m, m')
    ensures Sub(m', m) && DeletedFirst(m, m')
    ensures |m'| == if |m| >= MAX_ENTRIES then MAX_ENTRIES - 1 else |m|
    decreases |m|
  {
    if |m| >= MAX_ENTRIES {
      var order :| Enumerates(order, m) && EvictsBy(m, order, m');
      NotEmpty(m, order);
      ScanFindsEarliest(m, order);
      var v := Scan(m, order);
      Shrinks(m, v);
      EvictsEarliest(m - {v}, m');
      DeletedFirstStep(m, order, v, m');
    }
  }

  lemma NotEmpty(m: map<Host, Entry>, order: seq<Host>)
    requires Enumerates(order, m) && |m| > 0
    ensures order != []
  {
    assert |m.Keys| == |m|;
    var h :| h in m.Keys;
    assert h in order;
  }

  /** What an eviction deletes was cached; with the empty host in the table nothing more is sure. */
  lemma {:induction false} EvictsSub(m: map<Host, Entry>, m': map<Host, Entry>)
    requires Evicts(m, m')
    ensures Sub(m', m)
    decreases |m|
  {
    if |m| >= MAX_ENTRIES {
      var order :| Enumerates(order, m) && EvictsBy(m, order, m');
      var v := Scan(m, order);
      if v != "" {
        Shrinks(m, v);
        EvictsSub(m - {v}, m');
      }
    }
  }

  // ---- When a table can grow past its bound ----

  lemma {:induction false} SomeOrder(m: map<Host, Entry>) returns (order: seq<Host>)
    ensures Enumerates(order, m)
    decreases m.Keys
  {
    if m.Keys == {} {
      order := [];
    } else {
      var h :| h in m.Keys;
      var rest := m - {h};
      assert rest.Keys == m.Keys - {h};
      order := SomeOrder(rest);
      EnumeratedLast(m, h, order);
      order := order + [h];
    }
  }

  /** An enumeration of the other hosts with `h` behind them enumerates the table. */
  lemma EnumeratedLast(m: map<Host, Entry>, h: Host, order: seq<Host>)
    requires h in m && Enumerates(order, m - {h})
    ensures Enumerates(order + [h], m)
  {
    var longer := order + [h];
    forall x ensures x in m <==> x in longer {
      assert x in longer <==> x in order || x == h;
    }
    forall i, j | 0 <= i < j < |longer| ensures longer[i] != longer[j] {
      assert longer[i] == order[i] && order[i] in order;
    }
  }

  /** A full table in which the empty host expires no later than any other may evict nothing. */
  lemma MayEvictNothing(m: map<Host, Entry>)
    requires |m| == MAX_ENTRIES && EmptyHostFirst(m)
    ensures Evicts(m, m)
  {
    var order := SomeOrder(m - {""});
    EnumeratedLast(m, "", order);
    var all := order + [""];
    assert all[|all| - 1] == "";
    ScanFailsIff(m, all);
    assert EvictsBy(m, all, m);
  }

  /** Otherwise an eviction makes room. */
  lemma EvictsOrNot(m: map<Host, Entry>, m': map<Host, Entry>)
    requires |m| <= MAX_ENTRIES && Evicts(m, m')
    ensures |m'| < MAX_ENTRIES || (m' == m && |m| == MAX_ENTRIES && EmptyHostFirst(m))
  {
    if |m| == MAX_ENTRIES {
      var order :| Enumerates(order, m) && EvictsBy(m, order, m');
      EvictsOne(m, order, m');
    }
  }

  /** The empty host is in the table and expires no later than any other. */
  predicate EmptyHostFirst(m: map<Host, Entry>) {
    "" in m && forall h :: h in m ==> m[""].expires <= m[h].expires
  }

  lemma EvictsOne(m: map<Host, Entry>, order: seq<Host>, m': map<Host, Entry>)
    requires |m| == MAX_ENTRIES && Enumerates(order, m) && EvictsBy(m, order, m')
    ensures |m'| == MAX_ENTRIES - 1 || (m' == m && EmptyHostFirst(m))
  {
    if Scan(m, order) == "" {
      ScanFoundNothing(m, order);
    } else {
      Shrinks(m, Scan(m, order));
    }
  }

  lemma ScanFoundNothing(m: map<Host, Entry>, order: seq<Host>)
    requires |m| > 0 && Enumerates(order, m) && Scan(m, order) == ""
    ensures EmptyHostFirst(m)
  {
    NotEmpty(m, order);
    ScanFailsIff(m, order);
    assert order[|order| - 1] in order;
  }

  /** Storing an entry can take the table past its bound: all of its 4096 entries are still valid,
      the host is new, and the empty host is among them and expires no later than any other. */
  predicate Overflows(m: map<Host, Entry>, host: Host, at: int) {
    var live := Unexpired(m, at);
    |live| == MAX_ENTRIES && host !in live && EmptyHostFirst(live)
  }

  lemma PutSize(m: map<Host, Entry>, host: Host, e: Entry)
    ensures |m[host := e]| == |m| + if host in m then 0 else 1
  {
    var k := m[host := e];
    assert k.Keys == m.Keys + {host};
    assert |k.Keys| == |k| && |m.Keys| == |m|;
  }

  lemma UnexpiredSmaller(m: map<Host, Entry>, at: int)
    ensures |Unexpired(m, at)| <= |m|
    ensures |Unexpired(m, at)| == |m| ==> Unexpired(m, at) == m
  {
    var u := Unexpired(m, at);
    assert m.Keys == u.Keys + (m.Keys - u.Keys);
    assert |u.Keys| == |u| && |m.Keys| == |m|;
    if |u| == |m| {
      assert m.Keys - u.Keys == {};
      assert u.Keys == m.Keys;
    }
  }

  lemma OverflowNeeds(m: map<Host, Entry>, host: Host, e: Entry, at: int, m': map<Host, Entry>)
    requires |m| <= MAX_ENTRIES && Stores(m, host, e, at, m') && |m'| > MAX_ENTRIES
    ensures Overflows(m, host, at)
  {
    var room :| MakesRoom(m, at, room) && m' == room[host := e];
    PutSize(room, host, e);
    UnexpiredSmaller(m, at);
    if |m| >= MAX_ENTRIES {
      EvictsOrNot(Unexpired(m, at), room);
    }
  }

  lemma OverflowHappens(m: map<Host, Entry>, host: Host, e: Entry, at: int) returns (m': map<Host, Entry>)
    requires |m| <= MAX_ENTRIES && Overflows(m, host, at)
    ensures Stores(m, host, e, at, m') && |m'| > MAX_ENTRIES
  {
    var live := Unexpired(m, at);
    UnexpiredSmaller(m, at);
    MayEvictNothing(live);
    assert MakesRoom(m, at, live);
    m' := live[host := e];
    PutSize(live, host, e);
  }

  /** For every table within the bound: storing an entry may take it past the bound if and only if
      the table and the host are such. */
  lemma {:induction false} StoreOverflowIff(m: map<Host, Entry>, host: Host, e: Entry, at: int)
    requires |m| <= MAX_ENTRIES
    ensures (exists m' :: Stores(m, host, e, at, m') && |m'| > 4096) <==> Overflows(m, host, at)
  {
    if m' :| Stores(m, host, e, at, m') && |m'| > 4096 {
      OverflowNeeds(m, host, e, at, m');
    }
    if Overflows(m, host, at) {
      var m' := OverflowHappens(m, host, e, at);
    }
  }

  // ---- One step ----

  datatype Reply = Hit(answer: Answer) | Join(id: nat) | Start(id: nat)

  /** `Peeked` is the lookup under the read lock, `Waited` the return of a caller from a call that it
      started or joined. */
  datatype Event =
    | Peeked(host: Host, now: int, answer: Answer)
    | Begun(host: Host, now: int, reply: Reply)
    | Completed(id: nat, outcome: Outcome, cancelled: bool, at: int)
    | Waited(id: nat, answer: Answer)
    | Cleared

  predicate Fresh(m: map<Host, Entry>, host: Host, now: int) { host in m && now < m[host].expires }

  function Init(ttlResolver: bool): State { State(map[], map[], 0, [], ttlResolver) }

  ghost predicate Stores(m: map<Host, Entry>, host: Host, e: Entry, at: int, m': map<Host, Entry>) {
    exists room :: MakesRoom(m, at, room) && m' == room[host := e]
  }

  ghost predicate MakesRoom(m: map<Host, Entry>, at: int, room: map<Host, Entry>) {
    if |m| >= MAX_ENTRIES then Evicts(Unexpired(m, at), room) else room == m
  }

  /** The calls in flight without this one. */
  function Landed(inflight: map<Host, nat>, host: Host, id: nat): map<Host, nat> {
    if host in inflight && inflight[host] == id then inflight - {host} else inflight
  }

  ghost predicate CompleteNext(s: State, id: nat, o: Outcome, cancelled: bool, at: int, s': State)
    requires id < |s.calls|
  {
    var call := s.calls[id];
    && s'.generation == s.generation && s'.ttlResolver == s.ttlResolver
    && s'.calls == s.calls[id := call.(result := Some(Settled(o)))]
    && s'.inflight == Landed(s.inflight, call.host, id)
    && if Cacheable(s.ttlResolver, o, cancelled) && call.generation == s.generation
       then Stores(s.cache, call.host, Entry(Settled(o), at + Lifetime(s.ttlResolver, o)), at, s'.cache)
       else s'.cache == s.cache
  }

  ghost predicate Next(s: State, e: Event, s': State) {
    match e
    case Peeked(host, now, answer) => Fresh(s.cache, host, now) && answer == s.cache[host].answer && s' == s
    case Begun(host, now, reply) =>
      if Fresh(s.cache, host, now) then reply == Hit(s.cache[host].answer) && s' == s
      else if host in s.inflight then reply == Join(s.inflight[host]) && s' == s
      else
        && reply == Start(|s.calls|)
        && s' == s.(calls := s.calls + [Call(host, s.generation, None)], inflight := s.inflight[host := |s.calls|])
    case Completed(id, o, cancelled, at) =>
      id < |s.calls| && s.calls[id].result.None? && CompleteNext(s, id, o, cancelled, at, s')
    case Waited(id, answer) => id < |s.calls| && s.calls[id].result == Some(answer) && s' == s
    case Cleared => s' == s.(generation := s.generation + 1, cache := map[], inflight := map[])
  }

  // ---- The cache object ----

  /** `order` has enumerated the hosts of `m` up to those in `rest`. */
  ghost predicate Enumerating(order: seq<Host>, rest: set<Host>, m: map<Host, Entry>) {
    && (forall h :: h in m <==> h in order || h in rest)
    && (forall h :: h in order ==> h !in rest)
    && forall i, j :: 0 <= i < j < |order| ==> order[i] != order[j]
  }

  lemma EnumerateOne(order: seq<Host>, rest: set<Host>, m: map<Host, Entry>, host: Host)
    requires Enumerating(order, rest, m) && host in rest
    ensures Enumerating(order + [host], rest - {host}, m)
  {
    var longer := order + [host];
    forall h ensures h in m <==> h in longer || h in rest - {host} {
      assert h in longer <==> h in order || h == host;
    }
  }

  class DnsCache {
    const ttlResolver: bool
    var cache: map<Host, Entry>
    var inflight: map<Host, nat>
    var generation: nat
    var calls: seq<Call>

    ghost function Abs(): State
      reads this
    {
      State(cache, inflight, generation, calls, ttlResolver)
    }

    constructor (withTtl: bool)
      ensures Abs() == Init(withTtl)
    {
      ttlResolver := withTtl;
      cache, inflight, generation, calls := map[], map[], 0, [];
    }

    /** The lookup under the read lock. */
    method Peek(host: Host, now: int) returns (answer: Option<Answer>)
      ensures answer.Some? <==> Fresh(cache, host, now)
      ensures answer.Some? ==> Next(Abs(), Peeked(host, now, answer.value), Abs())
    {
      if host in cache && now < cache[host].expires {
        return Some(cache[host].answer);
      }
      return None;
    }

    /** The section that answers from the cache, joins a call or starts one. */
    method Begin(host: Host, now: int) returns (reply: Reply)
      modifies this
      ensures Next(old(Abs()), Begun(host, now, reply), Abs())
    {
      if host in cache && now < cache[host].expires {
        return Hit(cache[host].answer);
      }
      if host in inflight {
        return Join(inflight[host]);
      }
      reply := Start(|calls|);
      inflight := inflight[host := |calls|];
      calls := calls + [Call(host, generation, None)];
    }

    method DeleteExpired(now: int)
      modifies this`cache
      ensures cache == Unexpired(old(cache), now)
    {
      var rest := cache.Keys;
      while rest != {}
        invariant forall h :: h in rest ==> h in cache && h in old(cache)
        invariant forall h :: h in cache ==> h in old(cache) && cache[h] == old(cache)[h]
        invariant forall h :: h in old(cache) && h !in rest ==> (h in cache <==> now < old(cache)[h].expires)
        decreases rest
      {
        var host :| host in rest;
        if now >= cache[host].expires {
          cache := cache - {host};
        }
        rest := rest - {host};
      }
    }

    /** One scan of the table, in whatever order it is enumerated. */
    method ScanVictim() returns (victim: Host, ghost order: seq<Host>)
      ensures Enumerates(order, cache) && victim == Scan(cache, order)
    {
      victim, order := "", [];
      var rest := cache.Keys;
      while rest != {}
        invariant Enumerating(order, rest, cache)
        invariant victim == Scan(cache, order)
        decreases rest
      {
        var host :| host in rest;
        EnumerateOne(order, rest, cache, host);
        assert (order + [host])[..|order|] == order;
        if victim == "" || cache[host].expires < cache[victim].expires
           || (cache[host].expires == cache[victim].expires && TextLess(host, victim)) {
          victim := host;
        }
        order := order + [host];
        rest := rest - {host};
      }
    }

    method EvictLocked(now: int)
      modifies this`cache
      ensures Evicts(Unexpired(old(cache), now), cache)
    {
      DeleteExpired(now);
      ghost var start := cache;
      while |cache| >= MAX_ENTRIES
        invariant forall m :: Evicts(cache, m) ==> Evicts(start, m)
        decreases |cache|
      {
        var victim, order := ScanVictim();
        if victim == "" {
          assert EvictsBy(cache, order, cache);
          return;
        }
        Shrinks(cache, victim);
        forall m | Evicts(cache - {victim}, m) ensures Evicts(start, m) {
          assert EvictsBy(cache, order, m);
        }
        cache := cache - {victim};
      }
    }

    method Store(host: Host, e: Entry, at: int)
      modifies this`cache
      ensures Stores(old(cache), host, e, at, cache)
    {
      if |cache| >= MAX_ENTRIES {
        EvictLocked(at);
      }
      assert MakesRoom(old(cache), at, cache);
      cache := cache[host := e];
    }

    method Settle(o: Outcome) returns (answer: Answer, ttl: int)
      ensures answer == Settled(o) && Tells(answer, o)
      ensures ttl == Lifetime(ttlResolver, o) && GoodFor(ttlResolver, o, ttl)
    {
      ttl := POSITIVE_TTL;
      if ttlResolver {
        ttl := o.ttl;
      }
      answer := Answer(o.ips, o.err);
      if o.err.Some? {
        answer, ttl := Answer([], o.err), NEGATIVE_TTL;
      } else if ttlResolver && ttl > 0 {
        ttl := if ttl > MAX_POSITIVE_TTL then MAX_POSITIVE_TTL else ttl;
        ttl := if ttl < MIN_POSITIVE_TTL then MIN_POSITIVE_TTL else ttl;
      }
    }

    /** The section after the resolver call. */
    method Complete(id: nat, o: Outcome, cancelled: bool, at: int)
      requires id < |calls| && calls[id].result.None?
      modifies this
      ensures Next(old(Abs()), Completed(id, o, cancelled, at), Abs())
    {
      var answer, ttl := Settle(o);
      var cacheable := !cancelled && (o.err.Some? || !ttlResolver || ttl > 0);
      assert cacheable == Cacheable(ttlResolver, o, cancelled);
      var host := calls[id].host;
      if cacheable && calls[id].generation == generation {
        Store(host, Entry(answer, at + ttl), at);
      }
      FinishCall(id, answer);
    }

    /** The call gets its result and is no longer in flight. */
    method FinishCall(id: nat, answer: Answer)
      requires id < |calls|
      modifies this`calls, this`inflight
      ensures calls == old(calls)[id := old(calls)[id].(result := Some(answer))]
      ensures inflight == Landed(old(inflight), old(calls)[id].host, id)
    {
      var host := calls[id].host;
      calls := calls[id := calls[id].(result := Some(answer))];
      if host in inflight && inflight[host] == id {
        inflight := inflight - {host};
      }
    }

    method ClearNetworkState()
      modifies this
      ensures Next(old(Abs()), Cleared, Abs())
    {
      generation := generation + 1;
      cache, inflight := map[], map[];
    }
  }
}
