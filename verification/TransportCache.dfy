/** The bounded transport cache. Its critical sections are the methods of the class; the state
    machine below interleaves them, with the transport factory and the deferred `close` calls, in
    any order and by any number of callers. */
module TransportCache {
  import opened Options

  type Key = string
  /** Entries are pointers: each one built by a factory has its own number. */
  type Id = nat

  datatype Cache = Cache(entries: map<Key, Id>, order: seq<Key>)

  // ---- The critical sections as functions ----

  /** Drops keys from the front of `order` until one is live, and that entry with it. */
  function Evict(c: Cache): (Cache, Option<Id>)
    decreases |c.order|
  {
    if c.order == [] then (c, None)
    else
      var key, rest := c.order[0], c.order[1..];
      if key in c.entries then (Cache(c.entries - {key}, rest), Some(c.entries[key]))
      else Evict(Cache(c.entries, rest))
  }

  /** The section of `getOrCreate` after the factory: the loser of a race is to be closed, else the
      evicted entry if there is one. */
  function Commit(c: Cache, max: nat, key: Key, candidate: Id): (Cache, Option<Id>) {
    if key in c.entries then (c, Some(candidate))
    else
      var (room, evicted) := if |c.entries| >= max then Evict(c) else (c, None);
      (Cache(room.entries[key := candidate], room.order + [key]), evicted)
  }

  function Remove(c: Cache, key: Key, expected: Option<Id>): (Cache, Option<Id>) {
    if key in c.entries && (expected.None? || c.entries[key] == expected.value)
    then (Cache(c.entries - {key}, c.order), Some(c.entries[key]))
    else (c, None)
  }

  // ---- The cache object ----

  class TransportCache {
    var max: nat
    var entries: map<Key, Id>
    var order: seq<Key>

    ghost function Abs(): Cache
      reads this
    {
      Cache(entries, order)
    }

    constructor (limit: int)
      ensures max == (if limit < 1 then 1 else limit) && Abs() == Cache(map[], [])
    {
      max := if limit < 1 then 1 else limit;
      entries, order := map[], [];
    }

    method Get(key: Key) returns (entry: Option<Id>)
      ensures entry == if key in entries then Some(entries[key]) else None
    {
      if key in entries {
        return Some(entries[key]);
      }
      return None;
    }

    method EvictOne() returns (evicted: Option<Id>)
      modifies this`entries, this`order
      ensures (Abs(), evicted) == Evict(old(Abs()))
    {
      evicted := None;
      while |order| > 0
        invariant entries == old(entries)
        invariant Evict(Abs()) == Evict(old(Abs()))
        decreases |order|
      {
        var victimKey := order[0];
        order := order[1..];
        if victimKey !in entries {
          continue;
        }
        evicted := Some(entries[victimKey]);
        entries := entries - {victimKey};
        return;
      }
    }

    method CommitCandidate(key: Key, candidate: Id) returns (result: Id, toClose: Option<Id>)
      modifies this`entries, this`order
      ensures (Abs(), toClose) == Commit(old(Abs()), max, key, candidate)
      ensures key in entries && result == entries[key]
    {
      if key in entries {
        return entries[key], Some(candidate);
      }
      toClose := None;
      if |entries| >= max {
        toClose := EvictOne();
      }
      entries := entries[key := candidate];
      order := order + [key];
      result := candidate;
    }

    method RemoveEntry(key: Key, expected: Option<Id>) returns (toClose: Option<Id>)
      modifies this`entries
      ensures (Abs(), toClose) == Remove(old(Abs()), key, expected)
    {
      toClose := None;
      if key in entries && (expected.None? || entries[key] == expected.value) {
        toClose := Some(entries[key]);
        entries := entries - {key};
      }
    }

    method Clear() returns (toClose: seq<Id>)
      modifies this`entries, this`order
      ensures Abs() == Cache(map[], [])
      ensures |toClose| == |old(entries)| && (forall id :: id in toClose <==> id in old(entries).Values)
    {
      toClose := [];
      var rest := entries.Keys;
      while rest != {}
        invariant rest <= entries.Keys
        invariant |toClose| + |rest| == |entries.Keys|
        invariant forall id :: id in toClose <==> exists k :: k in entries && k !in rest && entries[k] == id
        decreases rest
      {
        var key :| key in rest;
        toClose := toClose + [entries[key]];
        rest := rest - {key};
      }
      entries, order := map[], [];
    }
  }

  // ---- Interleavings ----

  /** `held` are candidates whose builder has not committed them yet, `doomed` those some caller
      has taken out and is about to close, `closed` the `close` calls made so far. */
  datatype State = State(cache: Cache, max: nat, made: nat, held: map<Id, Key>, doomed: set<Id>, closed: seq<Id>)

  datatype Event =
    | Built(key: Key)
    | Committed(id: Id)
    | Removed(key: Key, expected: Option<Id>)
    | Cleared
    | Closing(id: Id)

  function Doom(s: State, r: (Cache, Option<Id>)): State {
    s.(cache := r.0, doomed := s.doomed + if r.1.Some? then {r.1.value} else {})
  }

  ghost predicate Next(s: State, e: Event, s': State) {
    match e
    case Built(key) => s' == s.(made := s.made + 1, held := s.held[s.made := key])
    case Committed(id) =>
      && id in s.held
      && s' == Doom(s, Commit(s.cache, s.max, s.held[id], id)).(held := s.held - {id})
    case Removed(key, expected) => s' == Doom(s, Remove(s.cache, key, expected))
    case Cleared => s' == s.(cache := Cache(map[], []), doomed := s.doomed + s.cache.entries.Values)
    case Closing(id) => id in s.doomed && s' == s.(doomed := s.doomed - {id}, closed := s.closed + [id])
  }

  predicate Init(s: State) {
    s.max >= 1 && s == State(Cache(map[], []), s.max, 0, map[], {}, [])
  }

  /** Where an entry is: with the caller that built it, in the cache, with the caller that took it
      out, or closed. */
  predicate Held(s: State, id: Id) { id in s.held }
  predicate Live(s: State, id: Id) { id in s.cache.entries.Values }
  predicate Doomed(s: State, id: Id) { id in s.doomed }
  predicate Closed(s: State, id: Id) { id in s.closed }

  function Places(s: State, id: Id): nat {
    (if Held(s, id) then 1 else 0) + (if Live(s, id) then 1 else 0)
    + (if Doomed(s, id) then 1 else 0) + (if Closed(s, id) then 1 else 0)
  }

  predicate CacheOk(c: Cache, max: nat) {
    && 1 <= max && |c.entries| <= max
    && (forall k :: k in c.entries ==> k in c.order)
    && (forall k, l :: k in c.entries && l in c.entries && c.entries[k] == c.entries[l] ==> k == l)
  }

  predicate NoRepeats(xs: seq<Id>) { forall i, j :: 0 <= i < j < |xs| ==> xs[i] != xs[j] }

  /** At most `max` live entries, each under one key; every entry ever built is in exactly one
      place; no entry is closed twice. */
  ghost predicate Inv(s: State) {
    && CacheOk(s.cache, s.max)
    && (forall id: nat :: Places(s, id) == if id < s.made then 1 else 0)
    && NoRepeats(s.closed)
  }

  ghost predicate Run(ss: seq<State>, es: seq<Event>) {
    && |ss| == |es| + 1 && Init(ss[0])
    && forall i :: 0 <= i < |es| ==> Next(ss[i], es[i], ss[i + 1])
  }

  predicate FirstLive(c: Cache, i: nat) {
    && i < |c.order| && c.order[i] in c.entries
    && forall j :: 0 <= j < i ==> c.order[j] !in c.entries
  }

  /** With every live key in `order`, an eviction takes the live entry whose key stands first. */
  lemma {:induction false} EvictFinds(c: Cache, k: Key) returns (i: nat)
    requires k in c.entries && k in c.order
    ensures FirstLive(c, i)
    ensures Evict(c) == (Cache(c.entries - {c.order[i]}, c.order[i + 1..]), Some(c.entries[c.order[i]]))
    decreases |c.order|
  {
    if c.order[0] in c.entries {
      i := 0;
    } else {
      var rest := c.order[1..];
      i := EvictFinds(Cache(c.entries, rest), k);
      assert c.order[i + 1] == rest[i] && c.order[i + 2..] == rest[i + 1..];
      assert forall j :: 0 < j < i + 1 ==> c.order[j] == rest[j - 1];
      i := i + 1;
    }
  }

  /** What a section does to the cache: entries stay, one may go, and it is the one handed over. */
  predicate Loses(c: Cache, d: Cache, gone: Option<Id>, key: Key) {
    if gone.None? then d.entries == c.entries
    else key in c.entries && gone == Some(c.entries[key]) && d.entries == c.entries - {key}
  }

  lemma EvictOk(c: Cache, max: nat) returns (key: Key)
    requires CacheOk(c, max) && |c.entries| >= max
    ensures var (r, v) := Evict(c);
      && v.Some? && Loses(c, r, v, key) && |r.entries| < max
      && forall k :: k in r.entries ==> k in r.order
  {
    assert |c.entries.Keys| == |c.entries|;
    var k :| k in c.entries;
    var i := EvictFinds(c, k);
    key := c.order[i];
    var (r, v) := Evict(c);
    assert r.entries.Keys == c.entries.Keys - {key};
    assert |r.entries.Keys| == |r.entries|;
    forall l | l in r.entries ensures l in r.order {
      var n :| 0 <= n < |c.order| && c.order[n] == l;
      assert n > i;
      assert r.order[n - i - 1] == l;
    }
  }

  lemma CommitOk(c: Cache, max: nat, key: Key, id: Id)
    requires CacheOk(c, max) && id !in c.entries.Values
    ensures CacheOk(Commit(c, max, key, id).0, max)
  {
    if key !in c.entries {
      var room := c;
      if |c.entries| >= max {
        var v := EvictOk(c, max);
        room := Evict(c).0;
      }
      InsertOk(room, max, key, id);
    }
  }

  lemma InsertOk(c: Cache, max: nat, key: Key, id: Id)
    requires 1 <= max && |c.entries| < max && key !in c.entries && id !in c.entries.Values
    requires forall k :: k in c.entries ==> k in c.order
    requires forall k, l :: k in c.entries && l in c.entries && c.entries[k] == c.entries[l] ==> k == l
    ensures CacheOk(Cache(c.entries[key := id], c.order + [key]), max)
  {
    var d := c.entries[key := id];
    assert d.Keys == c.entries.Keys + {key};
    assert |d.Keys| == |d| && |c.entries.Keys| == |c.entries|;
  }

  lemma RemoveOk(c: Cache, max: nat, key: Key)
    requires CacheOk(c, max)
    ensures CacheOk(Cache(c.entries - {key}, c.order), max)
  {
    var d := c.entries - {key};
    assert d.Keys == c.entries.Keys - {key};
    assert |d.Keys| == |d| && |c.entries.Keys| == |c.entries|;
  }

  // ---- Every entry in one place ----

  /** Taking the entry of one key out of an injective table takes exactly that entry out. */
  lemma ValuesWithout(m: map<Key, Id>, key: Key)
    requires key in m
    requires forall k, l :: k in m && l in m && m[k] == m[l] ==> k == l
    ensures (m - {key}).Values == m.Values - {m[key]}
  {
    var d := m - {key};
    forall id | id in m.Values && id != m[key] ensures id in d.Values {
      var k :| k in m && m[k] == id;
      assert k in d && d[k] == id;
    }
  }

  lemma ValuesWith(m: map<Key, Id>, key: Key, id: Id)
    requires key !in m
    ensures m[key := id].Values == m.Values + {id}
  {
    var d := m[key := id];
    forall x | x in m.Values ensures x in d.Values {
      var k :| k in m && m[k] == x;
      assert k in d && d[k] == x;
    }
    assert d[key] == id;
  }

  /** A commit moves the candidate into the cache, and at most one other entry out of it. */
  lemma CommitValues(c: Cache, max: nat, key: Key, id: Id)
    requires CacheOk(c, max) && id !in c.entries.Values
    ensures var (d, gone) := Commit(c, max, key, id);
      if key in c.entries then d == c && gone == Some(id)
      else if gone.None? then d.entries.Values == c.entries.Values + {id}
      else gone.value in c.entries.Values && d.entries.Values == c.entries.Values - {gone.value} + {id}
  {
    if key !in c.entries {
      if |c.entries| >= max {
        var v := EvictOk(c, max);
        ValuesWithout(c.entries, v);
        ValuesWith(Evict(c).0.entries, key, id);
      } else {
        ValuesWith(c.entries, key, id);
      }
    }
  }

  lemma CommitKeeps(s: State, id: Id, s': State)
    requires Inv(s) && Next(s, Committed(id), s')
    ensures Inv(s')
  {
    assert Places(s, id) == 1;
    CommitOk(s.cache, s.max, s.held[id], id);
    forall x: nat ensures Places(s', x) == if x < s'.made then 1 else 0 {
      CommitPlaces(s, id, s', x);
    }
  }

  lemma CommitPlaces(s: State, id: Id, s': State, x: nat)
    requires Inv(s) && Next(s, Committed(id), s')
    ensures Places(s', x) == if x < s'.made then 1 else 0
  {
    assert Places(s, id) == 1;
    CommitValues(s.cache, s.max, s.held[id], id);
    assert Places(s, x) == if x < s.made then 1 else 0;
  }

  lemma RemoveKeeps(s: State, key: Key, expected: Option<Id>, s': State)
    requires Inv(s) && Next(s, Removed(key, expected), s')
    ensures Inv(s')
  {
    if s' != s {
      RemoveOk(s.cache, s.max, key);
      ValuesWithout(s.cache.entries, key);
      forall x: nat ensures Places(s', x) == if x < s'.made then 1 else 0 {
        assert Places(s, x) == if x < s.made then 1 else 0;
      }
    }
  }

  lemma BuiltKeeps(s: State, key: Key, s': State)
    requires Inv(s) && Next(s, Built(key), s')
    ensures Inv(s')
  {
    assert Places(s, s.made) == 0;
    forall x: nat ensures Places(s', x) == if x < s'.made then 1 else 0 {
      assert Places(s, x) == if x < s.made then 1 else 0;
    }
  }

  lemma ClearedKeeps(s: State, s': State)
    requires Inv(s) && Next(s, Cleared, s')
    ensures Inv(s')
  {
    assert s'.cache.entries.Values == {};
    forall x: nat ensures Places(s', x) == if x < s'.made then 1 else 0 {
      assert Places(s, x) == if x < s.made then 1 else 0;
    }
  }

  lemma ClosingKeeps(s: State, id: Id, s': State)
    requires Inv(s) && Next(s, Closing(id), s')
    ensures Inv(s')
  {
    assert Places(s, id) == if id < s.made then 1 else 0;
    forall x: nat ensures Places(s', x) == if x < s'.made then 1 else 0 {
      assert Places(s, x) == if x < s.made then 1 else 0;
    }
  }

  lemma {:induction false} StepKeeps(s: State, e: Event, s': State)
    requires Inv(s) && Next(s, e, s')
    ensures Inv(s')
  {
    match e
    case Built(key) => BuiltKeeps(s, key, s');
    case Committed(id) => CommitKeeps(s, id, s');
    case Removed(key, expected) => RemoveKeeps(s, key, expected, s');
    case Cleared => ClearedKeeps(s, s');
    case Closing(id) => ClosingKeeps(s, id, s');
  }

  /** In every interleaving the cache holds at most `max` entries, no cached entry is closed, and
      every entry built is held, live, about to be closed, or closed once. */
  lemma {:induction false} RunInv(ss: seq<State>, es: seq<Event>, n: nat)
    requires Run(ss, es) && n <= |es|
    ensures Inv(ss[n]) && |ss[n].cache.entries| <= ss[n].max
  {
    if n > 0 {
      RunInv(ss, es, n - 1);
      StepKeeps(ss[n - 1], es[n - 1], ss[n]);
    }
  }

  /** Every entry ever built is in exactly one place; in particular none in the cache is closed, and
      once builders and removers are done it is live or closed. */
  lemma OnePlace(ss: seq<State>, es: seq<Event>, n: nat, id: Id)
    requires Run(ss, es) && n <= |es| && id < ss[n].made
    ensures Live(ss[n], id) ==> !Closed(ss[n], id) && !Held(ss[n], id) && !Doomed(ss[n], id)
    ensures ss[n].held == map[] && ss[n].doomed == {} ==> (Live(ss[n], id) <==> !Closed(ss[n], id))
  {
    RunInv(ss, es, n);
    assert Places(ss[n], id) == 1;
  }

  /** The entry of `key` is still there. */
  predicate Keeps(c: Cache, d: Cache, key: Key)
    requires key in c.entries
  {
    key in d.entries && d.entries[key] == c.entries[key]
  }

  ghost predicate StandsFirst(c: Cache, key: Key) { exists i: nat :: FirstLive(c, i) && c.order[i] == key }

  /** What at event `n` takes the entry of `key` out: its removal, by key or by its owner; a clear; or a new
      entry in a full cache, when its key stands first in the order. */
  ghost predicate TakenOut(ss: seq<State>, es: seq<Event>, n: nat, key: Key)
    requires |ss| == |es| + 1 && n < |es| && key in ss[n].cache.entries
  {
    var c := ss[n].cache;
    || es[n].Cleared?
    || (es[n].Removed? && es[n].key == key && (es[n].expected.None? || es[n].expected.value == c.entries[key]))
    || (es[n].Committed? && es[n].id in ss[n].held && ss[n].held[es[n].id] !in c.entries
        && |c.entries| == ss[n].max && StandsFirst(c, key))
  }

  /** An entry leaves the cache if and only if it is taken out, and then it is about to be closed. */
  lemma {:induction false} LeavesOnlyBy(ss: seq<State>, es: seq<Event>, n: nat, key: Key)
    requires Run(ss, es) && n < |es| && key in ss[n].cache.entries
    ensures !Keeps(ss[n].cache, ss[n + 1].cache, key) <==> TakenOut(ss, es, n, key)
    ensures TakenOut(ss, es, n, key) ==> Doomed(ss[n + 1], ss[n].cache.entries[key])
  {
    RunInv(ss, es, n);
    assert Next(ss[n], es[n], ss[n + 1]);
    if es[n].Committed? {
      CommitEvicts(ss[n].cache, ss[n].max, ss[n].held[es[n].id], es[n].id, key);
    }
  }

  lemma CommitEvicts(c: Cache, max: nat, k: Key, id: Id, key: Key)
    requires CacheOk(c, max) && key in c.entries
    ensures var (d, gone) := Commit(c, max, k, id);
      && (!Keeps(c, d, key) <==> k !in c.entries && |c.entries| == max && StandsFirst(c, key))
      && (!Keeps(c, d, key) ==> gone == Some(c.entries[key]))
  {
    if k !in c.entries && |c.entries| >= max {
      var i := EvictFinds(c, key);
      forall j: nat | FirstLive(c, j) ensures j == i {}
    }
  }

  /** After a commit its key is in the cache: with the entry it had, and the loser is about to be closed,
      or else with the new one, which nobody is to close. */
  lemma {:induction false} CommitGives(ss: seq<State>, es: seq<Event>, n: nat)
    requires Run(ss, es) && n < |es| && es[n].Committed?
    ensures es[n].id in ss[n].held
    ensures var k, id := ss[n].held[es[n].id], es[n].id;
      && k in ss[n + 1].cache.entries
      && (if k in ss[n].cache.entries then Keeps(ss[n].cache, ss[n + 1].cache, k) && Doomed(ss[n + 1], id)
          else ss[n + 1].cache.entries[k] == id && !Doomed(ss[n + 1], id))
  {
    assert Next(ss[n], es[n], ss[n + 1]);
    RunInv(ss, es, n + 1);
    assert Places(ss[n + 1], es[n].id) <= 1;
  }

  predicate Gone(s: State, id: Id) { Doomed(s, id) || Closed(s, id) }

  lemma GoneStays(s: State, e: Event, s': State, id: Id)
    requires Next(s, e, s') && Gone(s, id)
    ensures Gone(s', id)
  {
  }

  lemma {:induction false} GoneForever(ss: seq<State>, es: seq<Event>, i: nat, n: nat, id: Id)
    requires Run(ss, es) && i <= n <= |es| && Gone(ss[i], id)
    ensures Gone(ss[n], id)
  {
    if i < n {
      GoneForever(ss, es, i, n - 1, id);
      GoneStays(ss[n - 1], es[n - 1], ss[n], id);
    }
  }

  /** Once an entry has left the cache its former owner can remove nothing any more, whatever
      entry has taken its key since. */
  lemma {:induction false} StaleOwnerRemovesNothing(ss: seq<State>, es: seq<Event>, i: nat, n: nat, id: Id)
    requires Run(ss, es) && i <= n < |es| && Gone(ss[i], id)
    requires es[n].Removed? && es[n].expected == Some(id)
    ensures ss[n + 1] == ss[n]
  {
    GoneForever(ss, es, i, n, id);
    RunInv(ss, es, n);
    assert Places(ss[n], id) == if id < ss[n].made then 1 else 0;
  }

  /** An entry that is taken out is closed by whoever took it: its `close` call stays enabled
      until it is made, and it is made at most once in the whole run. */
  lemma {:induction false} ClosedOnce(ss: seq<State>, es: seq<Event>, i: nat, j: nat)
    requires Run(ss, es) && i < j < |es| && es[i].Closing? && es[j].Closing?
    ensures es[i].id != es[j].id
  {
    assert Next(ss[i], es[i], ss[i + 1]) && Next(ss[j], es[j], ss[j + 1]);
    var id := es[i].id;
    assert ss[i + 1].closed[|ss[i].closed|] == id;
    ClosedForever(ss, es, i + 1, j, id);
    RunInv(ss, es, j);
    assert Places(ss[j], id) == if id < ss[j].made then 1 else 0;
  }

  lemma {:induction false} ClosedForever(ss: seq<State>, es: seq<Event>, i: nat, n: nat, id: Id)
    requires Run(ss, es) && i <= n <= |es| && Closed(ss[i], id)
    ensures Closed(ss[n], id)
  {
    if i < n {
      ClosedForever(ss, es, i, n - 1, id);
      assert Next(ss[n - 1], es[n - 1], ss[n]);
    }
  }

  // ---- When eviction takes the oldest entry ----

  /** The place after the last copy of `k`, zero without one. */
  function LastPlace(order: seq<Key>, k: Key): (p: nat)
    ensures p <= |order|
    ensures p > 0 ==> order[p - 1] == k
  {
    if order == [] then 0
    else if order[|order| - 1] == k then |order|
    else LastPlace(order[..|order| - 1], k)
  }

  lemma {:induction false} LastPlaceMeans(order: seq<Key>, k: Key)
    ensures k in order <==> LastPlace(order, k) > 0
    ensures forall i :: LastPlace(order, k) <= i < |order| ==> order[i] != k
  {
    if order != [] && order[|order| - 1] != k {
      LastPlaceMeans(order[..|order| - 1], k);
      assert order == order[..|order| - 1] + [order[|order| - 1]];
    }
  }

  lemma LastPlaceAppend(order: seq<Key>, key: Key, k: Key)
    ensures LastPlace(order + [key], k) == if k == key then |order| + 1 else LastPlace(order, k)
  {
    assert (order + [key])[..|order|] == order;
  }

  /** Dropping keys from the front moves the places of the keys that stay behind. */
  lemma {:induction false} LastPlaceDrop(order: seq<Key>, n: nat, k: Key)
    requires n <= |order| && LastPlace(order, k) > n
    ensures LastPlace(order[n..], k) == LastPlace(order, k) - n
  {
    var m := |order| - 1;
    if order[m] != k {
      LastPlaceDrop(order[..m], n, k);
      assert order[n..][..m - n] == order[..m][n..];
    }
  }

  /** Event `n` puts a new entry under key `k` into the cache. */
  predicate InsertsAt(ss: seq<State>, es: seq<Event>, n: nat, k: Key)
    requires |ss| == |es| + 1
  {
    && n < |es| && es[n].Committed? && es[n].id in ss[n].held && ss[n].held[es[n].id] == k
    && k !in ss[n].cache.entries
  }

  /** The event after the last one before `n` that put an entry under key `k` there, zero without. */
  function LastInsert(ss: seq<State>, es: seq<Event>, n: nat, k: Key): (i: nat)
    requires |ss| == |es| + 1 && n <= |es|
    ensures i <= n && (i > 0 ==> InsertsAt(ss, es, i - 1, k))
  {
    if n == 0 then 0 else if InsertsAt(ss, es, n - 1, k) then n else LastInsert(ss, es, n - 1, k)
  }

  predicate Inserts(s: State, e: Event, k: Key) {
    e.Committed? && e.id in s.held && s.held[e.id] == k && k !in s.cache.entries
  }

  /** How many keys a step drops from the front of the order. */
  function Cut(s: State, e: Event, s': State): int {
    if e.Committed? && e.id in s.held && Inserts(s, e, s.held[e.id]) then |s.cache.order| + 1 - |s'.cache.order| else 0
  }

  lemma BehindFirstLive(c: Cache, i: nat, k: Key)
    requires FirstLive(c, i) && k in c.entries && k in c.order && k != c.order[i]
    ensures LastPlace(c.order, k) > i + 1
  {
    LastPlaceMeans(c.order, k);
  }

  /** An insertion that evicts: the keys up to the victim's are dropped. */
  lemma EvictedOrder(c: Cache, max: nat, x: Key, id: Id, k: Key) returns (i: nat)
    requires CacheOk(c, max) && x !in c.entries && |c.entries| >= max && k in c.entries
    ensures FirstLive(c, i)
    ensures Commit(c, max, x, id)
      == (Cache((c.entries - {c.order[i]})[x := id], c.order[i + 1..] + [x]), Some(c.entries[c.order[i]]))
  {
    i := EvictFinds(c, k);
  }

  lemma CommitPlace(c: Cache, max: nat, x: Key, id: Id, k: Key)
    requires CacheOk(c, max) && x !in c.entries
    requires k != x && k in Commit(c, max, x, id).0.entries
    ensures var d := Commit(c, max, x, id).0;
      && k in c.entries && d.entries[k] == c.entries[k]
      && LastPlace(d.order, k) + (|c.order| + 1 - |d.order|) == LastPlace(c.order, k)
  {
    var d := Commit(c, max, x, id).0;
    if |c.entries| >= max {
      var some := EvictOk(c, max);
      var i := EvictedOrder(c, max, x, id, some);
      BehindFirstLive(c, i, k);
      LastPlaceDrop(c.order, i + 1, k);
      LastPlaceAppend(c.order[i + 1..], x, k);
    } else {
      LastPlaceAppend(c.order, x, k);
    }
  }

  lemma CommitLast(c: Cache, max: nat, x: Key, id: Id)
    requires x !in c.entries
    ensures var d := Commit(c, max, x, id).0; LastPlace(d.order, x) == |d.order| && d.entries[x] == id
  {
    var room := (if |c.entries| >= max then Evict(c) else (c, None)).0;
    LastPlaceAppend(room.order, x, x);
  }

  /** What a step does to the place of a key that is live after it. */
  predicate PlaceStep(s: State, e: Event, s': State, k: Key)
    requires k in s'.cache.entries
  {
    if Inserts(s, e, k) then LastPlace(s'.cache.order, k) == |s'.cache.order| && s'.cache.entries[k] == e.id
    else
      && k in s.cache.entries && s'.cache.entries[k] == s.cache.entries[k]
      && LastPlace(s'.cache.order, k) + Cut(s, e, s') == LastPlace(s.cache.order, k)
  }

  lemma StepPlace(s: State, e: Event, s': State, k: Key)
    requires Inv(s) && Next(s, e, s') && k in s'.cache.entries
    ensures PlaceStep(s, e, s', k)
  {
    if e.Committed? && s.held[e.id] !in s.cache.entries {
      var x := s.held[e.id];
      if k == x {
        CommitLast(s.cache, s.max, x, e.id);
      } else {
        CommitPlace(s.cache, s.max, x, e.id, k);
      }
    }
  }

  /** What the lemmas about insertion order need of a run. */
  ghost predicate Placed(ss: seq<State>, es: seq<Event>, k: Key) {
    && |ss| == |es| + 1 && k !in ss[0].cache.entries
    && forall i :: 0 <= i < |es| && k in ss[i + 1].cache.entries ==> PlaceStep(ss[i], es[i], ss[i + 1], k)
  }

  lemma RunPlaces(ss: seq<State>, es: seq<Event>, k: Key)
    requires Run(ss, es)
    ensures Placed(ss, es, k)
  {
    forall i | 0 <= i < |es| && k in ss[i + 1].cache.entries ensures PlaceStep(ss[i], es[i], ss[i + 1], k) {
      RunInv(ss, es, i);
      StepPlace(ss[i], es[i], ss[i + 1], k);
    }
  }

  /** A live entry is the one that was last inserted under its key. */
  lemma {:induction false} InsertedLast(ss: seq<State>, es: seq<Event>, n: nat, k: Key)
    requires Placed(ss, es, k) && n <= |es| && k in ss[n].cache.entries
    ensures LastInsert(ss, es, n, k) > 0
    ensures es[LastInsert(ss, es, n, k) - 1].id == ss[n].cache.entries[k]
  {
    assert PlaceStep(ss[n - 1], es[n - 1], ss[n], k);
    if !InsertsAt(ss, es, n - 1, k) {
      InsertedLast(ss, es, n - 1, k);
    }
  }

  /** The last copies of two live keys stand in the order in which their entries were inserted. */
  lemma {:induction false} PlacesFollowInsertions(ss: seq<State>, es: seq<Event>, n: nat, k: Key, l: Key)
    requires Placed(ss, es, k) && Placed(ss, es, l) && n <= |es|
    requires k in ss[n].cache.entries && l in ss[n].cache.entries && k != l
    ensures PlacesAgree(ss, es, n, k, l)
  {
    var m := n - 1;
    assert PlaceStep(ss[m], es[m], ss[m + 1], k) && PlaceStep(ss[m], es[m], ss[m + 1], l);
    if !InsertsAt(ss, es, m, k) && !InsertsAt(ss, es, m, l) {
      PlacesFollowInsertions(ss, es, m, k, l);
    }
    PlacesNext(ss, es, m, k, l);
  }

  /** Two keys stand in `order` as they were inserted. */
  predicate PlacesAgree(ss: seq<State>, es: seq<Event>, n: nat, k: Key, l: Key)
    requires |ss| == |es| + 1 && n <= |es|
  {
    var order := ss[n].cache.order;
    LastPlace(order, k) < LastPlace(order, l) <==> LastInsert(ss, es, n, k) < LastInsert(ss, es, n, l)
  }

  lemma PlacesNext(ss: seq<State>, es: seq<Event>, m: nat, k: Key, l: Key)
    requires |ss| == |es| + 1 && m < |es| && k != l
    requires k in ss[m + 1].cache.entries && l in ss[m + 1].cache.entries
    requires PlaceStep(ss[m], es[m], ss[m + 1], k) && PlaceStep(ss[m], es[m], ss[m + 1], l)
    requires !InsertsAt(ss, es, m, k) && !InsertsAt(ss, es, m, l) ==> PlacesAgree(ss, es, m, k, l)
    ensures PlacesAgree(ss, es, m + 1, k, l)
  {
  }

  /** Event `n` is a commit that has to evict, and `i` is the place of the victim's key. */
  predicate EvictsAt(ss: seq<State>, es: seq<Event>, n: nat, i: nat)
    requires |ss| == |es| + 1
  {
    && n < |es| && es[n].Committed? && es[n].id in ss[n].held && InsertsAt(ss, es, n, ss[n].held[es[n].id])
    && |ss[n].cache.entries| == ss[n].max && FirstLive(ss[n].cache, i)
  }

  /** The entry under `v` was inserted before all other live ones. */
  ghost predicate InsertedFirst(ss: seq<State>, es: seq<Event>, n: nat, v: Key)
    requires |ss| == |es| + 1 && n <= |es|
  {
    forall l :: l in ss[n].cache.entries && l != v ==> LastInsert(ss, es, n, v) < LastInsert(ss, es, n, l)
  }

  /** No copy of `v` stands behind the last copy of another live key. */
  predicate NoLaterCopy(c: Cache, v: Key) {
    forall l :: l in c.entries && l != v ==> LastPlace(c.order, v) < LastPlace(c.order, l)
  }

  /** For every evicting commit of every run: the victim is the entry inserted first among the live
      ones if and only if its key has no copy behind the last copy of another live key. */
  lemma {:induction false} EvictsOldestIff(ss: seq<State>, es: seq<Event>, n: nat, i: nat)
    requires Run(ss, es) && EvictsAt(ss, es, n, i)
    ensures var v := ss[n].cache.order[i];
      && ss[n].cache.entries[v] in ss[n + 1].doomed && v !in ss[n + 1].cache.entries
      && (InsertedFirst(ss, es, n, v) <==> NoLaterCopy(ss[n].cache, v))
  {
    var c := ss[n].cache;
    var v := c.order[i];
    RunInv(ss, es, n);
    VictimGoes(ss[n], es[n], ss[n + 1], i);
    RunPlaces(ss, es, v);
    forall l | l in c.entries && l != v
      ensures LastInsert(ss, es, n, v) < LastInsert(ss, es, n, l) <==> LastPlace(c.order, v) < LastPlace(c.order, l)
    {
      RunPlaces(ss, es, l);
      PlacesFollowInsertions(ss, es, n, v, l);
    }
  }

  lemma VictimGoes(s: State, e: Event, s': State, i: nat)
    requires Inv(s) && Next(s, e, s') && e.Committed? && s.held[e.id] !in s.cache.entries
    requires |s.cache.entries| == s.max && FirstLive(s.cache, i)
    ensures s.cache.entries[s.cache.order[i]] in s'.doomed && s.cache.order[i] !in s'.cache.entries
  {
    var j := EvictedOrder(s.cache, s.max, s.held[e.id], e.id, s.cache.order[i]);
    assert i == j;
  }

  // ---- A run in which it does not ----

  function Before(entries: map<Key, Id>, order: seq<Key>, made: nat, held: map<Id, Key>, doomed: set<Id>): State {
    State(Cache(entries, order), 2, made, held, doomed, [])
  }

  lemma BuiltNext(entries: map<Key, Id>, order: seq<Key>, made: nat, doomed: set<Id>, key: Key)
    ensures Next(Before(entries, order, made, map[], doomed), Built(key),
                 Before(entries, order, made + 1, map[made := key], doomed))
  {
  }

  lemma CommittedNext(entries: map<Key, Id>, order: seq<Key>, made: nat, doomed: set<Id>, id: Id, key: Key)
    requires key !in entries && |entries| < 2
    ensures Next(Before(entries, order, made, map[id := key], doomed), Committed(id),
                 Before(entries[key := id], order + [key], made, map[], doomed))
  {
    assert map[id := key] - {id} == map[];
    assert doomed + {} == doomed;
  }

  lemma TwoEntries(a: Key, b: Key, x: Id, y: Id)
    requires a != b
    ensures |map[a := x, b := y]| == 2
  {
    var m := map[a := x, b := y];
    assert m.Keys == {a, b};
    assert |m.Keys| == |m|;
  }

  lemma RemovedNext(a: Key, b: Key)
    requires a != b
    ensures Next(Before(map[a := 0, b := 1], [a, b], 2, map[], {}), Removed(a, Some(0)),
                 Before(map[b := 1], [a, b], 2, map[], {0}))
  {
    assert map[a := 0, b := 1] - {a} == map[b := 1];
  }

  lemma EvictedNext(a: Key, b: Key, c: Key)
    requires a != b && b != c && a != c
    ensures Next(Before(map[b := 1, a := 2], [a, b, a], 4, map[3 := c], {0}), Committed(3),
                 Before(map[b := 1, c := 3], [b, a, c], 4, map[], {0, 2}))
  {
    var full := Cache(map[b := 1, a := 2], [a, b, a]);
    TwoEntries(b, a, 1, 2);
    assert full.order[1..] == [b, a];
    assert full.entries - {a} == map[b := 1];
    assert Evict(full) == (Cache(map[b := 1], [b, a]), Some(2));
    assert map[3 := c] - {3} == map[];
    assert [b, a] + [c] == [b, a, c];
  }

  /** A run that can go on with event `e` to state `s`. */
  lemma Extend(ss: seq<State>, es: seq<Event>, e: Event, s: State) returns (ss': seq<State>, es': seq<Event>)
    requires Run(ss, es) && Next(ss[|es|], e, s)
    ensures Run(ss', es') && ss' == ss + [s] && es' == es + [e] && ss'[|es'|] == s
  {
    ss', es' := ss + [s], es + [e];
    forall i | 0 <= i < |es'| ensures Next(ss'[i], es'[i], ss'[i + 1]) {
      if i < |es| {
        assert ss'[i] == ss[i] && ss'[i + 1] == ss[i + 1] && es'[i] == es[i];
      }
    }
  }

  /** With room for two, `a` and `b` come in. */
  lemma TwoComeIn(a: Key, b: Key) returns (ss: seq<State>, es: seq<Event>)
    requires a != b
    ensures Run(ss, es) && ss[|es|] == Before(map[a := 0, b := 1], [a, b], 2, map[], {})
  {
    ss, es := [Before(map[], [], 0, map[], {})], [];
    BuiltNext(map[], [], 0, {}, a);
    ss, es := Extend(ss, es, Built(a), Before(map[], [], 1, map[0 := a], {}));
    CommittedNext(map[], [], 1, {}, 0, a);
    ss, es := Extend(ss, es, Committed(0), Before(map[a := 0], [a], 1, map[], {}));
    BuiltNext(map[a := 0], [a], 1, {}, b);
    ss, es := Extend(ss, es, Built(b), Before(map[a := 0], [a], 2, map[1 := b], {}));
    CommittedNext(map[a := 0], [a], 2, {}, 1, b);
    ss, es := Extend(ss, es, Committed(1), Before(map[a := 0, b := 1], [a, b], 2, map[], {}));
  }

  /** Then `a` is removed and comes in again, and `c` is built. */
  lemma OneComesAgain(a: Key, b: Key, c: Key) returns (ss: seq<State>, es: seq<Event>)
    requires a != b && b != c && a != c
    ensures Run(ss, es) && ss[|es|] == Before(map[b := 1, a := 2], [a, b, a], 4, map[3 := c], {0})
  {
    ss, es := TwoComeIn(a, b);
    RemovedNext(a, b);
    ss, es := Extend(ss, es, Removed(a, Some(0)), Before(map[b := 1], [a, b], 2, map[], {0}));
    BuiltNext(map[b := 1], [a, b], 2, {0}, a);
    ss, es := Extend(ss, es, Built(a), Before(map[b := 1], [a, b], 3, map[2 := a], {0}));
    CommittedNext(map[b := 1], [a, b], 3, {0}, 2, a);
    ss, es := Extend(ss, es, Committed(2), Before(map[b := 1, a := 2], [a, b, a], 3, map[], {0}));
    BuiltNext(map[b := 1, a := 2], [a, b, a], 3, {0}, c);
    ss, es := Extend(ss, es, Built(c), Before(map[b := 1, a := 2], [a, b, a], 4, map[3 := c], {0}));
  }

  lemma LaterCopy(a: Key, b: Key)
    requires a != b
    ensures !NoLaterCopy(Cache(map[b := 1, a := 2], [a, b, a]), a)
  {
    assert [a, b, a] == [a, b] + [a] && [a, b] == [a] + [b];
    LastPlaceAppend([a, b], a, a);
    LastPlaceAppend([a, b], a, b);
    LastPlaceAppend([a], b, b);
  }

  /** For any three keys there is a run with an eviction that does not take the oldest entry. */
  lemma EvictionNotFifo(a: Key, b: Key, c: Key)
    requires a != b && b != c && a != c
    ensures exists ss: seq<State>, es: seq<Event>, n: nat ::
      Run(ss, es) && EvictsAt(ss, es, n, 0) && ss[n].cache.order[0] == a && !InsertedFirst(ss, es, n, a)
  {
    var rs, fs := OneComesAgain(a, b, c);
    EvictedNext(a, b, c);
    var ss, es := Extend(rs, fs, Committed(3), Before(map[b := 1, c := 3], [b, a, c], 4, map[], {0, 2}));
    var n := |fs|;
    assert ss[n] == rs[n] && es[n] == Committed(3);
    TwoEntries(b, a, 1, 2);
    assert EvictsAt(ss, es, n, 0);
    EvictsOldestIff(ss, es, n, 0);
    LaterCopy(a, b);
  }
}
