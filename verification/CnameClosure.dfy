/** Reading the answer section of a DNS response: which names the CNAME records lead to from the
    queried name, which addresses belong to those names, and for how long the answer holds. */
module CnameClosure {
  import opened Text
  import opened Options

  type Address = seq<int>

  datatype Body = CName(target: string) | A(a: Address) | AAAA(aaaa: Address) | OtherBody

  datatype Record = Record(name: string, inet: bool, ttl: nat, body: Body)

  datatype QueryType = TypeA | TypeAAAA | OtherType

  /** `canonicalName`. */
  function Canon(name: string): string { Lower(name) }

  // ---- Which names belong to the answer ----

  /** Some CNAME record leads from `a` to `b`. The class of the record is not looked at. */
  ghost predicate Leads(records: seq<Record>, a: string, b: string) {
    exists r :: r in records && r.body.CName? && Canon(r.name) == a && Canon(r.body.target) == b
  }

  ghost predicate IsPath(records: seq<Record>, p: seq<string>) {
    |p| > 0 && forall i :: 0 < i < |p| ==> Leads(records, p[i - 1], p[i])
  }

  /** Section 3.6.2 of RFC 1034: the names reached from `from` by following aliases. */
  ghost predicate Reachable(records: seq<Record>, from: string, to: string) {
    exists p :: IsPath(records, p) && p[0] == from && p[|p| - 1] == to
  }

  lemma ReachableStart(records: seq<Record>, from: string)
    ensures Reachable(records, from, from)
  {
    assert IsPath(records, [from]);
  }

  lemma {:induction false} ReachableStep(records: seq<Record>, from: string, mid: string, to: string)
    requires Reachable(records, from, mid) && Leads(records, mid, to)
    ensures Reachable(records, from, to)
  {
    var p :| IsPath(records, p) && p[0] == from && p[|p| - 1] == mid;
    var q := p + [to];
    forall i | 0 < i < |q|
      ensures Leads(records, q[i - 1], q[i])
    {
      if i < |p| {
        assert q[i - 1] == p[i - 1] && q[i] == p[i];
      }
    }
    assert IsPath(records, q) && q[0] == from && q[|q| - 1] == to;
  }

  /** A set that holds the start and is closed under aliases holds every reachable name. */
  lemma {:induction false} ClosedHoldsPath(records: seq<Record>, names: set<string>, p: seq<string>)
    requires IsPath(records, p) && p[0] in names
    requires forall r :: r in records && r.body.CName? && Canon(r.name) in names ==> Canon(r.body.target) in names
    ensures p[|p| - 1] in names
    decreases |p|
  {
    if |p| > 1 {
      assert Leads(records, p[0], p[1]);
      var q := p[1..];
      forall i | 0 < i < |q|
        ensures Leads(records, q[i - 1], q[i])
      {
        assert q[i - 1] == p[i] && q[i] == p[i + 1];
      }
      ClosedHoldsPath(records, names, q);
    }
  }

  function Targets(records: seq<Record>): set<string> {
    set i | 0 <= i < |records| && records[i].body.CName? :: Canon(records[i].body.target)
  }

  ghost predicate ClosedFor(names: set<string>, records: seq<Record>) {
    forall r :: r in records && r.body.CName? && Canon(r.name) in names ==> Canon(r.body.target) in names
  }

  /** The fixpoint loop of `parseResponseTTL`. It terminates for every answer section, cycles
      included, with exactly the reachable names. */
  method Closure(records: seq<Record>, query: string) returns (allowed: set<string>)
    ensures forall n :: n in allowed <==> Reachable(records, Canon(query), n)
  {
    ghost var universe := {Canon(query)} + Targets(records);
    allowed := {Canon(query)};
    ReachableStart(records, Canon(query));
    var changed := true;
    while changed
      invariant Canon(query) in allowed && allowed <= universe
      invariant forall n :: n in allowed ==> Reachable(records, Canon(query), n)
      invariant !changed ==> ClosedFor(allowed, records)
      decreases universe - allowed, if changed then 1 else 0
    {
      changed := false;
      ghost var before := allowed;
      for i := 0 to |records|
        invariant before <= allowed <= universe
        invariant changed ==> before < allowed
        invariant !changed ==> before == allowed && ClosedFor(allowed, records[..i])
        invariant forall n :: n in allowed ==> Reachable(records, Canon(query), n)
      {
        var r := records[i];
        assert records[..i + 1] == records[..i] + [r];
        if Canon(r.name) in allowed && r.body.CName? {
          var key := Canon(r.body.target);
          if key !in allowed {
            assert Leads(records, Canon(r.name), key);
            ReachableStep(records, Canon(query), Canon(r.name), key);
            allowed := allowed + {key};
            changed := true;
          }
        }
      }
      assert records[..|records|] == records;
    }
    forall n | Reachable(records, Canon(query), n)
      ensures n in allowed
    {
      var p :| IsPath(records, p) && p[0] == Canon(query) && p[|p| - 1] == n;
      ClosedHoldsPath(records, allowed, p);
    }
  }

  // ---- Addresses and time to live ----

  predicate Matches(r: Record, want: QueryType) {
    (r.body.A? && want == TypeA) || (r.body.AAAA? && want == TypeAAAA)
  }

  function AddressOf(r: Record): Address
    requires r.body.A? || r.body.AAAA?
  {
    if r.body.A? then r.body.a else r.body.aaaa
  }

  /** The record is an address record of the wanted type, in class INET, owned by an allowed name. */
  predicate Gives(r: Record, allowed: set<string>, want: QueryType) {
    r.inet && Canon(r.name) in allowed && Matches(r, want)
  }

  /** The record bounds the time to live: an address it gives, or an INET alias of an allowed name. */
  predicate Bounds(r: Record, allowed: set<string>, want: QueryType) {
    r.inet && Canon(r.name) in allowed && (Matches(r, want) || r.body.CName?)
  }

  function Addresses(records: seq<Record>, allowed: set<string>, want: QueryType): seq<Address> {
    if records == [] then []
    else (if Gives(records[0], allowed, want) then [AddressOf(records[0])] else [])
         + Addresses(records[1..], allowed, want)
  }

  /** `ttl` is the smallest time to live among the records that bound it. */
  ghost predicate MinimumTtl(records: seq<Record>, allowed: set<string>, want: QueryType, ttl: nat) {
    && (exists r :: r in records && Bounds(r, allowed, want) && r.ttl == ttl)
    && (forall r :: r in records && Bounds(r, allowed, want) ==> ttl <= r.ttl)
  }

  lemma {:induction false} AddressesConcat(a: seq<Record>, b: seq<Record>, allowed: set<string>, want: QueryType)
    ensures Addresses(a + b, allowed, want) == Addresses(a, allowed, want) + Addresses(b, allowed, want)
  {
    if a == [] {
      assert a + b == b;
    } else {
      assert (a + b)[1..] == a[1..] + b;
      AddressesConcat(a[1..], b, allowed, want);
    }
  }

  lemma {:induction false} AddressGiven(records: seq<Record>, allowed: set<string>, want: QueryType)
    requires Addresses(records, allowed, want) != []
    ensures exists r :: r in records && Gives(r, allowed, want)
  {
    if Gives(records[0], allowed, want) {
      assert records[0] in records;
    } else {
      AddressGiven(records[1..], allowed, want);
      var r :| r in records[1..] && Gives(r, allowed, want);
      assert r in records;
    }
  }

  /** What the second loop knows about the time to live. */
  ghost predicate TtlState(records: seq<Record>, allowed: set<string>, want: QueryType, have: bool, ttl: nat) {
    if have then MinimumTtl(records, allowed, want, ttl)
    else forall r :: r in records ==> !Bounds(r, allowed, want)
  }

  lemma TtlNext(front: seq<Record>, r: Record, allowed: set<string>, want: QueryType, have: bool, ttl: nat)
    requires TtlState(front, allowed, want, have, ttl)
    ensures Bounds(r, allowed, want) ==>
              TtlState(front + [r], allowed, want, true, if !have || r.ttl < ttl then r.ttl else ttl)
    ensures !Bounds(r, allowed, want) ==> TtlState(front + [r], allowed, want, have, ttl)
  {
    assert r in front + [r];
    if have {
      var s :| s in front && Bounds(s, allowed, want) && s.ttl == ttl;
      assert s in front + [r];
    }
  }

  lemma AddressNext(records: seq<Record>, i: nat, allowed: set<string>, want: QueryType)
    requires i < |records|
    ensures records[..i + 1] == records[..i] + [records[i]]
    ensures Addresses(records[..i + 1], allowed, want)
            == Addresses(records[..i], allowed, want)
               + (if Gives(records[i], allowed, want) then [AddressOf(records[i])] else [])
  {
    var r := records[i];
    assert records[..i + 1] == records[..i] + [r];
    AddressesConcat(records[..i], [r], allowed, want);
    assert [r][1..] == [];
    assert Addresses([r], allowed, want) == if Gives(r, allowed, want) then [AddressOf(r)] else [];
  }

  /** The second loop of `parseResponseTTL`: addresses in answer order and the time to live. */
  method ReadRecords(records: seq<Record>, names: set<string>, want: QueryType)
    returns (ips: seq<Address>, ttlSet: bool, ttl: nat)
    ensures ips == Addresses(records, names, want)
    ensures TtlState(records, names, want, ttlSet, ttl)
  {
    ips, ttlSet, ttl := [], false, 0;
    for i := 0 to |records|
      invariant ips == Addresses(records[..i], names, want)
      invariant TtlState(records[..i], names, want, ttlSet, ttl)
    {
      var r := records[i];
      AddressNext(records, i, names, want);
      TtlNext(records[..i], r, names, want, ttlSet, ttl);
      if r.inet && Canon(r.name) in names && (r.body.CName? || Matches(r, want)) {
        if Matches(r, want) {
          ips := ips + [AddressOf(r)];
        }
        if !ttlSet || r.ttl < ttl {
          ttl, ttlSet := r.ttl, true;
        }
      }
    }
    assert records[..|records|] == records;
  }

  /** The answer-section part of `parseResponseTTL`: the reachable names, exactly the matching
      INET addresses of those names in answer order, and the smallest time to live among them
      and the followed INET aliases; no answer exactly when no address matches. */
  method ReadAnswers(records: seq<Record>, query: string, want: QueryType)
    returns (answer: Option<(seq<Address>, nat)>, allowed: set<string>)
    ensures Answers(records, query, want, answer, allowed)
  {
    var names := Closure(records, query);
    allowed := names;
    var ips, ttlSet, ttl := ReadRecords(records, names, want);
    if |ips| == 0 {
      return None, names;
    }
    AddressGiven(records, names, want);
    answer := Some((ips, ttl));
  }

  /** The records that give an address, told by type: A records for a query of type A, AAAA records for
      one of type AAAA. */
  lemma {:induction false} AddressesGiven(records: seq<Record>, allowed: set<string>, want: QueryType, a: Address)
    ensures a in Addresses(records, allowed, want) <==>
      exists r :: r in records && r.inet && Lower(r.name) in allowed
        && ((want == TypeA && r.body == A(a)) || (want == TypeAAAA && r.body == AAAA(a)))
  {
    if records != [] {
      AddressesGiven(records[1..], allowed, want, a);
      var r := records[0];
      assert forall s :: s in records <==> s == r || s in records[1..];
    }
  }

  /** A record whose time to live counts, told by type. */
  predicate Limits(r: Record, names: set<string>, want: QueryType) {
    && r.inet && Lower(r.name) in names
    && (r.body.CName? || (want == TypeA && r.body.A?) || (want == TypeAAAA && r.body.AAAA?))
  }

  /** The answer holds as long as each address in it and each INET alias on the way: its time to live is
      that of one of them, and at most that of any. */
  lemma {:induction false} TtlIsLeast(records: seq<Record>, query: string, want: QueryType,
                                      answer: Option<(seq<Address>, nat)>, names: set<string>)
    requires Answers(records, query, want, answer, names) && answer.Some?
    ensures exists r :: r in records && Limits(r, names, want) && r.ttl == answer.value.1
    ensures forall r :: r in records && Limits(r, names, want) ==> answer.value.1 <= r.ttl
  {
    var least :| least in records && Bounds(least, names, want) && least.ttl == answer.value.1;
    assert Limits(least, names, want);
    forall r | r in records && Limits(r, names, want) ensures answer.value.1 <= r.ttl {
      assert Bounds(r, names, want);
    }
  }

  // ---- Letter case does not matter ----

  /** The same record but for the letter case of its names. */
  predicate SameRecord(r: Record, s: Record) {
    && EqualFold(r.name, s.name) && r.inet == s.inet && r.ttl == s.ttl
    && (r.body == s.body || (r.body.CName? && s.body.CName? && EqualFold(r.body.target, s.body.target)))
  }

  predicate SameSection(a: seq<Record>, b: seq<Record>) {
    |a| == |b| && forall i :: 0 <= i < |a| ==> SameRecord(a[i], b[i])
  }

  lemma LeadsAlike(a: seq<Record>, b: seq<Record>, x: string, y: string)
    requires SameSection(a, b)
    ensures Leads(a, x, y) <==> Leads(b, x, y)
  {
    forall i | 0 <= i < |a| ensures SameLink(a[i], b[i]) {
      SameRecordLinks(a[i], b[i]);
    }
    if Leads(a, x, y) {
      var i :| 0 <= i < |a| && a[i].body.CName? && Canon(a[i].name) == x && Canon(a[i].body.target) == y;
      assert SameLink(a[i], b[i]);
      assert b[i] in b;
    }
    if Leads(b, x, y) {
      var i :| 0 <= i < |b| && b[i].body.CName? && Canon(b[i].name) == x && Canon(b[i].body.target) == y;
      assert SameLink(a[i], b[i]);
      assert a[i] in a;
    }
  }

  predicate SameLink(r: Record, s: Record) {
    && Canon(r.name) == Canon(s.name) && (r.body.CName? <==> s.body.CName?)
    && (r.body.CName? ==> Canon(r.body.target) == Canon(s.body.target))
  }

  lemma SameRecordLinks(r: Record, s: Record)
    requires SameRecord(r, s)
    ensures SameLink(r, s)
  {
    FoldLower(r.name, s.name);
    if r.body.CName? && r.body != s.body {
      FoldLower(r.body.target, s.body.target);
    }
  }

  lemma ReachableAlike(a: seq<Record>, b: seq<Record>, from: string, to: string)
    requires SameSection(a, b) && Reachable(a, from, to)
    ensures Reachable(b, from, to)
  {
    var p :| IsPath(a, p) && p[0] == from && p[|p| - 1] == to;
    forall i | 0 < i < |p| ensures Leads(b, p[i - 1], p[i]) {
      LeadsAlike(a, b, p[i - 1], p[i]);
    }
    assert IsPath(b, p);
  }

  lemma {:induction false} AddressesAlike(a: seq<Record>, b: seq<Record>, names: set<string>, want: QueryType)
    requires SameSection(a, b)
    ensures Addresses(a, names, want) == Addresses(b, names, want)
  {
    if a != [] {
      FoldLower(a[0].name, b[0].name);
      AddressesAlike(a[1..], b[1..], names, want);
    }
  }

  lemma SameSectionTurned(a: seq<Record>, b: seq<Record>)
    requires SameSection(a, b)
    ensures SameSection(b, a)
  {
    forall i | 0 <= i < |a| ensures SameRecord(b[i], a[i]) {
      assert SameRecord(a[i], b[i]);
    }
  }

  lemma MinimumAlike(a: seq<Record>, b: seq<Record>, names: set<string>, want: QueryType, t: nat)
    requires SameSection(a, b) && MinimumTtl(a, names, want, t)
    ensures MinimumTtl(b, names, want, t)
  {
    forall i | 0 <= i < |a| ensures Canon(a[i].name) == Canon(b[i].name) {
      FoldLower(a[i].name, b[i].name);
    }
    var k :| 0 <= k < |a| && Bounds(a[k], names, want) && a[k].ttl == t;
    assert b[k] in b && Bounds(b[k], names, want);
    forall s | s in b && Bounds(s, names, want) ensures t <= s.ttl {
      var j :| 0 <= j < |b| && b[j] == s;
      assert a[j] in a && Bounds(a[j], names, want);
    }
  }

  /** Two answer sections, and two queries, that differ in nothing but letter case are answered alike,
      addresses in the same order. */
  lemma {:induction false} CaseDoesNotMatter(
    a: seq<Record>, b: seq<Record>, query: string, asked: string, want: QueryType,
    x: Option<(seq<Address>, nat)>, names: set<string>, y: Option<(seq<Address>, nat)>, others: set<string>)
    requires SameSection(a, b) && EqualFold(query, asked)
    requires Answers(a, query, want, x, names) && Answers(b, asked, want, y, others)
    ensures names == others && x == y
  {
    FoldLower(query, asked);
    SameSectionTurned(a, b);
    forall n ensures n in names <==> n in others {
      if n in names {
        ReachableAlike(a, b, Canon(query), n);
      }
      if n in others {
        ReachableAlike(b, a, Canon(query), n);
      }
    }
    assert names == others;
    AddressesAlike(a, b, names, want);
    if x.Some? {
      MinimumAlike(a, b, names, want, x.value.1);
      MinimumUnique(b, names, want, x.value.1, y.value.1);
    }
  }

  // ---- The order of the records does not matter ----

  ghost predicate SameRecords(a: seq<Record>, b: seq<Record>) { forall r :: r in a <==> r in b }

  lemma {:induction false} ReachableSameRecords(a: seq<Record>, b: seq<Record>, from: string, to: string)
    requires SameRecords(a, b) && Reachable(a, from, to)
    ensures Reachable(b, from, to)
  {
    var p :| IsPath(a, p) && p[0] == from && p[|p| - 1] == to;
    forall i | 0 < i < |p|
      ensures Leads(b, p[i - 1], p[i])
    {
      assert Leads(a, p[i - 1], p[i]);
    }
    assert IsPath(b, p);
  }

  lemma {:induction false} TakeOut(b1: seq<Record>, r: Record, b2: seq<Record>, allowed: set<string>, want: QueryType)
    ensures multiset(Addresses(b1 + [r] + b2, allowed, want))
            == multiset(Addresses([r], allowed, want)) + multiset(Addresses(b1 + b2, allowed, want))
  {
    AddressesConcat(b1 + [r], b2, allowed, want);
    AddressesConcat(b1, [r], allowed, want);
    AddressesConcat(b1, b2, allowed, want);
  }

  lemma PermutedRest(a: seq<Record>, b: seq<Record>) returns (i: nat)
    requires a != [] && multiset(a) == multiset(b)
    ensures i < |b| && b == b[..i] + [a[0]] + b[i + 1..]
    ensures multiset(a[1..]) == multiset(b[..i] + b[i + 1..])
  {
    assert a[0] in multiset(a);
    i :| 0 <= i < |b| && b[i] == a[0];
    assert b == b[..i] + [a[0]] + b[i + 1..];
    assert a == [a[0]] + a[1..];
    assert multiset(a[1..]) == multiset(a) - multiset{a[0]};
    assert multiset(b) == multiset(b[..i]) + multiset{a[0]} + multiset(b[i + 1..]);
  }

  lemma {:induction false} AddressesPermuted(a: seq<Record>, b: seq<Record>, allowed: set<string>, want: QueryType)
    requires multiset(a) == multiset(b)
    ensures multiset(Addresses(a, allowed, want)) == multiset(Addresses(b, allowed, want))
    decreases |a|
  {
    if a == [] {
      assert |multiset(b)| == 0;
      assert b == [];
    } else {
      var i := PermutedRest(a, b);
      AddressesPermuted(a[1..], b[..i] + b[i + 1..], allowed, want);
      TakeOut(b[..i], a[0], b[i + 1..], allowed, want);
      TakeOut([], a[0], a[1..], allowed, want);
      assert [] + [a[0]] + a[1..] == a && [] + a[1..] == a[1..];
    }
  }

  lemma MinimumUnique(records: seq<Record>, allowed: set<string>, want: QueryType, t: nat, u: nat)
    requires MinimumTtl(records, allowed, want, t) && MinimumTtl(records, allowed, want, u)
    ensures t == u
  {
  }

  lemma MultisetRecords(a: seq<Record>, b: seq<Record>)
    requires multiset(a) == multiset(b)
    ensures SameRecords(a, b)
  {
    forall r ensures r in a <==> r in b {
      assert r in a <==> r in multiset(a);
      assert r in b <==> r in multiset(b);
    }
  }

  lemma MinimumOfSameRecords(a: seq<Record>, b: seq<Record>, names: set<string>, want: QueryType, t: nat)
    requires SameRecords(a, b) && MinimumTtl(a, names, want, t)
    ensures MinimumTtl(b, names, want, t)
  {
    var r :| r in a && Bounds(r, names, want) && r.ttl == t;
    assert r in b;
  }

  /** An answer that `ReadAnswers` may give: the reachable names, their addresses and the minimum
      time to live, or the error when there is no address. */
  ghost predicate Answers(records: seq<Record>, query: string, want: QueryType,
                          answer: Option<(seq<Address>, nat)>, names: set<string>) {
    && (forall n :: n in names <==> Reachable(records, Canon(query), n))
    && (answer.None? <==> Addresses(records, names, want) == [])
    && (answer.Some? ==> answer.value.0 == Addresses(records, names, want)
                         && MinimumTtl(records, names, want, answer.value.1))
  }

  /** Two answer sections with the same records in any order are answered alike: the same names, an
      error for one exactly when for the other, the same addresses up to order, and the same time
      to live. */
  lemma {:induction false} OrderDoesNotMatter(a: seq<Record>, b: seq<Record>, query: string, want: QueryType,
                                              x: Option<(seq<Address>, nat)>, names: set<string>,
                                              y: Option<(seq<Address>, nat)>, others: set<string>)
    requires multiset(a) == multiset(b)
    requires Answers(a, query, want, x, names) && Answers(b, query, want, y, others)
    ensures names == others
    ensures x.None? <==> y.None?
    ensures x.Some? ==> multiset(x.value.0) == multiset(y.value.0) && x.value.1 == y.value.1
  {
    MultisetRecords(a, b);
    forall n ensures n in names <==> n in others {
      if n in names {
        ReachableSameRecords(a, b, Canon(query), n);
      }
      if n in others {
        ReachableSameRecords(b, a, Canon(query), n);
      }
    }
    assert names == others;
    AddressesPermuted(a, b, names, want);
    assert |Addresses(a, names, want)| == |multiset(Addresses(a, names, want))|;
    if x.Some? && y.Some? {
      MinimumOfSameRecords(a, b, names, want, x.value.1);
      MinimumUnique(b, names, want, x.value.1, y.value.1);
    }
  }
}
