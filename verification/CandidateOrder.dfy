/** Reordering the candidates of a route: proxies in cooldown go behind healthy ones, DIRECT keeps
    its slots, and the supervisor's answer, which only speaks of keys, is turned back into the
    servers of the authoritative list. */
module CandidateOrder {
  import opened Sequences
  import opened Text
  import D = Decimal

  /** What decides the place of a candidate. */
  datatype Standing = Direct | Healthy | Cooled

  function StandsAs(direct: bool, cools: bool): Standing {
    if direct then Direct else if cools then Cooled else Healthy
  }

  /** The elements with a given standing, in their order. */
  function Select<T>(xs: seq<T>, f: T -> Standing, c: Standing): seq<T> {
    if xs == [] then [] else (if f(xs[0]) == c then [xs[0]] else []) + Select(xs[1..], f, c)
  }

  /** DIRECT slots keep their element; the others take the queue in order. */
  function Fill<T>(xs: seq<T>, f: T -> Standing, queue: seq<T>): seq<T>
    requires |queue| == Others(xs, f)
    decreases xs
  {
    if xs == [] then []
    else if f(xs[0]) == Direct then [xs[0]] + Fill(xs[1..], f, queue)
    else [queue[0]] + Fill(xs[1..], f, queue[1..])
  }

  /** Number of slots that are not DIRECT. */
  function Others<T>(xs: seq<T>, f: T -> Standing): nat {
    if xs == [] then 0 else (if f(xs[0]) == Direct then 0 else 1) + Others(xs[1..], f)
  }

  lemma {:induction false} OthersCount<T>(xs: seq<T>, f: T -> Standing)
    ensures Others(xs, f) == |Select(xs, f, Healthy)| + |Select(xs, f, Cooled)|
  {
    if xs != [] {
      OthersCount(xs[1..], f);
    }
  }

  function Queue<T>(xs: seq<T>, f: T -> Standing): seq<T> { Select(xs, f, Healthy) + Select(xs, f, Cooled) }

  /** The reordered list. */
  function Arrange<T>(xs: seq<T>, f: T -> Standing): seq<T> {
    OthersCount(xs, f);
    Fill(xs, f, Queue(xs, f))
  }

  // ---- What the reordering means ----

  function NotDirect<T>(xs: seq<T>, f: T -> Standing): seq<T> {
    if xs == [] then [] else (if f(xs[0]) == Direct then [] else [xs[0]]) + NotDirect(xs[1..], f)
  }

  lemma {:induction false} SelectHas<T>(xs: seq<T>, f: T -> Standing, c: Standing)
    ensures forall i :: 0 <= i < |Select(xs, f, c)| ==> f(Select(xs, f, c)[i]) == c
  {
    if xs != [] {
      SelectHas(xs[1..], f, c);
    }
  }

  lemma {:induction false} FillSlots<T>(xs: seq<T>, f: T -> Standing, queue: seq<T>)
    requires |queue| == Others(xs, f) && forall i :: 0 <= i < |queue| ==> f(queue[i]) != Direct
    ensures |Fill(xs, f, queue)| == |xs|
    ensures forall i :: 0 <= i < |xs| && f(xs[i]) == Direct ==> Fill(xs, f, queue)[i] == xs[i]
    ensures forall i :: 0 <= i < |xs| && f(xs[i]) != Direct ==> f(Fill(xs, f, queue)[i]) != Direct
    decreases xs
  {
    if xs != [] {
      if f(xs[0]) == Direct {
        FillSlots(xs[1..], f, queue);
      } else {
        FillSlots(xs[1..], f, queue[1..]);
      }
    }
  }

  lemma {:induction false} FillQueue<T>(xs: seq<T>, f: T -> Standing, queue: seq<T>)
    requires |queue| == Others(xs, f) && forall i :: 0 <= i < |queue| ==> f(queue[i]) != Direct
    ensures NotDirect(Fill(xs, f, queue), f) == queue
    decreases xs
  {
    if xs != [] {
      if f(xs[0]) == Direct {
        FillQueue(xs[1..], f, queue);
        assert Fill(xs, f, queue)[1..] == Fill(xs[1..], f, queue);
      } else {
        FillQueue(xs[1..], f, queue[1..]);
        assert Fill(xs, f, queue)[1..] == Fill(xs[1..], f, queue[1..]);
        assert queue == [queue[0]] + queue[1..];
      }
    }
  }

  lemma {:induction false} FillMultiset<T>(xs: seq<T>, f: T -> Standing, queue: seq<T>)
    requires |queue| == Others(xs, f)
    ensures multiset(Fill(xs, f, queue)) == multiset(Select(xs, f, Direct)) + multiset(queue)
    decreases xs
  {
    if xs != [] {
      if f(xs[0]) == Direct {
        FillMultiset(xs[1..], f, queue);
      } else {
        FillMultiset(xs[1..], f, queue[1..]);
        assert queue == [queue[0]] + queue[1..];
      }
    }
  }

  lemma CountOne<T>(head: seq<T>, tail: seq<T>, v: T)
    ensures multiset(head + tail)[v] == multiset(head)[v] + multiset(tail)[v]
  {
  }

  lemma {:induction false} SelectCounts<T>(xs: seq<T>, f: T -> Standing, v: T)
    ensures multiset(Select(xs, f, Direct))[v] + multiset(Select(xs, f, Healthy))[v]
            + multiset(Select(xs, f, Cooled))[v] == multiset(xs)[v]
  {
    if xs != [] {
      var x, t := xs[0], xs[1..];
      SelectCounts(t, f, v);
      CountOne([x], t, v);
      assert xs == [x] + t;
      CountOne(if f(x) == Direct then [x] else [], Select(t, f, Direct), v);
      CountOne(if f(x) == Healthy then [x] else [], Select(t, f, Healthy), v);
      CountOne(if f(x) == Cooled then [x] else [], Select(t, f, Cooled), v);
    }
  }

  lemma {:induction false} SelectAll<T(!new)>(xs: seq<T>, f: T -> Standing)
    ensures multiset(Select(xs, f, Direct)) + multiset(Select(xs, f, Healthy))
            + multiset(Select(xs, f, Cooled)) == multiset(xs)
  {
    var m := multiset(Select(xs, f, Direct)) + multiset(Select(xs, f, Healthy)) + multiset(Select(xs, f, Cooled));
    forall v: T ensures m[v] == multiset(xs)[v] {
      SelectCounts(xs, f, v);
    }
  }

  /** For every list, duplicates included: the result is a permutation, DIRECT stays in its slots,
      and the other slots hold the healthy candidates and then the cooled ones, each in the
      order of the list. */
  lemma {:induction false} ArrangeMeaning<T(!new)>(xs: seq<T>, f: T -> Standing)
    ensures var r := Arrange(xs, f);
            && multiset(r) == multiset(xs) && |r| == |xs|
            && (forall i :: 0 <= i < |xs| && f(xs[i]) == Direct ==> r[i] == xs[i])
            && (forall i :: 0 <= i < |xs| && f(xs[i]) != Direct ==> f(r[i]) != Direct)
            && NotDirect(r, f) == Select(xs, f, Healthy) + Select(xs, f, Cooled)
  {
    OthersCount(xs, f);
    SelectHas(xs, f, Healthy);
    SelectHas(xs, f, Cooled);
    FillSlots(xs, f, Queue(xs, f));
    FillQueue(xs, f, Queue(xs, f));
    FillMultiset(xs, f, Queue(xs, f));
    SelectAll(xs, f);
  }

  /** The elements that satisfy `p`, in their order. */
  function Where<T>(xs: seq<T>, p: T -> bool): seq<T> {
    if xs == [] then [] else (if p(xs[0]) then [xs[0]] else []) + Where(xs[1..], p)
  }

  /** `out` is a permutation of the list in which the direct elements keep their places, no other stands
      behind one that cools unless it cools too, and both kinds are in the order of the list. */
  ghost predicate CooledLast<T>(xs: seq<T>, direct: T -> bool, cools: T -> bool, out: seq<T>) {
    && |out| == |xs| && multiset(out) == multiset(xs)
    && (forall i :: 0 <= i < |xs| && direct(xs[i]) ==> out[i] == xs[i])
    && (forall i :: 0 <= i < |xs| && !direct(xs[i]) ==> !direct(out[i]))
    && (forall i, j :: 0 <= i < j < |out| && !direct(out[i]) && !direct(out[j]) && cools(out[i]) ==> cools(out[j]))
    && Where(out, x => !direct(x) && !cools(x)) == Where(xs, x => !direct(x) && !cools(x))
    && Where(out, x => !direct(x) && cools(x)) == Where(xs, x => !direct(x) && cools(x))
  }

  lemma {:induction false} SelectWhere<T>(xs: seq<T>, f: T -> Standing, c: Standing, p: T -> bool)
    requires forall i :: 0 <= i < |xs| ==> (p(xs[i]) <==> f(xs[i]) == c)
    ensures Where(xs, p) == Select(xs, f, c)
  {
    if xs != [] {
      SelectWhere(xs[1..], f, c, p);
    }
  }

  lemma {:induction false} SelectNotDirect<T>(xs: seq<T>, f: T -> Standing, c: Standing)
    requires c != Direct
    ensures Select(NotDirect(xs, f), f, c) == Select(xs, f, c)
  {
    if xs != [] {
      SelectNotDirect(xs[1..], f, c);
      if f(xs[0]) != Direct {
        SelectFirst(xs[0], NotDirect(xs[1..], f), f, c);
      } else {
        assert NotDirect(xs, f) == NotDirect(xs[1..], f);
      }
    }
  }

  lemma SelectFirst<T>(x: T, rest: seq<T>, f: T -> Standing, c: Standing)
    ensures Select([x] + rest, f, c) == (if f(x) == c then [x] else []) + Select(rest, f, c)
  {
    assert ([x] + rest)[1..] == rest;
  }

  lemma {:induction false} SelectParts<T>(a: seq<T>, b: seq<T>, f: T -> Standing, c: Standing)
    ensures Select(a + b, f, c) == Select(a, f, c) + Select(b, f, c)
  {
    if a == [] {
      ConcatEmpty(b);
    } else {
      ConcatTail(a, b);
      SelectParts(a[1..], b, f, c);
      ConcatAssoc(if f(a[0]) == c then [a[0]] else [], Select(a[1..], f, c), Select(b, f, c));
    }
  }

  lemma {:induction false} SelectUniform<T>(xs: seq<T>, f: T -> Standing, d: Standing, c: Standing)
    requires forall i :: 0 <= i < |xs| ==> f(xs[i]) == d
    ensures Select(xs, f, c) == if c == d then xs else []
  {
    if xs != [] {
      SelectUniform(xs[1..], f, d, c);
      assert xs == [xs[0]] + xs[1..];
    }
  }

  /** Behind a cooled element of `h + c` come only cooled ones, wherever the direct ones stand. */
  lemma {:induction false} NoneBehindCooled<T>(r: seq<T>, f: T -> Standing, h: seq<T>, c: seq<T>)
    requires NotDirect(r, f) == h + c
    requires (forall i :: 0 <= i < |h| ==> f(h[i]) == Healthy) && forall i :: 0 <= i < |c| ==> f(c[i]) == Cooled
    ensures forall i, j :: 0 <= i < j < |r| && f(r[i]) == Cooled && f(r[j]) != Direct ==> f(r[j]) == Cooled
    ensures h == [] ==> forall i :: 0 <= i < |r| && f(r[i]) != Direct ==> f(r[i]) == Cooled
    decreases r
  {
    if r != [] {
      var rest := NotDirect(r[1..], f);
      assert forall i :: 1 <= i < |r| ==> r[i] == r[1..][i - 1];
      if f(r[0]) == Direct {
        assert rest == h + c;
        NoneBehindCooled(r[1..], f, h, c);
      } else if h != [] {
        assert r[0] == (h + c)[0] == h[0];
        assert rest == (h + c)[1..] == h[1..] + c;
        NoneBehindCooled(r[1..], f, h[1..], c);
      } else {
        assert r[0] == (h + c)[0] == c[0];
        assert rest == (h + c)[1..] == [] + c[1..];
        NoneBehindCooled(r[1..], f, [], c[1..]);
      }
    }
  }

  /** The arrangement puts the cooled elements last. */
  lemma ArrangeCooledLast<T(!new)>(xs: seq<T>, f: T -> Standing, direct: T -> bool, cools: T -> bool)
    requires forall x: T :: f(x) == StandsAs(direct(x), cools(x))
    ensures CooledLast(xs, direct, cools, Arrange(xs, f))
  {
    var r, h, c := Arrange(xs, f), Select(xs, f, Healthy), Select(xs, f, Cooled);
    ArrangeMeaning(xs, f);
    SelectHas(xs, f, Healthy);
    SelectHas(xs, f, Cooled);
    NoneBehindCooled(r, f, h, c);
    ArrangeSelects(xs, f);
    SelectWhere(r, f, Healthy, x => !direct(x) && !cools(x));
    SelectWhere(xs, f, Healthy, x => !direct(x) && !cools(x));
    SelectWhere(r, f, Cooled, x => !direct(x) && cools(x));
    SelectWhere(xs, f, Cooled, x => !direct(x) && cools(x));
  }

  lemma ArrangeSelects<T(!new)>(xs: seq<T>, f: T -> Standing)
    ensures Select(Arrange(xs, f), f, Healthy) == Select(xs, f, Healthy)
    ensures Select(Arrange(xs, f), f, Cooled) == Select(xs, f, Cooled)
  {
    var r, h, c := Arrange(xs, f), Select(xs, f, Healthy), Select(xs, f, Cooled);
    ArrangeMeaning(xs, f);
    SelectHas(xs, f, Healthy);
    SelectHas(xs, f, Cooled);
    SelectNotDirect(r, f, Healthy);
    SelectNotDirect(r, f, Cooled);
    SelectParts(h, c, f, Healthy);
    SelectParts(h, c, f, Cooled);
    SelectUniform(h, f, Healthy, Healthy);
    SelectUniform(c, f, Cooled, Healthy);
    SelectUniform(h, f, Healthy, Cooled);
    SelectUniform(c, f, Cooled, Cooled);
  }

  // ---- When nothing has to move ----

  lemma {:induction false} FillItself<T>(xs: seq<T>, f: T -> Standing, c: Standing)
    requires c != Direct && forall i :: 0 <= i < |xs| ==> f(xs[i]) == Direct || f(xs[i]) == c
    ensures |Select(xs, f, c)| == Others(xs, f)
    ensures Fill(xs, f, Select(xs, f, c)) == xs
  {
    if xs != [] {
      FillItself(xs[1..], f, c);
      assert xs == [xs[0]] + xs[1..];
      var q := Select(xs, f, c);
      if f(xs[0]) != Direct {
        assert q[0] == xs[0] && q[1..] == Select(xs[1..], f, c);
      } else {
        assert q == Select(xs[1..], f, c);
      }
    }
  }

  lemma {:induction false} NoneSelected<T>(xs: seq<T>, f: T -> Standing, c: Standing)
    requires Select(xs, f, c) == []
    ensures forall i :: 0 <= i < |xs| ==> f(xs[i]) != c
  {
    if xs != [] {
      NoneSelected(xs[1..], f, c);
    }
  }

  /** With no cooled candidate, or no healthy one, the list stays as it is. */
  lemma {:induction false} ArrangeUnchanged<T>(xs: seq<T>, f: T -> Standing)
    requires Select(xs, f, Healthy) == [] || Select(xs, f, Cooled) == []
    ensures Arrange(xs, f) == xs
  {
    if Select(xs, f, Cooled) == [] {
      NoneSelected(xs, f, Cooled);
      FillItself(xs, f, Healthy);
      assert Queue(xs, f) == Select(xs, f, Healthy);
    } else {
      NoneSelected(xs, f, Healthy);
      FillItself(xs, f, Cooled);
      assert Queue(xs, f) == Select(xs, f, Cooled);
    }
  }

  // ---- Through a map ----

  function Map<T, C>(xs: seq<T>, m: T -> C): (cs: seq<C>)
    ensures |cs| == |xs|
    ensures forall i :: 0 <= i < |cs| ==> cs[i] == m(xs[i])
  {
    seq(|xs|, i requires 0 <= i < |xs| => m(xs[i]))
  }

  lemma {:induction false} SelectMapped<T, C>(xs: seq<T>, f: T -> Standing, m: T -> C, g: C -> Standing, c: Standing)
    requires forall i :: 0 <= i < |xs| ==> f(xs[i]) == g(m(xs[i]))
    ensures Select(Map(xs, m), g, c) == Map(Select(xs, f, c), m)
  {
    if xs != [] {
      SelectMapped(xs[1..], f, m, g, c);
      assert Map(xs, m)[1..] == Map(xs[1..], m);
      MapConcat(if f(xs[0]) == c then [xs[0]] else [], Select(xs[1..], f, c), m);
    }
  }

  lemma {:induction false} OthersMapped<T, C>(xs: seq<T>, f: T -> Standing, m: T -> C, g: C -> Standing)
    requires forall i :: 0 <= i < |xs| ==> f(xs[i]) == g(m(xs[i]))
    ensures Others(Map(xs, m), g) == Others(xs, f)
  {
    if xs != [] {
      OthersMapped(xs[1..], f, m, g);
      assert Map(xs, m)[1..] == Map(xs[1..], m);
    }
  }

  lemma {:induction false} FillMapped<T, C>(xs: seq<T>, f: T -> Standing, m: T -> C, g: C -> Standing, queue: seq<T>)
    requires forall i :: 0 <= i < |xs| ==> f(xs[i]) == g(m(xs[i]))
    requires |queue| == Others(xs, f) == Others(Map(xs, m), g)
    ensures Fill(Map(xs, m), g, Map(queue, m)) == Map(Fill(xs, f, queue), m)
    decreases xs
  {
    if xs != [] {
      OthersMapped(xs[1..], f, m, g);
      assert Map(xs, m)[1..] == Map(xs[1..], m);
      if f(xs[0]) == Direct {
        FillMapped(xs[1..], f, m, g, queue);
      } else {
        FillMapped(xs[1..], f, m, g, queue[1..]);
        assert Map(queue, m)[1..] == Map(queue[1..], m);
      }
    }
  }

  lemma {:induction false} MapConcat<T, C>(a: seq<T>, b: seq<T>, m: T -> C)
    ensures Map(a + b, m) == Map(a, m) + Map(b, m)
  {
  }

  lemma {:induction false} QueueMapped<T, C>(xs: seq<T>, f: T -> Standing, m: T -> C, g: C -> Standing)
    requires forall i :: 0 <= i < |xs| ==> f(xs[i]) == g(m(xs[i]))
    ensures Queue(Map(xs, m), g) == Map(Queue(xs, f), m)
  {
    SelectMapped(xs, f, m, g, Healthy);
    SelectMapped(xs, f, m, g, Cooled);
    MapConcat(Select(xs, f, Healthy), Select(xs, f, Cooled), m);
  }

  /** Arranging images is taking the image of the arrangement. */
  lemma {:induction false} ArrangeMapped<T, C>(xs: seq<T>, f: T -> Standing, m: T -> C, g: C -> Standing)
    requires forall i :: 0 <= i < |xs| ==> f(xs[i]) == g(m(xs[i]))
    ensures Arrange(Map(xs, m), g) == Map(Arrange(xs, f), m)
  {
    QueueMapped(xs, f, m, g);
    OthersCount(xs, f);
    OthersMapped(xs, f, m, g);
    FillMapped(xs, f, m, g, Queue(xs, f));
  }

  // ---- Elements of one key stay in order ----

  function WithKey<T, K(==)>(xs: seq<T>, k: T -> K, key: K): seq<T> {
    if xs == [] then [] else (if k(xs[0]) == key then [xs[0]] else []) + WithKey(xs[1..], k, key)
  }

  lemma {:induction false} WithKeyConcat<T, K>(a: seq<T>, b: seq<T>, k: T -> K, key: K)
    ensures WithKey(a + b, k, key) == WithKey(a, k, key) + WithKey(b, k, key)
  {
    if a == [] {
      ConcatEmpty(b);
    } else {
      ConcatTail(a, b);
      WithKeyConcat(a[1..], b, k, key);
      ConcatAssoc(if k(a[0]) == key then [a[0]] else [], WithKey(a[1..], k, key), WithKey(b, k, key));
    }
  }

  /** All elements with this key have standing `c`. */
  predicate KeyStands<T, K(==)>(xs: seq<T>, f: T -> Standing, k: T -> K, key: K, c: Standing) {
    forall i :: 0 <= i < |xs| && k(xs[i]) == key ==> f(xs[i]) == c
  }

  lemma {:induction false} SelectWithKey<T, K>(
    xs: seq<T>, f: T -> Standing, d: Standing, k: T -> K, key: K, c: Standing)
    requires KeyStands(xs, f, k, key, c)
    ensures WithKey(Select(xs, f, d), k, key) == if c == d then WithKey(xs, k, key) else []
    ensures KeyStands(Select(xs, f, d), f, k, key, c)
  {
    if xs != [] {
      SelectWithKey(xs[1..], f, d, k, key, c);
      WithKeyConcat(if f(xs[0]) == d then [xs[0]] else [], Select(xs[1..], f, d), k, key);
    }
  }

  lemma {:induction false} NoneWithKey<T, K>(xs: seq<T>, k: T -> K, key: K)
    requires forall i :: 0 <= i < |xs| ==> k(xs[i]) != key
    ensures WithKey(xs, k, key) == []
  {
    if xs != [] {
      NoneWithKey(xs[1..], k, key);
    }
  }

  lemma {:induction false} FillWithKey<T, K>(
    xs: seq<T>, f: T -> Standing, queue: seq<T>, k: T -> K, key: K, c: Standing)
    requires |queue| == Others(xs, f) && KeyStands(xs, f, k, key, c) && KeyStands(queue, f, k, key, c)
    requires forall i :: 0 <= i < |queue| ==> f(queue[i]) != Direct
    ensures WithKey(Fill(xs, f, queue), k, key) == if c == Direct then WithKey(xs, k, key) else WithKey(queue, k, key)
    decreases xs
  {
    if xs != [] {
      if f(xs[0]) == Direct {
        FillWithKey(xs[1..], f, queue, k, key, c);
        assert Fill(xs, f, queue)[1..] == Fill(xs[1..], f, queue);
      } else {
        FillWithKey(xs[1..], f, queue[1..], k, key, c);
        assert Fill(xs, f, queue)[1..] == Fill(xs[1..], f, queue[1..]);
      }
    }
  }

  /** Arranging keeps, for every key whose elements stand alike, those elements in their order. */
  lemma {:induction false} ArrangeWithKey<T, K>(xs: seq<T>, f: T -> Standing, k: T -> K, key: K, c: Standing)
    requires KeyStands(xs, f, k, key, c)
    ensures WithKey(Arrange(xs, f), k, key) == WithKey(xs, k, key)
  {
    OthersCount(xs, f);
    SelectHas(xs, f, Healthy);
    SelectHas(xs, f, Cooled);
    SelectWithKey(xs, f, Healthy, k, key, c);
    SelectWithKey(xs, f, Cooled, k, key, c);
    FillWithKey(xs, f, Queue(xs, f), k, key, c);
    WithKeyConcat(Select(xs, f, Healthy), Select(xs, f, Cooled), k, key);
  }

  // ---- Servers and keys ----

  datatype Server = Server(host: string, port: int, scheme: string)

  const DIRECT := Server("DIRECT", 80, "direct")
  const DIRECT_KEY := "direct" + "://" + "DIRECT:80"

  function Itoa(n: int): string { if n < 0 then "-" + D.Format(-n) else D.Format(n) }

  /** `net.JoinHostPort`. */
  function JoinHostPort(host: string, port: string): string {
    if ':' in host then "[" + host + "]:" + port else host + ":" + port
  }

  function ProxyScheme(s: Server): string { if s.scheme == "" then "http" else s.scheme }

  /** `proxyKeyForSupervisor`. */
  function KeyOf(s: Server): string {
    if s == DIRECT then DIRECT_KEY else ProxyScheme(s) + "://" + JoinHostPort(s.host, Itoa(s.port))
  }

  /** The one place in the DIRECT key where the scheme can end. */
  lemma SchemeEnd(scheme: string, rest: string)
    requires scheme + "://" + rest == DIRECT_KEY
    ensures scheme == "direct" && rest == "DIRECT:80"
  {
    var k := DIRECT_KEY;
    var n := |scheme|;
    assert |k| == 18;
    assert k[n] == ':' && k[n + 1] == '/' && k[n + 2] == '/';
    assert k[0] == 'd' && k[1] == 'i' && k[2] == 'r' && k[3] == 'e' && k[4] == 'c' && k[5] == 't';
    assert k[7] == '/' && k[8] == '/' && k[9] == 'D' && k[10] == 'I' && k[11] == 'R' && k[12] == 'E';
    assert k[13] == 'C' && k[14] == 'T' && k[15] == ':' && k[16] == '8' && k[17] == '0';
    assert n == 6;
    assert k[..6] == "direct" && k[9..] == "DIRECT:80";
    assert k[..6] == scheme && k[9..] == rest;
  }

  lemma PortEighty(port: int)
    requires Itoa(port) == "80"
    ensures port == 80
  {
    assert "80"[..1] == "8" && "8"[..0] == "";
    assert D.Value("8") == 8 && D.Value("80") == 80;
  }

  lemma HostPortOfDirect(host: string, port: string)
    requires JoinHostPort(host, port) == "DIRECT:80"
    ensures host == "DIRECT" && port == "80"
  {
    assert JoinHostPort(host, port)[0] == 'D';
    assert ':' !in host;
    CutConcat(host, port, ':');
    CutConcat("DIRECT", "80", ':');
    assert "DIRECT" + ":" + "80" == "DIRECT:80";
  }

  /** No proxy has the key of DIRECT. */
  lemma {:induction false} DirectKeyUnique(s: Server)
    requires KeyOf(s) == DIRECT_KEY
    ensures s == DIRECT
  {
    if s != DIRECT {
      var port := Itoa(s.port);
      SchemeEnd(ProxyScheme(s), JoinHostPort(s.host, port));
      HostPortOfDirect(s.host, port);
      PortEighty(s.port);
    }
  }

  datatype Candidate = Candidate(key: string, direct: bool)

  function CandidateOf(s: Server): Candidate { Candidate(KeyOf(s), s == DIRECT) }

  /** The supervisor's view of a candidate, when `cooled` are the keys in cooldown. */
  function CandidateStanding(cooled: set<string>): Candidate -> Standing {
    (c: Candidate) => StandsAs(c.direct, c.key in cooled)
  }

  function ServerStanding(cooled: set<string>): Server -> Standing {
    (s: Server) => CandidateStanding(cooled)(CandidateOf(s))
  }

  /** Servers that share a key share their standing. */
  lemma KeysStand(servers: seq<Server>, cooled: set<string>, key: string) returns (c: Standing)
    ensures KeyStands(servers, ServerStanding(cooled), KeyOf, key, c)
  {
    c := if key == DIRECT_KEY then Direct else if key in cooled then Cooled else Healthy;
    forall i | 0 <= i < |servers| && KeyOf(servers[i]) == key
      ensures ServerStanding(cooled)(servers[i]) == c
    {
      if servers[i] != DIRECT && key == DIRECT_KEY {
        DirectKeyUnique(servers[i]);
      }
      assert (servers[i] == DIRECT) == (key == DIRECT_KEY);
      assert CandidateOf(servers[i]) == Candidate(key, key == DIRECT_KEY);
      assert CandidateStanding(cooled)(CandidateOf(servers[i])) == c;
    }
  }

  // ---- The code's own loops ----

  function Lookup<K, T>(byKey: map<K, seq<T>>, key: K): seq<T> {
    if key in byKey then byKey[key] else []
  }

  /** Grouping a list by key, in list order. */
  method GroupByKey<T, K(!new, ==)>(xs: seq<T>, k: T -> K) returns (byKey: map<K, seq<T>>)
    ensures forall key :: Lookup(byKey, key) == WithKey(xs, k, key)
  {
    byKey := map[];
    for i := 0 to |xs|
      invariant forall key :: Lookup(byKey, key) == WithKey(xs[..i], k, key)
    {
      var x := xs[i];
      ghost var before := byKey;
      assert xs[..i + 1] == xs[..i] + [x];
      byKey := byKey[k(x) := Lookup(byKey, k(x)) + [x]];
      forall key
        ensures Lookup(byKey, key) == WithKey(xs[..i + 1], k, key)
      {
        GroupStep(xs[..i], x, k, key);
        assert Lookup(before, key) == WithKey(xs[..i], k, key);
      }
    }
    assert xs[..|xs|] == xs;
  }

  lemma GroupStep<T, K>(front: seq<T>, x: T, k: T -> K, key: K)
    ensures WithKey(front + [x], k, key) == WithKey(front, k, key) + (if k(x) == key then [x] else [])
  {
    WithKeyConcat(front, [x], k, key);
    assert [x][1..] == [];
  }

  /** The lookup loop of `orderProxyCandidates`: each ordered key takes the next server of that
      key. When the keys are those of some list with the same servers per key, the loop returns
      that list and never meets a key without a server, so the fallback is unreachable. */
  method TakeByKey<T, K(!new, ==)>(ordered: seq<K>, byKey0: map<K, seq<T>>, k: T -> K, ghost wanted: seq<T>)
    returns (result: seq<T>)
    requires ordered == Map(wanted, k)
    requires forall key :: Lookup(byKey0, key) == WithKey(wanted, k, key)
    ensures result == wanted
  {
    var byKey := byKey0;
    result := [];
    for i := 0 to |ordered|
      invariant result == wanted[..i]
      invariant forall key :: Lookup(byKey, key) == WithKey(wanted[i..], k, key)
    {
      var key := ordered[i];
      var servers := Lookup(byKey, key);
      ghost var before := byKey;
      assert wanted[i..][0] == wanted[i] && wanted[i..][1..] == wanted[i + 1..];
      assert servers == [wanted[i]] + WithKey(wanted[i + 1..], k, key);
      if |servers| == 0 {
        assert false;
      }
      result := result + [servers[0]];
      byKey := byKey[key := servers[1..]];
      forall other
        ensures Lookup(byKey, other) == WithKey(wanted[i + 1..], k, other)
      {
        assert Lookup(before, other) == WithKey(wanted[i..], k, other);
      }
    }
  }

  /** The keys of the supervisor's answer are those of the arranged servers, and arranging keeps
      the servers of each key. */
  lemma OrderedKeys(authoritative: seq<Server>, cooled: set<string>, keys: seq<string>)
    requires keys == Map(Arrange(Map(authoritative, CandidateOf), CandidateStanding(cooled)), (c: Candidate) => c.key)
    ensures keys == Map(Arrange(authoritative, ServerStanding(cooled)), KeyOf)
    ensures forall key ::
      WithKey(Arrange(authoritative, ServerStanding(cooled)), KeyOf, key) == WithKey(authoritative, KeyOf, key)
  {
    var f := ServerStanding(cooled);
    ArrangeMapped(authoritative, f, CandidateOf, CandidateStanding(cooled));
    forall key ensures WithKey(Arrange(authoritative, f), KeyOf, key) == WithKey(authoritative, KeyOf, key) {
      var c := KeysStand(authoritative, cooled, key);
      ArrangeWithKey(authoritative, f, KeyOf, key, c);
    }
  }

  lemma ShortList<T>(xs: seq<T>, f: T -> Standing)
    requires |xs| < 2
    ensures Arrange(xs, f) == xs
  {
    if xs != [] {
      assert xs == [xs[0]] && xs[1..] == [];
      ArrangeUnchanged(xs, f);
    }
  }
}
