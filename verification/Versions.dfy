/** Release versions: which texts are accepted, how two of them compare, and which release the
    prerelease channel picks. Section 11 of SemVer 2.0.0 is the order meant. */
module Versions {
  import opened Text
  import opened Options
  import D = Decimal

  // ---- Accepting a version ----

  predicate IdentChar(c: char) { 'a' <= c <= 'z' || 'A' <= c <= 'Z' || '0' <= c <= '9' || c == '-' }

  predicate ValidIdent(s: string) { forall i :: 0 <= i < |s| ==> IdentChar(s[i]) }

  predicate IsNumeric(s: string) { s != "" && D.AllDigits(s) }

  predicate LeadingZero(s: string) { |s| > 1 && s[0] == '0' }

  predicate CoreOk(p: string) { p != "" && !LeadingZero(p) && D.ParseUint(p).Number? }

  predicate IdentOk(id: string) { id != "" && ValidIdent(id) && !(IsNumeric(id) && LeadingZero(id)) }

  function TrimV(s: string): string { if s != "" && s[0] == 'v' then s[1..] else s }

  predicate Accepted(n: string) {
    var parts := Split(CutBefore(n, '-'), '.');
    && |parts| == 3
    && (forall i :: 0 <= i < 3 ==> CoreOk(parts[i]))
    && ('-' in n ==>
          CutAfter(n, '-') != ""
          && forall i :: 0 <= i < |Split(CutAfter(n, '-'), '.')| ==> IdentOk(Split(CutAfter(n, '-'), '.')[i]))
  }

  /** `normalizeVersion`: without white space, a leading v and build metadata; or an error. */
  function Normalize(value: string): Option<string> {
    var v := TrimV(Trim(value));
    if v == "" then None
    else
      var n := CutBefore(v, '+');
      if Accepted(n) then Some(n) else None
  }

  datatype Version = Version(core: seq<nat>, pre: seq<string>)

  /** The reading of an accepted text. */
  function ParseAccepted(n: string): (v: Version)
    requires Accepted(n)
    ensures |v.core| == 3
  {
    var parts := Split(CutBefore(n, '-'), '.');
    Version([D.ParseUint(parts[0]).n, D.ParseUint(parts[1]).n, D.ParseUint(parts[2]).n],
            if '-' in n then Split(CutAfter(n, '-'), '.') else [])
  }

  /** `parseSemanticVersion`. */
  function Parse(value: string): Option<Version> {
    match Normalize(value)
    case None => None
    case Some(n) => Some(ParseAccepted(n))
  }

  // ---- Comparing ----

  /** The order of two different identifiers. */
  function CompareIdent(x: string, y: string): int {
    if IsNumeric(x) && IsNumeric(y) then
      if D.ParseUintIgnoringError(x) < D.ParseUintIgnoringError(y) then -1 else 1
    else if IsNumeric(x) then -1
    else if IsNumeric(y) then 1
    else if TextLess(x, y) then -1 else 1
  }

  function CompareIdents(xs: seq<string>, ys: seq<string>): int {
    if xs == [] && ys == [] then 0
    else if xs == [] then -1
    else if ys == [] then 1
    else if xs[0] == ys[0] then CompareIdents(xs[1..], ys[1..])
    else CompareIdent(xs[0], ys[0])
  }

  function ComparePre(xs: seq<string>, ys: seq<string>): int {
    if xs == [] && ys == [] then 0 else if xs == [] then 1 else if ys == [] then -1 else CompareIdents(xs, ys)
  }

  function CompareCore(a: seq<nat>, b: seq<nat>): int
    requires |a| == |b|
  {
    if a == [] then 0
    else if a[0] < b[0] then -1
    else if a[0] > b[0] then 1
    else CompareCore(a[1..], b[1..])
  }

  function CompareParsed(a: Version, b: Version): int
    requires |a.core| == |b.core|
  {
    var c := CompareCore(a.core, b.core);
    if c != 0 then c else ComparePre(a.pre, b.pre)
  }

  /** `CompareVersions`: 0 when either side is not a version. */
  function Compare(a: string, b: string): int {
    match (Parse(a), Parse(b))
    case (Some(x), Some(y)) => CompareParsed(x, y)
    case _ => 0
  }

  // ---- Normalization is stable ----

  predicate VersionChar(c: char) { IdentChar(c) || c == '.' }

  predicate Plain(s: string) { forall i :: 0 <= i < |s| ==> VersionChar(s[i]) }

  lemma {:induction false} JoinPlain(parts: seq<string>)
    requires forall i :: 0 <= i < |parts| ==> Plain(parts[i])
    ensures Plain(Join(parts, '.'))
  {
    if |parts| > 1 {
      JoinPlain(parts[1..]);
    }
  }

  lemma CutParts(n: string)
    ensures '-' in n ==> n == CutBefore(n, '-') + "-" + CutAfter(n, '-')
    ensures '-' !in n ==> n == CutBefore(n, '-')
  {
  }

  lemma {:induction false} AcceptedPlain(n: string)
    requires Accepted(n)
    ensures n != "" && Plain(n) && D.IsDigit(n[0])
  {
    var core := CutBefore(n, '-');
    var parts := Split(core, '.');
    JoinSplit(core, '.');
    forall i | 0 <= i < 3 ensures Plain(parts[i]) {
      assert CoreOk(parts[i]);
    }
    JoinPlain(parts);
    assert core[0] == parts[0][0] by {
      assert Join(parts, '.') == parts[0] + "." + Join(parts[1..], '.');
      assert CoreOk(parts[0]);
    }
    CutParts(n);
    if '-' in n {
      var pre := CutAfter(n, '-');
      JoinSplit(pre, '.');
      forall i | 0 <= i < |Split(pre, '.')| ensures Plain(Split(pre, '.')[i]) {
        assert IdentOk(Split(pre, '.')[i]);
      }
      JoinPlain(Split(pre, '.'));
    }
  }

  /** A normalized version normalizes to itself, so comparing normalized texts re-reads them
      as they are. */
  lemma {:induction false} NormalizeStable(n: string)
    requires Accepted(n)
    ensures Normalize(n) == Some(n)
  {
    AcceptedPlain(n);
    TrimmedIsFixed(n);
    assert CutBefore(n, '+') == n;
  }

  // ---- What a text denotes ----

  /** A version that a text can denote: three 64-bit numbers and well-formed identifiers. */
  predicate Denotable(v: Version) {
    && |v.core| == 3 && v.core[0] < D.TWO64 && v.core[1] < D.TWO64 && v.core[2] < D.TWO64
    && forall i :: 0 <= i < |v.pre| ==> IdentOk(v.pre[i])
  }

  function ShowCore(core: seq<nat>): string
    requires |core| == 3
  {
    D.Format(core[0]) + "." + (D.Format(core[1]) + "." + D.Format(core[2]))
  }

  /** The text of a version: major.minor.patch and, behind a hyphen, the identifiers between dots. */
  function Show(v: Version): string
    requires |v.core| == 3
  {
    ShowCore(v.core) + if v.pre == [] then "" else "-" + Join(v.pre, '.')
  }

  lemma DigitsOnly(n: nat)
    ensures Split(D.Format(n), '.') == [D.Format(n)] && '-' !in D.Format(n)
  {
    assert D.AllDigits(D.Format(n));
    SplitPlain(D.Format(n), '.');
  }

  lemma CoreShown(core: seq<nat>)
    requires |core| == 3
    ensures Split(ShowCore(core), '.') == [D.Format(core[0]), D.Format(core[1]), D.Format(core[2])]
    ensures '-' !in ShowCore(core)
  {
    DigitsOnly(core[0]);
    DigitsOnly(core[1]);
    DigitsOnly(core[2]);
    Dotted(D.Format(core[0]), D.Format(core[1]), D.Format(core[2]));
  }

  lemma Dotted(a: string, b: string, c: string)
    requires Split(a, '.') == [a] && Split(b, '.') == [b] && Split(c, '.') == [c]
    requires '-' !in a && '-' !in b && '-' !in c
    ensures Split(a + "." + (b + "." + c), '.') == [a, b, c] && '-' !in a + "." + (b + "." + c)
  {
    SplitConcat(b, c, '.');
    SplitConcat(a, b + "." + c, '.');
  }

  lemma PreShown(core: string, pre: seq<string>)
    requires '-' !in core && forall i :: 0 <= i < |pre| ==> IdentOk(pre[i])
    ensures var text := core + if pre == [] then "" else "-" + Join(pre, '.');
      && CutBefore(text, '-') == core && ('-' in text <==> pre != [])
      && (pre != [] ==> CutAfter(text, '-') != "" && Split(CutAfter(text, '-'), '.') == pre)
  {
    if pre == [] {
      assert core + "" == core;
    } else {
      PreJoined(pre);
      Hyphenated(core, Join(pre, '.'));
    }
  }

  lemma Hyphenated(core: string, joined: string)
    requires '-' !in core
    ensures var text := core + ("-" + joined);
      '-' in text && CutBefore(text, '-') == core && CutAfter(text, '-') == joined
  {
    assert core + ("-" + joined) == core + "-" + joined;
    CutConcat(core, joined, '-');
  }

  lemma PreJoined(pre: seq<string>)
    requires pre != [] && forall i :: 0 <= i < |pre| ==> IdentOk(pre[i])
    ensures Join(pre, '.') != "" && Split(Join(pre, '.'), '.') == pre
  {
    forall i | 0 <= i < |pre| ensures '.' !in pre[i] {
      assert IdentOk(pre[i]);
    }
    SplitJoin(pre, '.');
    assert IdentOk(pre[0]);
  }

  lemma ShownAccepted(v: Version)
    requires Denotable(v)
    ensures Accepted(Show(v)) && ParseAccepted(Show(v)) == v
  {
    CoreShown(v.core);
    PreShown(ShowCore(v.core), v.pre);
    D.ParseFormat(v.core[0]);
    D.ParseFormat(v.core[1]);
    D.ParseFormat(v.core[2]);
    assert v.core == [v.core[0], v.core[1], v.core[2]];
  }

  /** Every version reads back from its text, with or without a leading v, build metadata and white
      space around it. */
  lemma {:induction false} ShowParses(v: Version, before: string, prefix: string, build: string, after: string)
    requires Denotable(v) && AllSpace(before) && AllSpace(after)
    requires (prefix == "" || prefix == "v") && (build == "" || (build[0] == '+' && Trimmed(build)))
    ensures Normalize(before + (prefix + Show(v) + build) + after) == Some(Show(v))
    ensures Parse(before + (prefix + Show(v) + build) + after) == Some(v)
  {
    var n := Show(v);
    var text := prefix + n + build;
    ShownAccepted(v);
    AcceptedPlain(n);
    ConcatKeepsEnds(prefix, n, build);
    SpacesTrimmed(before, text, after);
    WithoutV(prefix, n, build);
    WithoutBuild(n, build);
    NormalizesTo(before + text + after, n + build, n);
  }

  lemma NormalizesTo(value: string, v: string, n: string)
    requires TrimV(Trim(value)) == v && v != "" && CutBefore(v, '+') == n && Accepted(n)
    ensures Normalize(value) == Some(n)
  {
  }

  lemma SpacesTrimmed(before: string, text: string, after: string)
    requires AllSpace(before) && AllSpace(after) && Trimmed(text)
    ensures Trim(before + text + after) == text
  {
    TrimTrailingSpace(before + text, after);
    TrimLeadingSpace(before, text);
    TrimmedIsFixed(text);
  }

  lemma ConcatKeepsEnds(prefix: string, n: string, build: string)
    requires n != "" && D.IsDigit(n[0]) && Plain(n)
    requires (prefix == "" || prefix == "v") && (build == "" || (build[0] == '+' && Trimmed(build)))
    ensures Trimmed(prefix + n + build)
  {
    var text := prefix + n + build;
    assert text[0] == if prefix == "" then n[0] else 'v';
    assert text[|text| - 1] == if build == "" then n[|n| - 1] else build[|build| - 1];
  }

  lemma WithoutV(prefix: string, n: string, build: string)
    requires n != "" && n[0] != 'v' && (prefix == "" || prefix == "v")
    ensures TrimV(prefix + n + build) == n + build
  {
    assert prefix + n + build == prefix + (n + build);
  }

  lemma WithoutBuild(n: string, build: string)
    requires '+' !in n && (build == "" || build[0] == '+')
    ensures CutBefore(n + build, '+') == n
  {
    if build == "" {
      assert n + build == n;
    } else {
      assert n + build == n + "+" + build[1..];
      CutConcat(n, build[1..], '+');
    }
  }

  /** Every accepted text is the text of what it denotes. */
  lemma {:induction false} ParsesShown(a: string)
    requires Normalize(a).Some?
    ensures Denotable(Parse(a).value) && Normalize(a) == Some(Show(Parse(a).value))
  {
    var n := Normalize(a).value;
    var v := ParseAccepted(n);
    var parts := Split(CutBefore(n, '-'), '.');
    assert forall i :: 0 <= i < 3 ==> CoreOk(parts[i]);
    assert Denotable(v);
    ShownAccepted(v);
    ParseInjective(n, Show(v));
  }

  // ---- Zero exactly on equal versions ----

  lemma {:induction false} SameCore(a: string, b: string)
    requires CoreOk(a) && CoreOk(b) && D.ParseUint(a).n == D.ParseUint(b).n
    ensures a == b
  {
    D.CanonicalInjective(a, b);
  }

  lemma {:induction false} ParseInjective(a: string, b: string)
    requires Accepted(a) && Accepted(b) && ParseAccepted(a) == ParseAccepted(b)
    ensures a == b
  {
    var ca, cb := CutBefore(a, '-'), CutBefore(b, '-');
    var pa, pb := Split(ca, '.'), Split(cb, '.');
    assert ParseAccepted(a).core[0] == ParseAccepted(b).core[0];
    assert ParseAccepted(a).core[1] == ParseAccepted(b).core[1];
    assert ParseAccepted(a).core[2] == ParseAccepted(b).core[2];
    SameCore(pa[0], pb[0]);
    SameCore(pa[1], pb[1]);
    SameCore(pa[2], pb[2]);
    assert pa == pb;
    JoinSplit(ca, '.');
    JoinSplit(cb, '.');
    CutParts(a);
    CutParts(b);
    if '-' in a {
      JoinSplit(CutAfter(a, '-'), '.');
      JoinSplit(CutAfter(b, '-'), '.');
    }
  }

  lemma {:induction false} CoreZero(a: seq<nat>, b: seq<nat>)
    requires |a| == |b|
    ensures CompareCore(a, b) == 0 <==> a == b
  {
    if a != [] {
      CoreZero(a[1..], b[1..]);
      assert a == [a[0]] + a[1..] && b == [b[0]] + b[1..];
    }
  }

  lemma {:induction false} IdentsZero(xs: seq<string>, ys: seq<string>)
    ensures CompareIdents(xs, ys) == 0 <==> xs == ys
  {
    if xs != [] && ys != [] {
      IdentsZero(xs[1..], ys[1..]);
      assert xs == [xs[0]] + xs[1..] && ys == [ys[0]] + ys[1..];
    }
  }

  /** Two versions compare as 0 exactly when their normalized texts are equal, with no condition
      on the size of their identifiers. */
  lemma {:induction false} ZeroIffEqual(a: string, b: string)
    requires Normalize(a).Some? && Normalize(b).Some?
    ensures Compare(a, b) == 0 <==> Normalize(a) == Normalize(b)
  {
    var x, y := Parse(a).value, Parse(b).value;
    CoreZero(x.core, y.core);
    IdentsZero(x.pre, y.pre);
    if x == y {
      ParseInjective(Normalize(a).value, Normalize(b).value);
    }
  }

  // ---- Order ----

  /** A numeric identifier that does not fit in 64 bits, or is the largest that does. */
  predicate Saturated(s: string) { IsNumeric(s) && D.Value(s) >= D.TWO64 - 1 }

  predicate AllIdents(xs: seq<string>) { forall i :: 0 <= i < |xs| ==> IdentOk(xs[i]) }

  /** The first place where two identifier lists differ holds two saturated numbers. */
  predicate Clash(xs: seq<string>, ys: seq<string>) {
    if xs == [] || ys == [] then false
    else if xs[0] == ys[0] then Clash(xs[1..], ys[1..])
    else Saturated(xs[0]) && Saturated(ys[0])
  }

  lemma {:induction false} NumericOrder(x: string, y: string)
    requires IdentOk(x) && IdentOk(y) && IsNumeric(x) && IsNumeric(y) && x != y
    ensures D.ParseUintIgnoringError(x) == D.ParseUintIgnoringError(y) <==> Saturated(x) && Saturated(y)
  {
    if D.Value(x) == D.Value(y) {
      D.CanonicalInjective(x, y);
    }
  }

  lemma {:induction false} IdentsAntisymmetric(xs: seq<string>, ys: seq<string>)
    requires AllIdents(xs) && AllIdents(ys)
    ensures CompareIdents(xs, ys) == -CompareIdents(ys, xs) <==> !Clash(xs, ys)
  {
    if xs != [] && ys != [] {
      if xs[0] == ys[0] {
        IdentsAntisymmetric(xs[1..], ys[1..]);
      } else if IsNumeric(xs[0]) && IsNumeric(ys[0]) {
        NumericOrder(xs[0], ys[0]);
      } else {
        TextLessTotal(xs[0], ys[0]);
      }
    }
  }

  lemma {:induction false} CoreAntisymmetric(a: seq<nat>, b: seq<nat>)
    requires |a| == |b|
    ensures CompareCore(a, b) == -CompareCore(b, a)
  {
    if a != [] {
      CoreAntisymmetric(a[1..], b[1..]);
    }
  }

  lemma ParsedIdents(a: string)
    requires Parse(a).Some?
    ensures AllIdents(Parse(a).value.pre)
  {
  }

  /** Two versions that first differ in two saturated numbers. */
  predicate Clashing(a: string, b: string) {
    match (Parse(a), Parse(b))
    case (Some(x), Some(y)) => x.core == y.core && Clash(x.pre, y.pre)
    case _ => false
  }

  /** Swapping the arguments flips the sign exactly when the two versions do not first differ in
      two numeric identifiers of 2^64-1 or more. */
  lemma {:induction false} AntisymmetricIff(a: string, b: string)
    requires Parse(a).Some? && Parse(b).Some?
    ensures Compare(a, b) == -Compare(b, a) <==> !Clashing(a, b)
  {
    var x, y := Parse(a).value, Parse(b).value;
    CoreAntisymmetric(x.core, y.core);
    CoreZero(x.core, y.core);
    ParsedIdents(a);
    ParsedIdents(b);
    IdentsAntisymmetric(x.pre, y.pre);
  }

  lemma {:induction false} IdentTransitive(x: string, y: string, z: string)
    requires IdentOk(x) && IdentOk(y) && IdentOk(z)
    requires x != y && y != z && CompareIdent(x, y) == -1 && CompareIdent(y, z) == -1
    ensures x != z && CompareIdent(x, z) == -1
  {
    if !IsNumeric(x) && !IsNumeric(y) && !IsNumeric(z) {
      TextLessTransitive(x, y, z);
      if x == z {
        TextLessTotal(x, y);
      }
    }
  }

  lemma {:induction false} IdentsTransitive(xs: seq<string>, ys: seq<string>, zs: seq<string>)
    requires AllIdents(xs) && AllIdents(ys) && AllIdents(zs)
    requires CompareIdents(xs, ys) == -1 && CompareIdents(ys, zs) == -1
    ensures CompareIdents(xs, zs) == -1
  {
    if xs != [] {
      if xs[0] == ys[0] && ys[0] == zs[0] {
        IdentsTransitive(xs[1..], ys[1..], zs[1..]);
      } else if xs[0] != ys[0] && ys[0] != zs[0] {
        IdentTransitive(xs[0], ys[0], zs[0]);
      }
    }
  }

  lemma {:induction false} CoreTransitive(a: seq<nat>, b: seq<nat>, c: seq<nat>)
    requires |a| == |b| == |c|
    requires CompareCore(a, b) <= 0 && CompareCore(b, c) <= 0
    ensures CompareCore(a, c) <= 0
    ensures CompareCore(a, b) < 0 || CompareCore(b, c) < 0 ==> CompareCore(a, c) < 0
  {
    if a != [] && a[0] == b[0] == c[0] {
      CoreTransitive(a[1..], b[1..], c[1..]);
    }
  }

  lemma {:induction false} CoreRange(a: seq<nat>, b: seq<nat>)
    requires |a| == |b|
    ensures -1 <= CompareCore(a, b) <= 1
  {
    if a != [] {
      CoreRange(a[1..], b[1..]);
    }
  }

  lemma {:induction false} IdentsRange(xs: seq<string>, ys: seq<string>)
    ensures -1 <= CompareIdents(xs, ys) <= 1
  {
    if xs != [] && ys != [] {
      IdentsRange(xs[1..], ys[1..]);
    }
  }

  /** The comparison is transitive on all accepted versions. */
  lemma {:induction false} CompareTransitive(a: string, b: string, c: string)
    requires Parse(a).Some? && Parse(b).Some? && Parse(c).Some?
    requires Compare(a, b) <= 0 && Compare(b, c) <= 0
    ensures Compare(a, c) <= 0
    ensures Compare(a, b) < 0 || Compare(b, c) < 0 ==> Compare(a, c) < 0
  {
    var x, y, z := Parse(a).value, Parse(b).value, Parse(c).value;
    ParsedIdents(a);
    ParsedIdents(b);
    ParsedIdents(c);
    CoreTransitive(x.core, y.core, z.core);
    CoreZero(x.core, y.core);
    CoreZero(y.core, z.core);
    CoreZero(x.core, z.core);
    CoreRange(x.core, y.core);
    CoreRange(y.core, z.core);
    if x.core == y.core == z.core {
      PreTransitive(x.pre, y.pre, z.pre);
    }
  }

  lemma {:induction false} PreTransitive(xs: seq<string>, ys: seq<string>, zs: seq<string>)
    requires AllIdents(xs) && AllIdents(ys) && AllIdents(zs)
    requires ComparePre(xs, ys) <= 0 && ComparePre(ys, zs) <= 0
    ensures ComparePre(xs, zs) <= 0
    ensures ComparePre(xs, ys) < 0 || ComparePre(ys, zs) < 0 ==> ComparePre(xs, zs) < 0
  {
    IdentsRange(xs, ys);
    IdentsRange(ys, zs);
    IdentsZero(xs, ys);
    IdentsZero(ys, zs);
    if xs != [] && ys != [] && zs != [] && xs != ys && ys != zs {
      IdentsTransitive(xs, ys, zs);
    }
  }

  /** Any two versions that do not clash compare one way or the other, and as 0 only when their
      normalized texts are equal. */
  lemma {:induction false} CompareTotalOrder(a: string, b: string)
    requires Parse(a).Some? && Parse(b).Some? && !Clashing(a, b)
    ensures Compare(a, b) == -Compare(b, a)
    ensures Compare(a, b) == 0 <==> Normalize(a) == Normalize(b)
  {
    AntisymmetricIff(a, b);
    ZeroIffEqual(a, b);
  }

  // ---- Precedence ----

  /** The length of the common beginning. */
  function Common<T(==)>(xs: seq<T>, ys: seq<T>): (n: nat)
    ensures n <= |xs| && n <= |ys| && xs[..n] == ys[..n]
    ensures n < |xs| && n < |ys| ==> xs[n] != ys[n]
  {
    if xs == [] || ys == [] || xs[0] != ys[0] then 0
    else
      var n := Common(xs[1..], ys[1..]);
      assert xs[..n + 1] == [xs[0]] + xs[1..][..n] && ys[..n + 1] == [ys[0]] + ys[1..][..n];
      n + 1
  }

  /** The first difference decides, and a proper beginning comes first. */
  predicate ComesFirst<T(==)>(xs: seq<T>, ys: seq<T>, less: (T, T) -> bool) {
    var n := Common(xs, ys);
    if n < |xs| && n < |ys| then less(xs[n], ys[n]) else |xs| < |ys|
  }

  /** Numbers by value, a number before a word, words by code points. */
  predicate LowerIdent(x: string, y: string) {
    if IsNumeric(x) && IsNumeric(y) then D.Value(x) < D.Value(y)
    else if IsNumeric(x) || IsNumeric(y) then IsNumeric(x)
    else ComesFirst(x, y, (c: char, d: char) => c < d)
  }

  /** Section 11 of SemVer 2.0.0: major, minor and patch numbers, then a prerelease before its release,
      then the identifiers of two prereleases. */
  predicate Precedes(a: Version, b: Version) {
    if a.core != b.core then ComesFirst(a.core, b.core, (m: nat, n: nat) => m < n)
    else if a.pre == [] || b.pre == [] then a.pre != [] && b.pre == []
    else ComesFirst(a.pre, b.pre, LowerIdent)
  }

  lemma {:induction false} TextLessFirst(x: string, y: string)
    ensures TextLess(x, y) <==> ComesFirst(x, y, (c: char, d: char) => c < d)
  {
    if x != "" && y != "" && x[0] == y[0] {
      TextLessFirst(x[1..], y[1..]);
    }
  }

  lemma {:induction false} CoreFirst(a: seq<nat>, b: seq<nat>)
    requires |a| == |b|
    ensures CompareCore(a, b) == -1 <==> ComesFirst(a, b, (m: nat, n: nat) => m < n)
  {
    if a != [] && a[0] == b[0] {
      CoreFirst(a[1..], b[1..]);
    }
  }

  lemma IdentFirst(x: string, y: string)
    requires IdentOk(x) && IdentOk(y) && x != y && !(Saturated(x) && Saturated(y))
    ensures CompareIdent(x, y) == -1 <==> LowerIdent(x, y)
  {
    if IsNumeric(x) && IsNumeric(y) {
      NumericOrder(x, y);
    } else {
      TextLessFirst(x, y);
    }
  }

  lemma {:induction false} IdentsFirst(xs: seq<string>, ys: seq<string>)
    requires AllIdents(xs) && AllIdents(ys) && !Clash(xs, ys)
    ensures CompareIdents(xs, ys) == -1 <==> ComesFirst(xs, ys, LowerIdent)
  {
    if xs != [] && ys != [] {
      if xs[0] == ys[0] {
        IdentsFirst(xs[1..], ys[1..]);
      } else {
        IdentFirst(xs[0], ys[0]);
      }
    }
  }

  lemma CompareIsPrecedence(a: string, b: string)
    requires Parse(a).Some? && Parse(b).Some? && !Clashing(a, b)
    ensures Compare(a, b) == -1 <==> Precedes(Parse(a).value, Parse(b).value)
  {
    var x, y := Parse(a).value, Parse(b).value;
    CoreZero(x.core, y.core);
    CoreRange(x.core, y.core);
    CoreFirst(x.core, y.core);
    ParsedIdents(a);
    ParsedIdents(b);
    if x.core == y.core && x.pre != [] && y.pre != [] {
      IdentsFirst(x.pre, y.pre);
    }
  }

  /** The sign that section 11 of SemVer asks for. */
  function Sign(a: Version, b: Version): int { if Precedes(a, b) then -1 else if a == b then 0 else 1 }

  /** For any two versions the comparison has the sign of their precedence, exactly unless the first is
      below the second and they first differ in two saturated numbers. */
  lemma {:induction false} ComparesByPrecedence(a: string, b: string)
    requires Parse(a).Some? && Parse(b).Some?
    ensures Compare(a, b) == Sign(Parse(a).value, Parse(b).value)
      <==> !(Clashing(a, b) && Precedes(Parse(a).value, Parse(b).value))
    ensures !Clashing(a, b) ==> (Compare(a, b) == 1 <==> Precedes(Parse(b).value, Parse(a).value))
  {
    var x, y := Parse(a).value, Parse(b).value;
    if Clashing(a, b) {
      ClashIsAbove(a, b);
      ComparesToItself(a);
    } else {
      CompareIsPrecedence(a, b);
      AntisymmetricIff(a, b);
      AntisymmetricIff(b, a);
      CompareIsPrecedence(b, a);
      ZeroIffEqual(a, b);
      CompareRange(a, b);
    }
  }

  lemma CompareRange(a: string, b: string)
    ensures -1 <= Compare(a, b) <= 1
  {
    if Parse(a).Some? && Parse(b).Some? {
      CoreRange(Parse(a).value.core, Parse(b).value.core);
      IdentsRange(Parse(a).value.pre, Parse(b).value.pre);
    }
  }

  predicate FitsIdent(s: string) { IsNumeric(s) ==> D.Value(s) < D.TWO64 }

  /** Every numeric identifier fits in 64 bits. */
  predicate Fits(v: Version) { forall i :: 0 <= i < |v.pre| ==> FitsIdent(v.pre[i]) }

  predicate FitIdents(xs: seq<string>) { forall i :: 0 <= i < |xs| ==> IdentOk(xs[i]) && FitsIdent(xs[i]) }

  lemma {:induction false} FittingIdents(xs: seq<string>, ys: seq<string>)
    requires FitIdents(xs) && FitIdents(ys)
    ensures !Clash(xs, ys)
  {
    if xs != [] && ys != [] {
      if xs[0] == ys[0] {
        FittingIdents(xs[1..], ys[1..]);
      } else if IsNumeric(xs[0]) && IsNumeric(ys[0]) && D.Value(xs[0]) == D.Value(ys[0]) {
        D.CanonicalInjective(xs[0], ys[0]);
      }
    }
  }

  /** Versions whose numeric identifiers all fit in 64 bits never clash. */
  lemma FittingVersionsDoNotClash(a: string, b: string)
    requires Parse(a).Some? && Parse(b).Some? && Fits(Parse(a).value) && Fits(Parse(b).value)
    ensures !Clashing(a, b)
  {
    ParsedIdents(a);
    ParsedIdents(b);
    FittingIdents(Parse(a).value.pre, Parse(b).value.pre);
  }

  /** The prerelease 1.0.0-n. */
  function Numbered(n: nat): string { Show(Version([1, 0, 0], [D.Format(n)])) }

  lemma {:induction false} NumberedParses(n: nat)
    ensures Parse(Numbered(n)) == Some(Version([1, 0, 0], [D.Format(n)]))
  {
    var v := Version([1, 0, 0], [D.Format(n)]);
    assert IdentOk(v.pre[0]);
    ShownAccepted(v);
    NormalizeStable(Show(v));
  }

  /** Without the bound the order breaks: 1.0.0-m and 1.0.0-n are each reported as the larger one
      whenever m and n are different numbers of 2^64-1 or more. */
  lemma {:induction false} HugeIdentifiersBreakTheOrder(m: nat, n: nat)
    requires m != n && m >= D.TWO64 - 1 && n >= D.TWO64 - 1
    ensures Compare(Numbered(m), Numbered(n)) == 1 == Compare(Numbered(n), Numbered(m))
  {
    NumberedParses(m);
    NumberedParses(n);
    SaturatedPair([1, 0, 0], D.Format(m), D.Format(n));
    SaturatedPair([1, 0, 0], D.Format(n), D.Format(m));
  }

  lemma SaturatedPair(core: seq<nat>, x: string, y: string)
    requires D.Canonical(x) && D.Canonical(y) && x != y && D.Value(x) >= D.TWO64 - 1 && D.Value(y) >= D.TWO64 - 1
    ensures CompareParsed(Version(core, [x]), Version(core, [y])) == 1
  {
    assert ValidIdent(x) && ValidIdent(y);
    NumericOrder(x, y);
    CoreZero(core, core);
  }

  // ---- The code's own loops ----

  /** `CompareVersions`, loop by loop. */
  method CompareVersions(a: string, b: string) returns (r: int)
    ensures r == Compare(a, b)
    ensures Parse(a).None? || Parse(b).None? ==> r == 0
    ensures Parse(a).Some? && Parse(b).Some? && !Clashing(a, b) ==> r == Sign(Parse(a).value, Parse(b).value)
  {
    if Parse(a).Some? && Parse(b).Some? {
      ComparesByPrecedence(a, b);
    }
    var pa, pb := Parse(a), Parse(b);
    if pa.None? || pb.None? {
      return 0;
    }
    var x, y := pa.value, pb.value;
    for i := 0 to 3
      invariant CompareCore(x.core, y.core) == CompareCore(x.core[i..], y.core[i..])
    {
      if x.core[i] < y.core[i] {
        return -1;
      }
      if x.core[i] > y.core[i] {
        return 1;
      }
      assert x.core[i..][1..] == x.core[i + 1..] && y.core[i..][1..] == y.core[i + 1..];
    }
    assert CompareCore(x.core, y.core) == 0;
    if |x.pre| == 0 && |y.pre| == 0 {
      return 0;
    }
    if |x.pre| == 0 {
      return 1;
    }
    if |y.pre| == 0 {
      return -1;
    }
    r := CompareIdentLists(x.pre, y.pre);
  }

  method CompareIdentLists(xs: seq<string>, ys: seq<string>) returns (r: int)
    ensures r == CompareIdents(xs, ys)
  {
    var limit := |xs|;
    if |ys| < limit {
      limit := |ys|;
    }
    for i := 0 to limit
      invariant CompareIdents(xs, ys) == CompareIdents(xs[i..], ys[i..])
    {
      assert xs[i..][1..] == xs[i + 1..] && ys[i..][1..] == ys[i + 1..];
      if xs[i] != ys[i] {
        return CompareIdent(xs[i], ys[i]);
      }
    }
    if |xs| < |ys| {
      return -1;
    }
    if |xs| > |ys| {
      return 1;
    }
    return 0;
  }

  datatype Release = Release(draft: bool, tag: string)

  predicate Eligible(r: Release) { !r.draft && Normalize(r.tag).Some? }

  /** `k` is the first of the largest among the first `n` releases. */
  ghost predicate BestOf(releases: seq<Release>, n: nat, k: nat)
    requires n <= |releases|
  {
    && k < n && Eligible(releases[k])
    && forall j :: 0 <= j < n && Eligible(releases[j]) ==>
                     Compare(releases[j].tag, releases[k].tag) <= (if j < k then -1 else 0)
  }

  /** No two eligible releases clash. */
  predicate NoClashes(releases: seq<Release>) {
    forall i, j :: 0 <= i < |releases| && 0 <= j < |releases| && Eligible(releases[i]) && Eligible(releases[j]) ==>
                     !Clashing(releases[i].tag, releases[j].tag)
  }

  lemma BestKept(releases: seq<Release>, i: nat, k: nat)
    requires i < |releases| && BestOf(releases, i, k)
    requires Eligible(releases[i]) ==> Compare(releases[i].tag, releases[k].tag) <= 0
    ensures BestOf(releases, i + 1, k)
  {
  }

  lemma {:induction false} BestReplaced(releases: seq<Release>, i: nat, k: nat)
    requires NoClashes(releases) && i < |releases| && BestOf(releases, i, k) && Eligible(releases[i])
    requires Compare(releases[i].tag, releases[k].tag) > 0
    ensures BestOf(releases, i + 1, i)
  {
    forall j | 0 <= j < i && Eligible(releases[j])
      ensures Compare(releases[j].tag, releases[i].tag) <= -1
    {
      LargerThanBest(releases[j].tag, releases[k].tag, releases[i].tag);
    }
    ComparesToItself(releases[i].tag);
  }

  lemma ComparesToItself(a: string)
    requires Parse(a).Some?
    ensures Compare(a, a) == 0
  {
    ZeroIffEqual(a, a);
  }

  lemma LargerThanBest(a: string, best: string, b: string)
    requires Parse(a).Some? && Parse(best).Some? && Parse(b).Some? && !Clashing(b, best)
    requires Compare(a, best) <= 0 && Compare(b, best) > 0
    ensures Compare(a, b) <= -1
  {
    CompareTotalOrder(b, best);
    CompareTransitive(a, best, b);
  }

  lemma BestFirst(releases: seq<Release>, i: nat)
    requires NoClashes(releases) && i < |releases| && Eligible(releases[i])
    requires forall j :: 0 <= j < i ==> !Eligible(releases[j])
    ensures BestOf(releases, i + 1, i)
  {
    CompareTotalOrder(releases[i].tag, releases[i].tag);
  }

  /** What the selection loop knows after `i` releases. */
  ghost predicate Selected(releases: seq<Release>, i: nat, best: Option<nat>)
    requires i <= |releases|
  {
    if best.None? then forall j :: 0 <= j < i ==> !Eligible(releases[j]) else BestOf(releases, i, best.value)
  }

  lemma SelectSkip(releases: seq<Release>, i: nat, best: Option<nat>)
    requires i < |releases| && Selected(releases, i, best)
    requires Eligible(releases[i]) ==> best.Some? && Compare(releases[i].tag, releases[best.value].tag) <= 0
    ensures Selected(releases, i + 1, best)
  {
    if best.Some? {
      BestKept(releases, i, best.value);
    }
  }

  lemma SelectTake(releases: seq<Release>, i: nat, best: Option<nat>)
    requires NoClashes(releases) && i < |releases| && Selected(releases, i, best) && Eligible(releases[i])
    requires best.Some? ==> Compare(releases[i].tag, releases[best.value].tag) > 0
    ensures Selected(releases, i + 1, Some(i))
  {
    if best.Some? {
      BestReplaced(releases, i, best.value);
    } else {
      BestFirst(releases, i);
    }
  }

  /** Nothing eligible is larger than release `m`. */
  ghost predicate IsMax(releases: seq<Release>, m: nat) {
    && m < |releases| && Eligible(releases[m])
    && forall j :: 0 <= j < |releases| && Eligible(releases[j]) ==> Compare(releases[j].tag, releases[m].tag) <= 0
  }

  ghost predicate IsFirstMax(releases: seq<Release>, m: nat) {
    IsMax(releases, m) && forall j: nat :: j < m ==> !IsMax(releases, j)
  }

  lemma {:induction false} SomeFirstMax(releases: seq<Release>, m: nat) returns (f: nat)
    requires IsMax(releases, m)
    ensures f <= m && IsFirstMax(releases, f)
  {
    if j: nat :| j < m && IsMax(releases, j) {
      f := SomeFirstMax(releases, j);
    } else {
      f := m;
    }
  }

  /** A version that none exceeds clashes with none. */
  lemma NotAboveNotClashing(a: string, m: string)
    requires Parse(a).Some? && Parse(m).Some? && Compare(a, m) <= 0 && Compare(m, a) <= 0
    ensures Normalize(a) == Normalize(m)
  {
    if Clashing(a, m) {
      ClashIsAbove(a, m);
    }
    CompareTotalOrder(a, m);
  }

  lemma ClashIsAbove(a: string, b: string)
    requires Clashing(a, b)
    ensures Compare(a, b) == 1
  {
    var x, y := Parse(a).value, Parse(b).value;
    CoreZero(x.core, y.core);
    ParsedIdents(a);
    ParsedIdents(b);
    ClashingIdents(x.pre, y.pre);
  }

  lemma {:induction false} ClashingIdents(xs: seq<string>, ys: seq<string>)
    requires AllIdents(xs) && AllIdents(ys) && Clash(xs, ys)
    ensures CompareIdents(xs, ys) == 1
  {
    if xs[0] == ys[0] {
      ClashingIdents(xs[1..], ys[1..]);
    }
  }

  /** A release that compares with a maximum both ways as not larger is a maximum itself. */
  lemma EqualToMax(releases: seq<Release>, m: nat, b: nat)
    requires IsMax(releases, m) && b < |releases| && Eligible(releases[b])
    requires Compare(releases[m].tag, releases[b].tag) <= 0
    ensures IsMax(releases, b)
  {
    NotAboveNotClashing(releases[b].tag, releases[m].tag);
    assert Parse(releases[b].tag) == Parse(releases[m].tag);
  }

  lemma FirstMaxIsBest(releases: seq<Release>, f: nat)
    requires IsFirstMax(releases, f)
    ensures BestOf(releases, |releases|, f)
  {
    forall j | 0 <= j < f && Eligible(releases[j]) ensures Compare(releases[j].tag, releases[f].tag) <= -1 {
      if Compare(releases[j].tag, releases[f].tag) == 0 {
        ZeroIffEqual(releases[j].tag, releases[f].tag);
        ComparesToItself(releases[f].tag);
        EqualToMax(releases, f, j);
      }
    }
  }

  /** A first maximum that the loop has passed is its choice. */
  ghost predicate HasFirstMax(releases: seq<Release>, i: nat, best: Option<nat>) {
    forall m: nat :: m < i && IsFirstMax(releases, m) ==> best == Some(m)
  }

  lemma FirstMaxNext(releases: seq<Release>, i: nat, best: Option<nat>, better: bool)
    requires Chosen(releases, i, best) && HasFirstMax(releases, i, best) && i < |releases|
    requires Better(releases, i, best, better)
    ensures HasFirstMax(releases, i + 1, if better then Some(i) else best)
  {
    forall m: nat | m < i + 1 && IsFirstMax(releases, m) ensures (if better then Some(i) else best) == Some(m) {
      if m == i && !better {
        EqualToMax(releases, m, best.value);
      }
    }
  }

  /** The selection loop of the prerelease channel. It returns a release that is not a draft and
      carries a version, and fails exactly when there is none. It is one that no other exceeds, and
      the first of those, if and only if there is such a release; and there is one when no two
      eligible releases clash. */
  method SelectRelease(releases: seq<Release>) returns (best: Option<nat>)
    ensures best.None? <==> forall i :: 0 <= i < |releases| ==> !Eligible(releases[i])
    ensures best.Some? ==> best.value < |releases| && Eligible(releases[best.value])
    ensures best.Some? ==> (BestOf(releases, |releases|, best.value) <==> exists m: nat :: IsMax(releases, m))
    ensures best.Some? && NoClashes(releases) ==> BestOf(releases, |releases|, best.value)
    ensures best.Some? && NoClashes(releases) ==> NewestFirst(releases, best.value)
  {
    best := None;
    for i := 0 to |releases|
      invariant Chosen(releases, i, best) && HasFirstMax(releases, i, best)
    {
      var better := BetterThan(releases[i], if best.None? then None else Some(releases[best.value]));
      ChooseNext(releases, i, best, better);
      FirstMaxNext(releases, i, best, better);
      if better {
        best := Some(i);
      }
    }
    MaxIsBest(releases, best);
    if best.Some? && NoClashes(releases) {
      BestIsNewest(releases, best.value);
    }
  }

  /** Every other eligible release precedes release `k`, or equals it and comes later in the list. */
  ghost predicate NewestFirst(releases: seq<Release>, k: nat)
    requires k < |releases| && Eligible(releases[k])
  {
    forall j :: 0 <= j < |releases| && Eligible(releases[j]) ==>
      var best, other := Parse(releases[k].tag).value, Parse(releases[j].tag).value;
      Precedes(other, best) || (j >= k && other == best)
  }

  lemma BestIsNewest(releases: seq<Release>, k: nat)
    requires NoClashes(releases) && BestOf(releases, |releases|, k)
    ensures NewestFirst(releases, k)
  {
    forall j | 0 <= j < |releases| && Eligible(releases[j])
      ensures var best, other := Parse(releases[k].tag).value, Parse(releases[j].tag).value;
        Precedes(other, best) || (j >= k && other == best)
    {
      ComparesByPrecedence(releases[j].tag, releases[k].tag);
      assert !Clashing(releases[j].tag, releases[k].tag);
    }
  }

  lemma MaxIsBest(releases: seq<Release>, best: Option<nat>)
    requires HasFirstMax(releases, |releases|, best)
    ensures best.Some? ==> (BestOf(releases, |releases|, best.value) <==> exists m: nat :: IsMax(releases, m))
  {
    if m: nat :| IsMax(releases, m) {
      var f := SomeFirstMax(releases, m);
      FirstMaxIsBest(releases, f);
    } else if best.Some? && BestOf(releases, |releases|, best.value) {
      assert IsMax(releases, best.value);
    }
  }

  /** What one turn of the loop decides. */
  ghost predicate Better(releases: seq<Release>, i: nat, best: Option<nat>, better: bool)
    requires i < |releases| && (best.Some? ==> best.value < |releases|)
  {
    better <==> Eligible(releases[i]) && (best.Some? ==> Compare(releases[i].tag, releases[best.value].tag) > 0)
  }

  ghost predicate Chosen(releases: seq<Release>, i: nat, best: Option<nat>) {
    && i <= |releases|
    && (best.None? ==> forall j :: 0 <= j < i ==> !Eligible(releases[j]))
    && (best.Some? ==> best.value < i && Eligible(releases[best.value]))
    && (NoClashes(releases) ==> Selected(releases, i, best))
  }

  lemma ChooseNext(releases: seq<Release>, i: nat, best: Option<nat>, better: bool)
    requires Chosen(releases, i, best) && i < |releases| && Better(releases, i, best, better)
    ensures Chosen(releases, i + 1, if better then Some(i) else best)
  {
    if NoClashes(releases) {
      if better {
        SelectTake(releases, i, best);
      } else {
        SelectSkip(releases, i, best);
      }
    }
  }

  /** One turn of the loop: is this release to be taken over the best so far? The best so far is
      kept with its normalized version. */
  method BetterThan(candidate: Release, best: Option<Release>) returns (better: bool)
    requires best.Some? ==> Eligible(best.value)
    ensures better <==> Eligible(candidate) && (best.Some? ==> Compare(candidate.tag, best.value.tag) > 0)
  {
    if candidate.draft {
      return false;
    }
    var version := Normalize(candidate.tag);
    if version.None? {
      return false;
    }
    if best.None? {
      return true;
    }
    var c := CompareVersions(version.value, Normalize(best.value.tag).value);
    CompareNormalized(candidate.tag, best.value.tag);
    better := c > 0;
  }

  /** Comparing normalized texts is comparing the tags. */
  lemma CompareNormalized(a: string, b: string)
    requires Normalize(a).Some? && Normalize(b).Some?
    ensures Compare(Normalize(a).value, Normalize(b).value) == Compare(a, b)
  {
    NormalizeStable(Normalize(a).value);
    NormalizeStable(Normalize(b).value);
  }
}
