/** The DNS rule block of a saved configuration: `dnsINIBlock` prints it, the reader rebuilds the
    rule list from it one pair at a time. */
module DnsPolicyText {
  import opened Sequences
  import opened Text
  import opened Ini
  import opened Options

  datatype Rule = Rule(resolver: string, only: seq<string>, bypass: seq<string>)

  datatype State = State(dns: string, rules: seq<Rule>)

  const EMPTY := State("", [])

  /** The three keys of the block; every other key leaves the rules alone. */
  datatype Key = Dns | DnsOnly | DnsBypass | NoDnsKey

  function KeyOf(name: string): Key {
    if name == "dns" then Dns
    else if name == "dns_only" then DnsOnly
    else if name == "dns_bypass" then DnsBypass
    else NoDnsKey
  }

  function NameOf(k: Key): string {
    match k
    case Dns => "dns"
    case DnsOnly => "dns_only"
    case DnsBypass => "dns_bypass"
    case NoDnsKey => ""
  }

  // ---- Reading ----

  function KeepNonEmpty(items: seq<string>): seq<string> {
    if items == [] then []
    else (if Trim(items[0]) == "" then [] else [Trim(items[0])]) + KeepNonEmpty(items[1..])
  }

  /** `splitDNSPatterns`. */
  function SplitPatterns(raw: string): seq<string> { KeepNonEmpty(Split(raw, ',')) }

  function DropDot(s: string): string {
    if s != "" && s[|s| - 1] == '.' then s[..|s| - 1] else s
  }

  /** What `normalizeRulePatterns` accepts, for one pattern without commas. */
  predicate PatternOk(pattern: string) {
    var p := Lower(DropDot(Trim(pattern)));
    '/' !in p && ':' !in p && ('*' in p ==> p == "*" || "*." <= p)
  }

  predicate AllOk(patterns: seq<string>) {
    forall i :: 0 <= i < |patterns| ==> PatternOk(patterns[i])
  }

  /** `NewRules` on one rule; `valid` says which resolver texts `New` accepts. */
  predicate RuleOk(valid: string -> bool, rule: Rule) {
    valid(rule.resolver) && AllOk(rule.only) && AllOk(rule.bypass)
  }

  /** `applyDNSPolicyValue` for a value read from a file. */
  function Apply(valid: string -> bool, st: State, key: Key, value: string): Option<State> {
    match key
    case NoDnsKey => Some(st)
    case Dns =>
      var resolver := Trim(value);
      if !valid(resolver) then None
      else if resolver == "" then Some(State("", []))
      else Some(State(resolver, st.rules + [Rule(resolver, [], [])]))
    case _ =>
      if st.rules == [] then None
      else
        var n := |st.rules| - 1;
        var last := st.rules[n];
        var rule := if key == DnsOnly then last.(only := last.only + SplitPatterns(value))
                    else last.(bypass := last.bypass + SplitPatterns(value));
        if RuleOk(valid, rule) then Some(st.(rules := st.rules[n := rule])) else None
  }

  function ApplyItem(valid: string -> bool, st: State, item: Item): Option<State> {
    if item.Malformed? then None else Apply(valid, st, KeyOf(item.key), item.value)
  }

  function ApplyAll(valid: string -> bool, st: State, items: seq<Item>): Option<State>
    decreases |items|
  {
    if items == [] then Some(st)
    else match ApplyItem(valid, st, items[0])
      case None => None
      case Some(st') => ApplyAll(valid, st', items[1..])
  }

  /** The rules a text denotes. */
  function Load(valid: string -> bool, text: string): Option<State> {
    ApplyAll(valid, EMPTY, Read(text))
  }

  // ---- Printing ----

  function RuleLines(rule: Rule): seq<string> {
    [NameOf(Dns) + " = " + rule.resolver]
    + (if rule.only == [] then [] else [NameOf(DnsOnly) + " = " + Join(rule.only, ',')])
    + (if rule.bypass == [] then [] else [NameOf(DnsBypass) + " = " + Join(rule.bypass, ',')])
  }

  function Lines(rules: seq<Rule>): seq<string> {
    if rules == [] then [] else RuleLines(rules[0]) + Lines(rules[1..])
  }

  /** `dnsINIBlock`. */
  function Print(dns: string, rules: seq<Rule>): string {
    if rules == [] then NameOf(Dns) + " = " + dns + "\n" else Unlines(Lines(rules))
  }

  // ---- What survives the trip ----

  predicate PatternWF(p: string) { p != "" && Trimmed(p) && ',' !in p && '\n' !in p && PatternOk(p) }

  predicate PatternsWF(ps: seq<string>) { forall i :: 0 <= i < |ps| ==> PatternWF(ps[i]) }

  /** A rule the text form can carry. */
  predicate RuleWF(valid: string -> bool, r: Rule) {
    && r.resolver != "" && Trimmed(r.resolver) && '\n' !in r.resolver && valid(r.resolver)
    && PatternsWF(r.only) && PatternsWF(r.bypass)
  }

  predicate RulesWF(valid: string -> bool, rules: seq<Rule>) {
    forall i :: 0 <= i < |rules| ==> RuleWF(valid, rules[i])
  }

  // ---- Printing then reading ----

  lemma NamesPlain(k: Key)
    requires k != NoDnsKey
    ensures PlainName(NameOf(k)) && NameOf(k)[0] == 'd'
    ensures |NameOf(k)| == match k case Dns => 3 case DnsOnly => 8 case _ => 10
  {
  }

  lemma KeyOfName(k: Key)
    requires k != NoDnsKey
    ensures KeyOf(NameOf(k)) == k
  {
    NamesPlain(k);
    NamesPlain(Dns);
    NamesPlain(DnsOnly);
    NamesPlain(DnsBypass);
  }

  lemma LineMeaning(k: Key, value: string)
    requires k != NoDnsKey && Trimmed(value)
    ensures ReadLine(NameOf(k) + " = " + value) == [Pair(NameOf(k), value)]
    ensures '\n' !in value ==> '\n' !in NameOf(k) + " = " + value
  {
    NamesPlain(k);
    assert '\n' !in NameOf(k);
    assert NameOf(k)[0] != "proxy"[0];
    PlainNameLine(NameOf(k), value);
  }

  lemma {:induction false} JoinFacts(ps: seq<string>)
    requires ps != [] && PatternsWF(ps)
    ensures Join(ps, ',') != "" && Trimmed(Join(ps, ',')) && '\n' !in Join(ps, ',')
  {
    if |ps| > 1 {
      JoinFacts(ps[1..]);
    }
  }

  lemma {:induction false} KeepTrimmed(ps: seq<string>)
    requires PatternsWF(ps)
    ensures KeepNonEmpty(ps) == ps
  {
    if ps != [] {
      TrimmedIsFixed(ps[0]);
      KeepTrimmed(ps[1..]);
    }
  }

  /** Splitting a printed pattern list gives the patterns back. */
  lemma {:induction false} SplitPrinted(ps: seq<string>)
    requires ps != [] && PatternsWF(ps)
    ensures SplitPatterns(Join(ps, ',')) == ps
  {
    SplitJoin(ps, ',');
    KeepTrimmed(ps);
  }

  function RuleItems(r: Rule): seq<Item> {
    [Pair(NameOf(Dns), r.resolver)]
    + (if r.only == [] then [] else [Pair(NameOf(DnsOnly), Join(r.only, ','))])
    + (if r.bypass == [] then [] else [Pair(NameOf(DnsBypass), Join(r.bypass, ','))])
  }

  lemma OptionalLine(k: Key, ps: seq<string>)
    requires k != NoDnsKey && PatternsWF(ps)
    ensures var lines := if ps == [] then [] else [NameOf(k) + " = " + Join(ps, ',')];
            && Items(lines) == (if ps == [] then [] else [Pair(NameOf(k), Join(ps, ','))])
            && Free(lines, '\n')
  {
    if ps != [] {
      JoinFacts(ps);
      LineMeaning(k, Join(ps, ','));
      ItemsOne(NameOf(k) + " = " + Join(ps, ','));
    }
  }

  lemma RuleLinesMeaning(valid: string -> bool, r: Rule)
    requires RuleWF(valid, r)
    ensures Items(RuleLines(r)) == RuleItems(r)
    ensures Free(RuleLines(r), '\n')
  {
    var first := [NameOf(Dns) + " = " + r.resolver];
    var second := if r.only == [] then [] else [NameOf(DnsOnly) + " = " + Join(r.only, ',')];
    var third := if r.bypass == [] then [] else [NameOf(DnsBypass) + " = " + Join(r.bypass, ',')];
    LineMeaning(Dns, r.resolver);
    ItemsOne(first[0]);
    OptionalLine(DnsOnly, r.only);
    OptionalLine(DnsBypass, r.bypass);
    ItemsConcat(first, second);
    ItemsConcat(first + second, third);
  }

  lemma {:induction false} ApplyAllConcat(valid: string -> bool, st: State, a: seq<Item>, b: seq<Item>)
    ensures ApplyAll(valid, st, a + b)
            == match ApplyAll(valid, st, a) { case None => None case Some(st') => ApplyAll(valid, st', b) }
    decreases |a|
  {
    if a == [] {
      assert a + b == b;
    } else {
      assert (a + b)[1..] == a[1..] + b;
      if ApplyItem(valid, st, a[0]).Some? {
        ApplyAllConcat(valid, ApplyItem(valid, st, a[0]).value, a[1..], b);
      }
    }
  }

  lemma ApplyOne(valid: string -> bool, st: State, item: Item)
    ensures ApplyAll(valid, st, [item]) == ApplyItem(valid, st, item)
  {
    assert [item][1..] == [];
  }

  lemma ApplyOptional(valid: string -> bool, st: State, k: Key, ps: seq<string>)
    requires (k == DnsOnly || k == DnsBypass) && PatternsWF(ps) && st.rules != []
    requires var r := st.rules[|st.rules| - 1];
             RuleOk(valid, r) && (if k == DnsOnly then r.only == [] else r.bypass == [])
    ensures var n := |st.rules| - 1;
            var r := st.rules[n];
            ApplyAll(valid, st, if ps == [] then [] else [Pair(NameOf(k), Join(ps, ','))])
            == Some(st.(rules := st.rules[n := if k == DnsOnly then r.(only := ps) else r.(bypass := ps)]))
  {
    var n := |st.rules| - 1;
    var r := st.rules[n];
    if ps == [] {
      assert st.rules[n := r] == st.rules;
    } else {
      KeyOfName(k);
      SplitPrinted(ps);
      ApplyOne(valid, st, Pair(NameOf(k), Join(ps, ',')));
      assert [] + ps == ps;
    }
  }

  lemma Chain(valid: string -> bool, st: State, head: seq<Item>, st1: State, tail: seq<Item>, st2: State)
    requires ApplyAll(valid, st, head) == Some(st1) && ApplyAll(valid, st1, tail) == Some(st2)
    ensures ApplyAll(valid, st, head + tail) == Some(st2)
  {
    ApplyAllConcat(valid, st, head, tail);
  }

  /** The `dns` line of a rule opens it. */
  lemma OpensRule(valid: string -> bool, st: State, r: Rule)
    requires RuleWF(valid, r)
    ensures ApplyAll(valid, st, [Pair(NameOf(Dns), r.resolver)])
      == Some(State(r.resolver, st.rules + [Rule(r.resolver, [], [])]))
  {
    KeyOfName(Dns);
    TrimmedIsFixed(r.resolver);
    ApplyOne(valid, st, Pair(NameOf(Dns), r.resolver));
  }

  /** The other two lines fill its last rule in. */
  lemma FillsOnly(valid: string -> bool, rules: seq<Rule>, r: Rule)
    requires RuleWF(valid, r)
    ensures ApplyAll(valid, State(r.resolver, rules + [Rule(r.resolver, [], [])]),
                     if r.only == [] then [] else [Pair(NameOf(DnsOnly), Join(r.only, ','))])
      == Some(State(r.resolver, rules + [Rule(r.resolver, r.only, [])]))
  {
    var st := State(r.resolver, rules + [Rule(r.resolver, [], [])]);
    ApplyOptional(valid, st, DnsOnly, r.only);
    assert st.rules[|rules| := Rule(r.resolver, r.only, [])] == rules + [Rule(r.resolver, r.only, [])];
  }

  lemma FillsBypass(valid: string -> bool, rules: seq<Rule>, r: Rule)
    requires RuleWF(valid, r)
    ensures ApplyAll(valid, State(r.resolver, rules + [Rule(r.resolver, r.only, [])]),
                     if r.bypass == [] then [] else [Pair(NameOf(DnsBypass), Join(r.bypass, ','))])
      == Some(State(r.resolver, rules + [r]))
  {
    var st := State(r.resolver, rules + [Rule(r.resolver, r.only, [])]);
    ApplyOptional(valid, st, DnsBypass, r.bypass);
    assert st.rules[|rules| := r] == rules + [r];
  }

  /** The pairs of one printed rule add exactly that rule. */
  lemma {:induction false} RuleItemsApply(valid: string -> bool, st: State, r: Rule)
    requires RuleWF(valid, r)
    ensures ApplyAll(valid, st, RuleItems(r)) == Some(State(r.resolver, st.rules + [r]))
  {
    var first := [Pair(NameOf(Dns), r.resolver)];
    var second := if r.only == [] then [] else [Pair(NameOf(DnsOnly), Join(r.only, ','))];
    var third := if r.bypass == [] then [] else [Pair(NameOf(DnsBypass), Join(r.bypass, ','))];
    var st1 := State(r.resolver, st.rules + [Rule(r.resolver, [], [])]);
    var st2 := State(r.resolver, st.rules + [Rule(r.resolver, r.only, [])]);
    OpensRule(valid, st, r);
    FillsOnly(valid, st.rules, r);
    FillsBypass(valid, st.rules, r);
    Chain(valid, st, first, st1, second, st2);
    Chain(valid, st, first + second, st2, third, State(r.resolver, st.rules + [r]));
  }

  lemma {:induction false} LinesFree(valid: string -> bool, rules: seq<Rule>)
    requires RulesWF(valid, rules)
    ensures Free(Lines(rules), '\n')
  {
    if rules != [] {
      RuleLinesMeaning(valid, rules[0]);
      LinesFree(valid, rules[1..]);
    }
  }

  function AllItems(rules: seq<Rule>): seq<Item> {
    if rules == [] then [] else RuleItems(rules[0]) + AllItems(rules[1..])
  }

  lemma {:induction false} LinesItems(valid: string -> bool, rules: seq<Rule>)
    requires RulesWF(valid, rules)
    ensures Items(Lines(rules)) == AllItems(rules)
  {
    if rules != [] {
      RuleLinesMeaning(valid, rules[0]);
      LinesItems(valid, rules[1..]);
      ItemsConcat(RuleLines(rules[0]), Lines(rules[1..]));
    }
  }

  /** The state after reading printed rules. */
  function After(st: State, rules: seq<Rule>): State {
    if rules == [] then st else State(rules[|rules| - 1].resolver, st.rules + rules)
  }

  lemma AfterOneMore(st: State, r: Rule, rest: seq<Rule>)
    ensures After(After(st, [r]), rest) == After(st, [r] + rest)
  {
    assert st.rules + [r] + rest == st.rules + ([r] + rest);
    if rest == [] {
      assert [r] + rest == [r];
    }
  }

  lemma AllItemsStep(valid: string -> bool, st: State, r: Rule, tail: seq<Item>, st2: State)
    requires RuleWF(valid, r) && ApplyAll(valid, After(st, [r]), tail) == Some(st2)
    ensures ApplyAll(valid, st, RuleItems(r) + tail) == Some(st2)
  {
    RuleItemsApply(valid, st, r);
    Chain(valid, st, RuleItems(r), After(st, [r]), tail, st2);
  }

  lemma {:induction false} AllItemsApply(valid: string -> bool, rules: seq<Rule>, st: State)
    requires RulesWF(valid, rules)
    ensures ApplyAll(valid, st, AllItems(rules)) == Some(After(st, rules))
    decreases |rules|
  {
    if rules != [] {
      var r, rest := rules[0], rules[1..];
      AllItemsApply(valid, rest, After(st, [r]));
      assert rules == [r] + rest;
      AfterOneMore(st, r, rest);
      AllItemsStep(valid, st, r, AllItems(rest), After(st, rules));
    }
  }

  /** Printed rules read back, one after the other, onto whatever rules there are. */
  lemma LinesMeaning(valid: string -> bool, rules: seq<Rule>, st: State)
    requires RulesWF(valid, rules)
    ensures Free(Lines(rules), '\n')
    ensures ApplyAll(valid, st, Items(Lines(rules))) == Some(After(st, rules))
  {
    LinesFree(valid, rules);
    LinesItems(valid, rules);
    AllItemsApply(valid, rules, st);
  }

  /** For every list of well-formed rules, printing and reading returns the same rules in the
      same order. */
  lemma {:induction false} PrintThenLoad(valid: string -> bool, dns: string, rules: seq<Rule>)
    requires rules != [] && RulesWF(valid, rules)
    ensures Load(valid, Print(dns, rules)) == Some(State(rules[|rules| - 1].resolver, rules))
  {
    LinesMeaning(valid, rules, EMPTY);
    ReadUnlines(Lines(rules));
    assert [] + rules == rules;
  }

  predicate NoDns(items: seq<Item>) {
    forall i :: 0 <= i < |items| ==> items[i].Pair? && KeyOf(items[i].key) == NoDnsKey
  }

  lemma {:induction false} NoDnsNoChange(valid: string -> bool, st: State, items: seq<Item>)
    requires NoDns(items)
    ensures ApplyAll(valid, st, items) == Some(st)
    decreases |items|
  {
    if items != [] {
      NoDnsNoChange(valid, st, items[1..]);
    }
  }

  lemma NoDnsAround(valid: string -> bool, before: seq<Item>, mid: seq<Item>, after: seq<Item>, st: State)
    requires NoDns(before) && NoDns(after) && ApplyAll(valid, EMPTY, mid) == Some(st)
    ensures ApplyAll(valid, EMPTY, before + mid + after) == Some(st)
  {
    NoDnsNoChange(valid, EMPTY, before);
    NoDnsNoChange(valid, st, after);
    Chain(valid, EMPTY, before, EMPTY, mid, st);
    Chain(valid, EMPTY, before + mid, st, after, st);
  }

  lemma PrintedIsWholeLines(dns: string, rules: seq<Rule>)
    ensures WholeLines(Print(dns, rules))
  {
    if rules != [] {
      UnlinesAreWhole(Lines(rules));
    }
  }

  lemma {:induction false} UnlinesAreWhole(lines: seq<string>)
    ensures WholeLines(Unlines(lines))
  {
    if lines != [] {
      UnlinesAreWhole(lines[1..]);
    }
  }

  /** The same for the text of a whole saved file: the block among lines that say nothing about DNS. */
  lemma {:induction false} PrintThenLoadInFile(
    valid: string -> bool, before: string, dns: string, rules: seq<Rule>, after: string)
    requires rules != [] && RulesWF(valid, rules)
    requires WholeLines(before) && NoDns(Read(before)) && NoDns(Read(after))
    ensures Load(valid, before + Print(dns, rules) + after) == Some(State(rules[|rules| - 1].resolver, rules))
  {
    var block := Print(dns, rules);
    PrintThenLoad(valid, dns, rules);
    PrintedIsWholeLines(dns, rules);
    ReadAfterLines(before, block + after);
    ReadAfterLines(block, after);
    ConcatAssoc(before, block, after);
    ConcatAssoc(Read(before), Read(block), Read(after));
    NoDnsAround(valid, Read(before), Read(block), Read(after), State(rules[|rules| - 1].resolver, rules));
  }

  // ---- Nothing else survives ----

  lemma {:induction false} KeptPatterns(items: seq<string>)
    requires Free(items, ',') && Free(items, '\n')
    ensures forall i :: 0 <= i < |KeepNonEmpty(items)| ==>
                          var p := KeepNonEmpty(items)[i]; p != "" && Trimmed(p) && ',' !in p && '\n' !in p
  {
    if items != [] {
      TrimIsTrimmed(items[0]);
      TrimPart(items[0]);
      KeptPatterns(items[1..]);
    }
  }

  lemma TrimPart(s: string)
    ensures forall c :: c in Trim(s) ==> c in s
  {
    TrimLeftShape(s);
    TrimRightShape(TrimLeft(s));
  }

  lemma {:induction false} SplitKeepsOut(s: string, sep: char, c: char)
    requires c !in s
    ensures Free(Split(s, sep), c)
  {
    if s != "" {
      SplitKeepsOut(s[1..], sep, c);
    }
  }

  predicate BreakFree(items: seq<Item>) {
    forall i :: 0 <= i < |items| && items[i].Pair? ==> '\n' !in items[i].value
  }

  lemma ReadLineBreakFree(line: string)
    requires '\n' !in line
    ensures BreakFree(ReadLine(line))
  {
    TrimPart(line);
    TrimPart(CutAfter(Trim(line), '='));
  }

  lemma {:induction false} ItemsBreakFree(lines: seq<string>)
    requires Free(lines, '\n')
    ensures BreakFree(Items(lines))
  {
    if lines != [] {
      ReadLineBreakFree(lines[0]);
      ItemsBreakFree(lines[1..]);
    }
  }

  lemma SplitPatternsWF(value: string)
    requires '\n' !in value && AllOk(SplitPatterns(value))
    ensures PatternsWF(SplitPatterns(value))
  {
    SplitKeepsOut(value, ',', '\n');
    KeptPatterns(Split(value, ','));
  }

  lemma AppendedWF(ps: seq<string>, value: string)
    requires PatternsWF(ps) && '\n' !in value && AllOk(ps + SplitPatterns(value))
    ensures PatternsWF(ps + SplitPatterns(value))
  {
    var more := SplitPatterns(value);
    forall i | 0 <= i < |more| ensures PatternOk(more[i]) {
      assert more[i] == (ps + more)[|ps| + i];
    }
    SplitPatternsWF(value);
  }

  lemma ApplyKeepsWF(valid: string -> bool, st: State, key: Key, value: string)
    requires RulesWF(valid, st.rules) && '\n' !in value && Apply(valid, st, key, value).Some?
    ensures RulesWF(valid, Apply(valid, st, key, value).value.rules)
  {
    match key
    case NoDnsKey =>
    case Dns =>
      TrimIsTrimmed(value);
      TrimPart(value);
    case DnsOnly =>
      var last := st.rules[|st.rules| - 1];
      assert RuleWF(valid, last);
      AppendedWF(last.only, value);
    case DnsBypass =>
      var last := st.rules[|st.rules| - 1];
      assert RuleWF(valid, last);
      AppendedWF(last.bypass, value);
  }

  lemma {:induction false} ApplyAllKeepsWF(valid: string -> bool, st: State, items: seq<Item>)
    requires RulesWF(valid, st.rules) && BreakFree(items) && ApplyAll(valid, st, items).Some?
    ensures RulesWF(valid, ApplyAll(valid, st, items).value.rules)
    decreases |items|
  {
    if items != [] {
      ApplyKeepsWF(valid, st, KeyOf(items[0].key), items[0].value);
      ApplyAllKeepsWF(valid, ApplyItem(valid, st, items[0]).value, items[1..]);
    }
  }

  /** Whatever text is read, the rules that come out are well-formed. */
  lemma {:induction false} LoadedRulesWF(valid: string -> bool, text: string)
    requires Load(valid, text).Some?
    ensures RulesWF(valid, Load(valid, text).value.rules)
  {
    ReadIsItemsOfSplit(text);
    ItemsBreakFree(Split(text, '\n'));
    ApplyAllKeepsWF(valid, EMPTY, Read(text));
  }

  /** Exactly the well-formed rule lists survive: a pattern with a comma, untrimmed text, a line
      break or an invalid part never comes back as it was. */
  lemma RoundTripExactly(valid: string -> bool, dns: string, rules: seq<Rule>)
    requires rules != []
    ensures (Load(valid, Print(dns, rules)).Some? && Load(valid, Print(dns, rules)).value.rules == rules)
            <==> RulesWF(valid, rules)
  {
    if RulesWF(valid, rules) {
      PrintThenLoad(valid, dns, rules);
    }
    if Load(valid, Print(dns, rules)).Some? {
      LoadedRulesWF(valid, Print(dns, rules));
    }
  }

  lemma BareLine(dns: string)
    requires '\n' !in dns
    ensures ReadLine(NameOf(Dns) + " = " + dns) == [Pair(NameOf(Dns), Trim(dns))]
    ensures '\n' !in NameOf(Dns) + " = " + dns
  {
    NamesPlain(Dns);
    PlainNameFixed(NameOf(Dns));
    assert NameOf(Dns) == "dns";
    ReadWrittenLine(NameOf(Dns), dns);
  }

  /** Without rules the block is a single resolver line, which reads back to no rules exactly
      when that resolver is blank. */
  lemma EmptyRoundTrip(valid: string -> bool, dns: string)
    requires '\n' !in dns && valid(Trim(dns))
    ensures Load(valid, Print(dns, [])).Some?
    ensures Load(valid, Print(dns, [])).value.rules == [] <==> Trim(dns) == ""
  {
    var line := NameOf(Dns) + " = " + dns;
    BareLine(dns);
    ItemsOne(line);
    UnlinesOne(line);
    ReadUnlines([line]);
    KeyOfName(Dns);
    ApplyOne(valid, EMPTY, Pair(NameOf(Dns), Trim(dns)));
    TrimIdempotent(dns);
  }

  // ---- What any pairs come to ----

  predicate Has(item: Item, key: string) { item.Pair? && item.key == key }

  predicate Opens(item: Item) { Has(item, "dns") && Trim(item.value) != "" }

  predicate Blanks(item: Item) { Has(item, "dns") && Trim(item.value) == "" }

  predicate Patterns(item: Item) { Has(item, "dns_only") || Has(item, "dns_bypass") }

  /** The pair that opened the last rule: the last resolver, unless a blank one came after it. */
  function LastOpener(items: seq<Item>): (o: Option<nat>)
    ensures o.Some? ==> o.value < |items| && Opens(items[o.value])
  {
    if items == [] || Blanks(items[|items| - 1]) then None
    else if Opens(items[|items| - 1]) then Some(|items| - 1)
    else LastOpener(items[..|items| - 1])
  }

  /** What the last `dns` pair says. */
  function LastResolver(items: seq<Item>): string {
    if items == [] then ""
    else if Has(items[|items| - 1], "dns") then Trim(items[|items| - 1].value)
    else LastResolver(items[..|items| - 1])
  }

  /** All patterns listed under a key, over any number of lines. */
  function Listed(items: seq<Item>, key: string): seq<string> {
    if items == [] then []
    else (if Has(items[0], key) then SplitPatterns(items[0].value) else []) + Listed(items[1..], key)
  }

  /** Each resolver after the last blank one opens a rule that holds all patterns listed up to the next. */
  function RulesTold(items: seq<Item>): seq<Rule>
    decreases |items|
  {
    match LastOpener(items)
    case None => []
    case Some(o) =>
      RulesTold(items[..o])
      + [Rule(Trim(items[o].value), Listed(items[o..], "dns_only"), Listed(items[o..], "dns_bypass"))]
  }

  /** Pair `i` is refused: it has no equals sign, names an invalid resolver, lists an invalid pattern, or
      lists patterns before any resolver. */
  predicate Bad(valid: string -> bool, items: seq<Item>, i: nat)
    requires i < |items|
  {
    || items[i].Malformed?
    || (Has(items[i], "dns") && !valid(Trim(items[i].value)))
    || (Patterns(items[i]) && (LastOpener(items[..i]).None? || !AllOk(SplitPatterns(items[i].value))))
  }

  predicate NoneBad(valid: string -> bool, items: seq<Item>) {
    forall i: nat :: i < |items| ==> !Bad(valid, items, i)
  }

  lemma {:induction false} ListedMore(items: seq<Item>, last: Item, key: string)
    ensures Listed(items + [last], key) == Listed(items, key) + if Has(last, key) then SplitPatterns(last.value) else []
  {
    if items == [] {
      assert items + [last] == [last];
    } else {
      assert (items + [last])[1..] == items[1..] + [last];
      ListedMore(items[1..], last, key);
      ConcatAssoc(if Has(items[0], key) then SplitPatterns(items[0].value) else [], Listed(items[1..], key),
                  if Has(last, key) then SplitPatterns(last.value) else []);
    }
  }

  /** A pair that neither opens nor blanks only adds its patterns to the last rule. */
  lemma RulesToldMore(front: seq<Item>, last: Item)
    requires !Opens(last) && !Blanks(last)
    ensures LastOpener(front + [last]) == LastOpener(front)
    ensures LastOpener(front).Some? ==>
      var o := LastOpener(front).value;
      var rule := Rule(Trim(front[o].value),
        Listed(front[o..], "dns_only") + (if Has(last, "dns_only") then SplitPatterns(last.value) else []),
        Listed(front[o..], "dns_bypass") + (if Has(last, "dns_bypass") then SplitPatterns(last.value) else []));
      RulesTold(front + [last]) == RulesTold(front[..o]) + [rule]
  {
    var items := front + [last];
    assert items[..|front|] == front;
    if LastOpener(front).Some? {
      var o := LastOpener(front).value;
      assert items[..o] == front[..o] && items[o..] == front[o..] + [last] && items[o] == front[o];
      ListedMore(front[o..], last, "dns_only");
      ListedMore(front[o..], last, "dns_bypass");
    }
  }

  lemma RulesToldOpened(front: seq<Item>, last: Item)
    requires Opens(last) || Blanks(last)
    ensures RulesTold(front + [last]) ==
      if Blanks(last) then [] else RulesTold(front) + [Rule(Trim(last.value), [], [])]
  {
    var items := front + [last];
    if Opens(last) {
      assert items[..|front|] == front && items[|front|..] == [last];
      assert Listed([last], "dns_only") == [] && Listed([last], "dns_bypass") == [];
    }
  }

  lemma KeysOfNames(key: string)
    ensures KeyOf(key) == Dns <==> key == "dns"
    ensures KeyOf(key) == DnsOnly <==> key == "dns_only"
    ensures KeyOf(key) == DnsBypass <==> key == "dns_bypass"
  {
    KeyOfName(Dns);
    KeyOfName(DnsOnly);
    KeyOfName(DnsBypass);
  }

  predicate RulesOk(valid: string -> bool, rules: seq<Rule>) {
    forall i :: 0 <= i < |rules| ==> RuleOk(valid, rules[i])
  }

  lemma AppendedOk(ps: seq<string>, more: seq<string>)
    requires AllOk(ps)
    ensures AllOk(ps + more) <==> AllOk(more)
  {
    if AllOk(ps + more) {
      forall i | 0 <= i < |more| ensures PatternOk(more[i]) {
        assert more[i] == (ps + more)[|ps| + i];
      }
    }
  }

  /** What was read before the next pair. */
  ghost predicate ReadSoFar(valid: string -> bool, front: seq<Item>, st: State) {
    st.rules == RulesTold(front) && st.dns == LastResolver(front) && RulesOk(valid, st.rules)
  }

  /** A rule with the patterns of one more pair. */
  function Longer(rule: Rule, last: Item): Rule
    requires Patterns(last)
  {
    var more := SplitPatterns(last.value);
    if last.key == "dns_only" then rule.(only := rule.only + more) else rule.(bypass := rule.bypass + more)
  }

  lemma AppliesPatterns(valid: string -> bool, rules: seq<Rule>, rule: Rule, last: Item, st: State)
    requires st.rules == rules + [rule] && RuleOk(valid, rule) && Patterns(last)
    ensures ApplyItem(valid, st, last) ==
      if AllOk(SplitPatterns(last.value)) then Some(st.(rules := rules + [Longer(rule, last)])) else None
    ensures AllOk(SplitPatterns(last.value)) ==> RuleOk(valid, Longer(rule, last))
  {
    KeysOfNames(last.key);
    AppendedOk(rule.only, SplitPatterns(last.value));
    AppendedOk(rule.bypass, SplitPatterns(last.value));
    assert st.rules[|rules| := Longer(rule, last)] == rules + [Longer(rule, last)];
  }

  /** The last of the told rules, and what more patterns make of it. */
  lemma LastRuleTold(front: seq<Item>, last: Item) returns (rules: seq<Rule>, rule: Rule)
    requires Patterns(last) && LastOpener(front).Some?
    ensures RulesTold(front) == rules + [rule] && RulesTold(front + [last]) == rules + [Longer(rule, last)]
  {
    var o := LastOpener(front).value;
    rules := RulesTold(front[..o]);
    rule := Rule(Trim(front[o].value), Listed(front[o..], "dns_only"), Listed(front[o..], "dns_bypass"));
    KeysOfNames(last.key);
    NothingListed(rule.only);
    NothingListed(rule.bypass);
    RulesToldMore(front, last);
  }

  /** More patterns for the last rule. */
  lemma ReadsPatterns(valid: string -> bool, front: seq<Item>, last: Item, st: State)
    requires ReadSoFar(valid, front, st) && Patterns(last)
    ensures ApplyItem(valid, st, last).Some? <==>
      LastOpener(front).Some? && AllOk(SplitPatterns(last.value))
    ensures ApplyItem(valid, st, last).Some? ==>
      ReadSoFar(valid, front + [last], ApplyItem(valid, st, last).value)
  {
    KeysOfNames(last.key);
    assert (front + [last])[..|front|] == front;
    if LastOpener(front).Some? {
      var rules, rule := LastRuleTold(front, last);
      assert RuleOk(valid, st.rules[|rules|]);
      AppliesPatterns(valid, rules, rule, last, st);
      assert forall i :: 0 <= i < |rules| ==> RuleOk(valid, st.rules[i]);
    }
  }

  lemma NothingListed(ps: seq<string>)
    ensures ps + [] == ps
  {
  }

  /** A resolver opens a rule, a blank one forgets all. */
  lemma ReadsResolver(valid: string -> bool, front: seq<Item>, last: Item, st: State)
    requires ReadSoFar(valid, front, st) && Has(last, "dns")
    ensures ApplyItem(valid, st, last).Some? <==> valid(Trim(last.value))
    ensures ApplyItem(valid, st, last).Some? ==>
      ReadSoFar(valid, front + [last], ApplyItem(valid, st, last).value)
  {
    KeysOfNames(last.key);
    RulesToldOpened(front, last);
  }

  /** One more pair, read after pairs that were told. */
  lemma ReadsNext(valid: string -> bool, front: seq<Item>, last: Item, st: State)
    requires ReadSoFar(valid, front, st)
    ensures ApplyItem(valid, st, last).Some? <==> !Bad(valid, front + [last], |front|)
    ensures ApplyItem(valid, st, last).Some? ==>
      ReadSoFar(valid, front + [last], ApplyItem(valid, st, last).value)
  {
    assert (front + [last])[..|front|] == front;
    if Patterns(last) {
      KeysOfNames(last.key);
      ReadsPatterns(valid, front, last, st);
    } else if Has(last, "dns") {
      ReadsResolver(valid, front, last, st);
    } else if last.Pair? {
      KeysOfNames(last.key);
      OtherKeyTellsNothing(front, last);
    }
  }

  lemma OtherKeyTellsNothing(front: seq<Item>, last: Item)
    requires !Opens(last) && !Blanks(last) && !Patterns(last)
    ensures RulesTold(front + [last]) == RulesTold(front)
  {
    RulesToldMore(front, last);
    if LastOpener(front).Some? {
      var o := LastOpener(front).value;
      NothingListed(Listed(front[o..], "dns_only"));
      NothingListed(Listed(front[o..], "dns_bypass"));
    }
  }

  lemma {:induction false} AllTold(valid: string -> bool, items: seq<Item>)
    ensures ApplyAll(valid, EMPTY, items).Some? <==> NoneBad(valid, items)
    ensures ApplyAll(valid, EMPTY, items).Some? ==> ReadSoFar(valid, items, ApplyAll(valid, EMPTY, items).value)
  {
    if items != [] {
      var front, last := items[..|items| - 1], items[|items| - 1];
      assert items == front + [last];
      AllTold(valid, front);
      ApplyAllConcat(valid, EMPTY, front, [last]);
      BadInFront(valid, front, last);
      if NoneBad(valid, front) {
        var st := ApplyAll(valid, EMPTY, front).value;
        ApplyOne(valid, st, last);
        ReadsNext(valid, front, last, st);
      }
    }
  }

  lemma BadInFront(valid: string -> bool, front: seq<Item>, last: Item)
    ensures NoneBad(valid, front + [last]) <==> NoneBad(valid, front) && !Bad(valid, front + [last], |front|)
  {
    var items := front + [last];
    forall i: nat | i < |front| ensures Bad(valid, items, i) <==> Bad(valid, front, i) {
      assert items[..i] == front[..i] && items[i] == front[i];
    }
    if NoneBad(valid, items) {
      forall i: nat | i < |front| ensures !Bad(valid, front, i) {
        assert !Bad(valid, items, i);
      }
    }
  }

  /** For every text: it is refused exactly if one of its pairs is, and else its rules are those the
      pairs tell, with the patterns of one rule collected over all its lines. */
  lemma {:induction false} RulesOfText(valid: string -> bool, text: string)
    ensures Load(valid, text).Some? <==> NoneBad(valid, Read(text))
    ensures Load(valid, text).Some? ==>
      Load(valid, text) == Some(State(LastResolver(Read(text)), RulesTold(Read(text))))
  {
    AllTold(valid, Read(text));
  }

  /** A pattern is accepted, in any letter case, if it holds no slash or colon and a star only alone or in
      front of a dot; white space around it and one final dot do not matter. */
  lemma {:induction false} PatternForms(before: string, p: string, after: string)
    requires AllSpace(before) && AllSpace(after) && Trimmed(p)
    ensures var t := if p != "" && p[|p| - 1] == '.' then p[..|p| - 1] else p;
      PatternOk(before + p + after) <==>
        '/' !in t && ':' !in t && ('*' in t ==> t == "*" || (|t| >= 2 && t[0] == '*' && t[1] == '.'))
  {
    TrimTrailingSpace(before + p, after);
    TrimLeadingSpace(before, p);
    TrimmedIsFixed(p);
    var t := DropDot(p);
    LowerKeeps(t, '/');
    LowerKeeps(t, ':');
    LowerKeeps(t, '*');
    var l := Lower(t);
    assert forall i :: 0 <= i < |t| ==> l[i] == LowerChar(t[i]);
    if |t| == 1 {
      assert t == [t[0]] && l == [l[0]];
    }
  }

  lemma LowerKeeps(t: string, c: char)
    requires c == '/' || c == ':' || c == '*'
    ensures c in Lower(t) <==> c in t
  {
    var l := Lower(t);
    if c in t {
      var i :| 0 <= i < |t| && t[i] == c;
      assert l[i] == c;
    }
    if c in l {
      var i :| 0 <= i < |l| && l[i] == c;
      assert LowerChar(t[i]) == c;
    }
  }

  // ---- The code's own loops ----

  /** `splitDNSPatterns`. */
  method CollectPatterns(raw: string) returns (patterns: seq<string>)
    ensures patterns == SplitPatterns(raw)
  {
    var parts := Split(raw, ',');
    patterns := [];
    for i := 0 to |parts|
      invariant patterns + KeepNonEmpty(parts[i..]) == KeepNonEmpty(parts)
    {
      var item := Trim(parts[i]);
      assert parts[i..][1..] == parts[i + 1..];
      if item != "" {
        patterns := patterns + [item];
      }
    }
  }

  /** `dnsINIBlock`. */
  method PrintBlock(dns: string, rules: seq<Rule>) returns (text: string)
    ensures text == Print(dns, rules)
  {
    if |rules| == 0 {
      return NameOf(Dns) + " = " + dns + "\n";
    }
    text := "";
    for i := 0 to |rules|
      invariant text == Unlines(Lines(rules[..i]))
    {
      var piece := PrintRule(rules[i]);
      text := text + piece;
      NextRuleLines(rules, i);
    }
    assert rules[..|rules|] == rules;
  }

  lemma NextRuleLines(rules: seq<Rule>, i: nat)
    requires i < |rules|
    ensures Unlines(Lines(rules[..i + 1])) == Unlines(Lines(rules[..i])) + Unlines(RuleLines(rules[i]))
  {
    assert rules[..i + 1] == rules[..i] + [rules[i]];
    LinesConcat(rules[..i], [rules[i]]);
    assert [rules[i]][1..] == [];
    assert RuleLines(rules[i]) + [] == RuleLines(rules[i]);
    assert Lines([rules[i]]) == RuleLines(rules[i]);
    UnlinesConcat(Lines(rules[..i]), RuleLines(rules[i]));
  }

  lemma {:induction false} LinesConcat(a: seq<Rule>, b: seq<Rule>)
    ensures Lines(a + b) == Lines(a) + Lines(b)
  {
    if a == [] {
      assert a + b == b;
    } else {
      assert (a + b)[1..] == a[1..] + b;
      LinesConcat(a[1..], b);
    }
  }

  /** One turn of the printing loop. */
  method PrintRule(rule: Rule) returns (piece: string)
    ensures piece == Unlines(RuleLines(rule))
  {
    piece := NameOf(Dns) + " = " + rule.resolver + "\n";
    if |rule.only| > 0 {
      piece := piece + (NameOf(DnsOnly) + " = " + Join(rule.only, ',') + "\n");
    }
    if |rule.bypass| > 0 {
      piece := piece + (NameOf(DnsBypass) + " = " + Join(rule.bypass, ',') + "\n");
    }
    PrintedRule(rule, piece);
  }

  lemma PrintedRule(rule: Rule, piece: string)
    requires piece == NameOf(Dns) + " = " + rule.resolver + "\n"
                      + (if |rule.only| > 0 then NameOf(DnsOnly) + " = " + Join(rule.only, ',') + "\n" else "")
                      + (if |rule.bypass| > 0 then NameOf(DnsBypass) + " = " + Join(rule.bypass, ',') + "\n" else "")
    ensures piece == Unlines(RuleLines(rule))
  {
    var first := [NameOf(Dns) + " = " + rule.resolver];
    var second := if rule.only == [] then [] else [NameOf(DnsOnly) + " = " + Join(rule.only, ',')];
    var third := if rule.bypass == [] then [] else [NameOf(DnsBypass) + " = " + Join(rule.bypass, ',')];
    UnlinesOne(first[0]);
    if second != [] { UnlinesOne(second[0]); }
    if third != [] { UnlinesOne(third[0]); }
    UnlinesConcat(first, second);
    UnlinesConcat(first + second, third);
  }
}
