/** `--apply-system-proxy`: rewriting the three routing keys of a configuration text in place.
    The text is cut into lines; a first pass keeps the first active copy of each wanted key in
    a [proxy] section and disables every other copy; missing keys are then inserted. */
module IniPatch {
  import opened Sequences
  import opened Text
  import opened Ini
  import opened Options

  /** Values for the three routing keys; an empty value means the key must not be active. */
  datatype Routing = Routing(pac: string, server: string, noproxy: string) {
    function For(key: string): string {
      if key == "pac" then pac else if key == "server" then server else noproxy
    }

    predicate BreakFree() {
      '\n' !in pac && '\n' !in server && '\n' !in noproxy
    }
  }

  predicate RoutingKey(key: string) { key == "pac" || key == "server" || key == "noproxy" }

  datatype SystemProxy = SystemProxy(found: bool, pac: string, server: string, noproxy: string, dynamic: bool)

  /** The value choice of `patchSystemRouting`. */
  function RoutingOf(sys: SystemProxy): Routing {
    var noproxy := if sys.dynamic then "" else sys.noproxy;
    if sys.dynamic || !sys.found then Routing("", "", noproxy)
    else if sys.pac != "" then Routing(sys.pac, "", noproxy)
    else if sys.server != "" then Routing("", sys.server, noproxy)
    else Routing("", "", noproxy)
  }

  /** `normalizedINISectionName`. */
  function SectionName(line: string): Option<string> {
    var t := Trim(line);
    if |t| < 2 || t[0] != '[' || t[|t| - 1] != ']' then None
    else Some(Lower(Trim(t[1..|t| - 1])))
  }

  // Long texts are written in pieces, which the verifier handles better than one long literal.
  const APPLIED := "# Applied from " + "operating-system " + "proxy configuration."
  const PROXY_HEADER := "[proxy]"

  const DISABLED := "  # disabled by " + "--apply-system-proxy"

  function Disabled(line: string): string {
    "# " + Trim(line) + DISABLED
  }

  function Setting(key: string, v: Routing): string { key + " = " + v.For(key) }

  /** What the first pass carries from line to line. */
  datatype Scan = Scan(section: string, seen: set<string>)

  const START := Scan("", {})

  /** The key on a line the first pass would act on. */
  function LineKey(line: string): Option<string> {
    var t := Trim(line);
    if SectionName(line).Some? || t == "" || t[0] == '#' || t[0] == ';' || '=' !in t then None
    else
      var key := CanonicalKey(Trim(CutBefore(t, '=')));
      if RoutingKey(key) then Some(key) else None
  }

  predicate Keeps(key: string, st: Scan, v: Routing) {
    st.section == "proxy" && key !in st.seen && v.For(key) != ""
  }

  function PatchLine(line: string, st: Scan, v: Routing): string {
    match LineKey(line)
    case None => line
    case Some(key) => if Keeps(key, st, v) then Setting(key, v) else Disabled(line)
  }

  function Advance(line: string, st: Scan, v: Routing): Scan {
    match SectionName(line)
    case Some(name) => st.(section := name)
    case None =>
      match LineKey(line)
      case None => st
      case Some(key) => if Keeps(key, st, v) then st.(seen := st.seen + {key}) else st
  }

  function PatchLines(lines: seq<string>, st: Scan, v: Routing): (out: seq<string>)
    ensures |out| == |lines|
  {
    if lines == [] then []
    else [PatchLine(lines[0], st, v)] + PatchLines(lines[1..], Advance(lines[0], st, v), v)
  }

  function AdvanceAll(lines: seq<string>, st: Scan, v: Routing): Scan {
    if lines == [] then st else AdvanceAll(lines[1..], Advance(lines[0], st, v), v)
  }

  function MissingKeys(seen: set<string>, v: Routing): seq<string> {
    (if v.pac != "" && "pac" !in seen then ["pac"] else [])
    + (if v.server != "" && "server" !in seen then ["server"] else [])
    + (if v.noproxy != "" && "noproxy" !in seen then ["noproxy"] else [])
  }

  function Settings(keys: seq<string>, v: Routing): (lines: seq<string>)
    ensures |lines| == |keys|
  {
    if keys == [] then [] else [Setting(keys[0], v)] + Settings(keys[1..], v)
  }

  predicate OpensProxy(line: string) { SectionName(line) == Some("proxy") }

  predicate OpensSection(line: string) { SectionName(line).Some? }

  /** First line that opens a [proxy] section, or the number of lines. */
  function FirstProxy(lines: seq<string>): (i: nat)
    ensures i <= |lines|
    ensures forall j :: 0 <= j < i ==> SectionName(lines[j]) != Some("proxy")
    ensures i < |lines| ==> SectionName(lines[i]) == Some("proxy")
  {
    FirstFrom(lines, 0, OpensProxy)
  }

  /** First line at or after `from` that opens any section, or the number of lines. */
  function NextSection(lines: seq<string>, from: nat): (i: nat)
    requires from <= |lines|
    ensures from <= i <= |lines|
    ensures forall j :: from <= j < i ==> SectionName(lines[j]).None?
    ensures i < |lines| ==> SectionName(lines[i]).Some?
  {
    FirstFrom(lines, from, OpensSection)
  }

  /** `strings.TrimRight(s, "\n")`. */
  function TrimBreaks(s: string): string {
    if s != "" && s[|s| - 1] == '\n' then TrimBreaks(s[..|s| - 1]) else s
  }

  /** The text when there is no [proxy] section: a new one at the end. */
  function AppendSection(lines: seq<string>, missing: seq<string>): string {
    TrimBreaks(Join(lines, '\n')) + ("\n" + ("\n" + PROXY_HEADER + "\n" + APPLIED) + "\n") + Join(missing, '\n') + "\n"
  }

  /** The lines when the missing settings go before line `at`. */
  function InsertAt(lines: seq<string>, at: nat, missing: seq<string>): seq<string>
    requires at <= |lines|
  {
    lines[..at] + [APPLIED] + missing + lines[at..]
  }

  /** The second half of `patchINIKeys`: where the missing settings go. */
  function Finish(lines: seq<string>, seen: set<string>, v: Routing): string {
    var missing := Settings(MissingKeys(seen, v), v);
    if missing == [] then Join(lines, '\n')
    else if FirstProxy(lines) == |lines| then
      AppendSection(lines, missing)
    else
      Join(InsertAt(lines, NextSection(lines, FirstProxy(lines) + 1), missing), '\n')
  }

  function Patch(raw: string, v: Routing): string {
    var lines := Split(raw, '\n');
    Finish(PatchLines(lines, START, v), AdvanceAll(lines, START, v).seen, v)
  }

  // ---- What one line means before and after ----

  lemma SectionReadsAsNothing(line: string)
    requires SectionName(line).Some?
    ensures ReadLine(line) == []
  {
  }

  /** The first pass sees a routing key exactly where the reader does. */
  lemma {:induction false} LineKeyIsReaderKey(line: string)
    ensures LineKey(line).Some? ==>
              && RoutingKey(LineKey(line).value) && |ReadLine(line)| == 1
              && ReadLine(line)[0].Pair? && ReadLine(line)[0].key == LineKey(line).value
    ensures LineKey(line).None? ==>
              forall i :: 0 <= i < |ReadLine(line)| ==> Other(ReadLine(line)[i])
  {
    var t := Trim(line);
    if LineKey(line).Some? && t[0] == '[' {
      var b := CutBefore(t, '=');
      TrimRightShape(b);
      TrimIsTrimmed(b);
      TrimmedIsFixed(Trim(b));
    }
  }

  lemma RoutingNames(key: string)
    requires RoutingKey(key)
    ensures PlainName(key) && key != "proxy"
  {
    assert |"proxy"| == 5;
  }

  lemma {:induction false} SettingReads(key: string, value: string)
    requires PlainName(key) && key != "proxy"
    ensures ReadLine(key + " = " + value) == [Pair(key, Trim(value))]
    ensures SectionName(key + " = " + value).None?
  {
    PlainNameFixed(key);
    ReadWrittenLine(key, value);
    var line := key + " = " + value;
    assert TrimLeft(line) == line && line[0] == key[0];
    TrimRightShape(line);
  }

  lemma {:induction false} SettingMeaning(key: string, v: Routing)
    requires RoutingKey(key)
    ensures ReadLine(Setting(key, v)) == [Pair(key, Trim(v.For(key)))]
    ensures LineKey(Setting(key, v)) == Some(key)
    ensures SectionName(Setting(key, v)).None?
  {
    RoutingNames(key);
    SettingReads(key, v.For(key));
    LineKeyOfPair(Setting(key, v));
  }

  /** A line the reader takes for a routing pair is one the first pass acts on. */
  lemma LineKeyOfPair(line: string)
    requires |ReadLine(line)| == 1 && ReadLine(line)[0].Pair? && RoutingKey(ReadLine(line)[0].key)
    ensures LineKey(line) == Some(ReadLine(line)[0].key)
  {
  }

  lemma {:induction false} DisabledIsComment(line: string)
    ensures ReadLine(Disabled(line)) == []
    ensures LineKey(Disabled(line)).None?
    ensures SectionName(Disabled(line)).None?
  {
    var d := Disabled(line);
    assert d[0] == '#' && d[|d| - 1] == 'y';
    TrimmedIsFixed(d);
  }

  // ---- The pairs, key by key ----

  predicate Other(item: Item) { item.Malformed? || !RoutingKey(item.key) }

  /** Everything but the routing pairs, malformed lines included. */
  function Others(items: seq<Item>): seq<Item> {
    if items == [] then [] else (if Other(items[0]) then [items[0]] else []) + Others(items[1..])
  }

  predicate Has(item: Item, key: string) { item.Pair? && item.key == key }

  function ForKey(items: seq<Item>, key: string): seq<Item> {
    if items == [] then [] else (if Has(items[0], key) then [items[0]] else []) + ForKey(items[1..], key)
  }

  lemma {:induction false} OthersConcat(a: seq<Item>, b: seq<Item>)
    ensures Others(a + b) == Others(a) + Others(b)
  {
    if a == [] {
      ConcatEmpty(b);
    } else {
      ConcatTail(a, b);
      OthersConcat(a[1..], b);
      ConcatAssoc(if Other(a[0]) then [a[0]] else [], Others(a[1..]), Others(b));
    }
  }

  lemma {:induction false} ForKeyConcat(a: seq<Item>, b: seq<Item>, key: string)
    ensures ForKey(a + b, key) == ForKey(a, key) + ForKey(b, key)
  {
    if a == [] {
      ConcatEmpty(b);
    } else {
      ConcatTail(a, b);
      ForKeyConcat(a[1..], b, key);
      ConcatAssoc(if Has(a[0], key) then [a[0]] else [], ForKey(a[1..], key), ForKey(b, key));
    }
  }

  lemma {:induction false} OnlyOthers(items: seq<Item>, key: string)
    requires forall i :: 0 <= i < |items| ==> Other(items[i])
    requires RoutingKey(key)
    ensures Others(items) == items && ForKey(items, key) == []
  {
    if items != [] {
      OnlyOthers(items[1..], key);
    }
  }

  /** What the reader is meant to see for a key. */
  function Wanted(key: string, v: Routing): seq<Item> {
    if v.For(key) == "" then [] else [Pair(key, Trim(v.For(key)))]
  }

  lemma {:induction false} PatchLineMeaning(line: string, st: Scan, v: Routing, key: string)
    requires RoutingKey(key)
    ensures Others(ReadLine(PatchLine(line, st, v))) == Others(ReadLine(line))
    ensures ForKey(ReadLine(PatchLine(line, st, v)), key)
            == if key in Advance(line, st, v).seen - st.seen then Wanted(key, v) else []
    ensures st.seen <= Advance(line, st, v).seen
  {
    LineKeyIsReaderKey(line);
    match LineKey(line) {
      case None =>
        OnlyOthers(ReadLine(line), key);
      case Some(k) =>
        SettingMeaning(k, v);
        DisabledIsComment(line);
        if SectionName(line).Some? {
          SectionReadsAsNothing(line);
        }
    }
  }

  /** The first pass leaves every non-routing pair alone and leaves exactly one active copy of
      each key it marked as seen, none of the others. */
  lemma {:induction false} PatchLinesMeaning(lines: seq<string>, st: Scan, v: Routing, key: string)
    requires RoutingKey(key)
    ensures Others(Items(PatchLines(lines, st, v))) == Others(Items(lines))
    ensures ForKey(Items(PatchLines(lines, st, v)), key)
            == if key in AdvanceAll(lines, st, v).seen - st.seen then Wanted(key, v) else []
    ensures st.seen <= AdvanceAll(lines, st, v).seen
  {
    if lines != [] {
      var st1 := Advance(lines[0], st, v);
      var head, tail := PatchLine(lines[0], st, v), PatchLines(lines[1..], st1, v);
      PatchLineMeaning(lines[0], st, v, key);
      PatchLinesMeaning(lines[1..], st1, v, key);
      assert ([head] + tail)[1..] == tail;
      OthersConcat(ReadLine(head), Items(tail));
      OthersConcat(ReadLine(lines[0]), Items(lines[1..]));
      ForKeyConcat(ReadLine(head), Items(tail), key);
    }
  }

  lemma {:induction false} SettingsMeaning(keys: seq<string>, v: Routing, key: string)
    requires RoutingKey(key)
    requires forall i :: 0 <= i < |keys| ==> RoutingKey(keys[i])
    requires forall i, j :: 0 <= i < j < |keys| ==> keys[i] != keys[j]
    ensures Others(Items(Settings(keys, v))) == []
    ensures ForKey(Items(Settings(keys, v)), key) == if key in keys then [Pair(key, Trim(v.For(key)))] else []
  {
    if keys != [] {
      SettingMeaning(keys[0], v);
      SettingsMeaning(keys[1..], v, key);
      var head, tail := Setting(keys[0], v), Settings(keys[1..], v);
      assert ([head] + tail)[1..] == tail;
      OthersConcat(ReadLine(head), Items(tail));
      ForKeyConcat(ReadLine(head), Items(tail), key);
    }
  }

  // ---- The result as a list of lines ----

  function StripEmpty(lines: seq<string>): (r: seq<string>)
    requires |lines| >= 1
    ensures 1 <= |r| <= |lines| && r == lines[..|r|]
    ensures forall i :: |r| <= i < |lines| ==> lines[i] == ""
  {
    if |lines| > 1 && lines[|lines| - 1] == "" then StripEmpty(lines[..|lines| - 1]) else lines
  }

  lemma {:induction false} JoinLastChar(lines: seq<string>)
    requires |lines| >= 1 && lines[|lines| - 1] != ""
    ensures var s, l := Join(lines, '\n'), lines[|lines| - 1]; s != "" && s[|s| - 1] == l[|l| - 1]
  {
    if |lines| > 1 {
      JoinLastChar(lines[1..]);
    }
  }

  lemma {:induction false} TrimBreaksJoin(lines: seq<string>)
    requires |lines| >= 1 && Free(lines, '\n')
    ensures TrimBreaks(Join(lines, '\n')) == Join(StripEmpty(lines), '\n')
  {
    var last := lines[|lines| - 1];
    if |lines| > 1 && last == "" {
      var front := lines[..|lines| - 1];
      assert lines == front + [""];
      JoinConcat(front, [""], '\n');
      assert Join(lines, '\n') == Join(front, '\n') + "\n";
      assert Join(lines, '\n')[..|Join(lines, '\n')| - 1] == Join(front, '\n');
      TrimBreaksJoin(front);
    } else if last != "" {
      JoinLastChar(lines);
      assert last[|last| - 1] in last;
    }
  }

  /** The same result as `Finish`, before joining. */
  function FinishLines(lines: seq<string>, seen: set<string>, v: Routing): seq<string>
    requires |lines| >= 1
  {
    var missing := Settings(MissingKeys(seen, v), v);
    if missing == [] then lines
    else if FirstProxy(lines) == |lines| then
      StripEmpty(lines) + ["", PROXY_HEADER, APPLIED] + missing + [""]
    else
      InsertAt(lines, NextSection(lines, FirstProxy(lines) + 1), missing)
  }

  lemma {:induction false} FinishIsJoin(lines: seq<string>, seen: set<string>, v: Routing)
    requires |lines| >= 1 && Free(lines, '\n')
    ensures Finish(lines, seen, v) == Join(FinishLines(lines, seen, v), '\n')
  {
    var missing := Settings(MissingKeys(seen, v), v);
    if missing != [] && FirstProxy(lines) == |lines| {
      TrimBreaksJoin(lines);
      JoinThree(PROXY_HEADER, APPLIED);
      FourJoined(StripEmpty(lines), ["", PROXY_HEADER, APPLIED], missing);
    }
  }

  lemma JoinThree(header: string, note: string)
    ensures Join(["", header, note], '\n') == "\n" + header + "\n" + note
  {
    var mid := ["", header, note];
    assert mid[1..] == [header, note] && mid[1..][1..] == [note];
    assert Join([header, note], '\n') == header + "\n" + note;
  }

  lemma {:induction false} FourJoined(front: seq<string>, mid: seq<string>, missing: seq<string>)
    requires |front| >= 1 && |mid| >= 1 && |missing| >= 1
    ensures Join(front + mid + missing + [""], '\n')
            == Join(front, '\n') + ("\n" + Join(mid, '\n') + "\n") + Join(missing, '\n') + "\n"
  {
    JoinConcat(front, mid, '\n');
    JoinConcat(front + mid, missing, '\n');
    JoinConcat(front + mid + missing, [""], '\n');
  }

  lemma TrimKeepsFree(s: string, c: char)
    requires c !in s
    ensures c !in Trim(s)
  {
    TrimLeftShape(s);
    TrimRightShape(TrimLeft(s));
  }

  lemma PatchLineFree(line: string, st: Scan, v: Routing)
    requires '\n' !in line && v.BreakFree()
    ensures '\n' !in PatchLine(line, st, v)
  {
    match LineKey(line)
    case None =>
    case Some(key) =>
      SettingFree(key, v);
      DisabledFree(line);
  }

  lemma DisabledFree(line: string)
    requires '\n' !in line
    ensures '\n' !in Disabled(line)
  {
    TrimKeepsFree(line, '\n');
  }

  lemma SettingFree(key: string, v: Routing)
    requires RoutingKey(key) && v.BreakFree()
    ensures '\n' !in Setting(key, v)
  {
  }

  lemma {:induction false} PatchLinesFree(lines: seq<string>, st: Scan, v: Routing)
    requires Free(lines, '\n') && v.BreakFree()
    ensures Free(PatchLines(lines, st, v), '\n')
  {
    if lines != [] {
      PatchLineFree(lines[0], st, v);
      PatchLinesFree(lines[1..], Advance(lines[0], st, v), v);
    }
  }

  lemma {:induction false} SettingsFree(keys: seq<string>, v: Routing)
    requires v.BreakFree() && forall i :: 0 <= i < |keys| ==> RoutingKey(keys[i])
    ensures Free(Settings(keys, v), '\n')
  {
    if keys != [] {
      SettingsFree(keys[1..], v);
    }
  }

  lemma FixedLinesFree()
    ensures Free(["", PROXY_HEADER, APPLIED], '\n') && Free([""], '\n') && Free([APPLIED], '\n')
  {
  }

  lemma FreeFour(a: seq<string>, b: seq<string>, c: seq<string>, d: seq<string>)
    requires Free(a, '\n') && Free(b, '\n') && Free(c, '\n') && Free(d, '\n')
    ensures Free(a + b + c + d, '\n')
  {
  }

  lemma {:induction false} FinishLinesFree(lines: seq<string>, seen: set<string>, v: Routing)
    requires |lines| >= 1 && Free(lines, '\n') && v.BreakFree()
    ensures Free(FinishLines(lines, seen, v), '\n') && |FinishLines(lines, seen, v)| >= 1
  {
    SettingsFree(MissingKeys(seen, v), v);
    var missing := Settings(MissingKeys(seen, v), v);
    FixedLinesFree();
    if missing != [] {
      if FirstProxy(lines) == |lines| {
        FreeFour(StripEmpty(lines), ["", PROXY_HEADER, APPLIED], missing, [""]);
      } else {
        var at := NextSection(lines, FirstProxy(lines) + 1);
        FreeFour(lines[..at], [APPLIED], missing, lines[at..]);
      }
    }
  }

  lemma {:induction false} BlankLinesReadAsNothing(lines: seq<string>)
    requires forall i :: 0 <= i < |lines| ==> ReadLine(lines[i]) == []
    ensures Items(lines) == []
  {
    if lines != [] {
      BlankLinesReadAsNothing(lines[1..]);
    }
  }

  lemma BlankReadsAsNothing()
    ensures ReadLine("") == [] && SectionName("").None? && LineKey("").None?
  {
    TrimmedIsFixed("");
  }

  lemma HeaderIsSection()
    ensures SectionName(PROXY_HEADER) == Some("proxy")
  {
    TrimmedIsFixed(PROXY_HEADER);
    assert PROXY_HEADER[1..|PROXY_HEADER| - 1] == "proxy";
    TrimmedIsFixed("proxy");
    PlainNameLower("proxy");
  }

  lemma HeaderReadsAsNothing()
    ensures ReadLine(PROXY_HEADER) == [] && SectionName(PROXY_HEADER) == Some("proxy") && LineKey(PROXY_HEADER).None?
  {
    HeaderIsSection();
    SectionReadsAsNothing(PROXY_HEADER);
  }

  lemma NoteReadsAsNothing()
    ensures ReadLine(APPLIED) == [] && SectionName(APPLIED).None? && LineKey(APPLIED).None?
  {
    TrimmedIsFixed(APPLIED);
  }

  lemma FixedLinesReadAsNothing()
    ensures ReadLine("") == [] && ReadLine(PROXY_HEADER) == [] && ReadLine(APPLIED) == []
    ensures SectionName(PROXY_HEADER) == Some("proxy")
    ensures SectionName("").None? && SectionName(APPLIED).None?
    ensures LineKey("").None? && LineKey(PROXY_HEADER).None? && LineKey(APPLIED).None?
  {
    BlankReadsAsNothing();
    HeaderReadsAsNothing();
    NoteReadsAsNothing();
  }

  /** Finishing only adds the missing settings to what the reader sees. */
  lemma {:induction false} FinishMeaning(lines: seq<string>, seen: set<string>, v: Routing, key: string)
    requires |lines| >= 1 && RoutingKey(key)
    ensures Others(Items(FinishLines(lines, seen, v))) == Others(Items(lines))
    ensures key !in seen && v.For(key) != "" && ForKey(Items(lines), key) == [] ==>
              ForKey(Items(FinishLines(lines, seen, v)), key) == Wanted(key, v)
    ensures key in seen || v.For(key) == "" ==>
              ForKey(Items(FinishLines(lines, seen, v)), key) == ForKey(Items(lines), key)
  {
    var missing := Settings(MissingKeys(seen, v), v);
    SettingsMeaning(MissingKeys(seen, v), v, key);
    if missing != [] {
      if FirstProxy(lines) == |lines| {
        EndMeaning(lines, missing, key);
      } else {
        MiddleMeaning(lines, NextSection(lines, FirstProxy(lines) + 1), missing, key);
      }
    }
  }

  lemma {:induction false} EndMeaning(lines: seq<string>, missing: seq<string>, key: string)
    requires |lines| >= 1 && Others(Items(missing)) == []
    ensures var out := Items(StripEmpty(lines) + ["", PROXY_HEADER, APPLIED] + missing + [""]);
            && Others(out) == Others(Items(lines))
            && (ForKey(Items(lines), key) == [] ==> ForKey(out, key) == ForKey(Items(missing), key))
            && (ForKey(Items(missing), key) == [] ==> ForKey(out, key) == ForKey(Items(lines), key))
  {
    EndInsertion(lines, missing);
    InsertedMeaning(Items(lines), Items(missing), [], key);
  }

  lemma {:induction false} MiddleMeaning(lines: seq<string>, at: nat, missing: seq<string>, key: string)
    requires at <= |lines| && Others(Items(missing)) == []
    ensures var out := Items(InsertAt(lines, at, missing));
            && Others(out) == Others(Items(lines))
            && (ForKey(Items(lines), key) == [] ==> ForKey(out, key) == ForKey(Items(missing), key))
            && (ForKey(Items(missing), key) == [] ==> ForKey(out, key) == ForKey(Items(lines), key))
  {
    AppliedReadsAsNothing();
    MiddleInsertion(lines, [APPLIED], missing, at);
    InsertedMeaning(Items(lines[..at]), Items(missing), Items(lines[at..]), key);
  }

  lemma AppliedReadsAsNothing()
    ensures Items([APPLIED]) == []
  {
    FixedLinesReadAsNothing();
    BlankLinesReadAsNothing([APPLIED]);
  }

  lemma {:induction false} EndInsertion(lines: seq<string>, missing: seq<string>)
    requires |lines| >= 1
    ensures Items(StripEmpty(lines) + ["", PROXY_HEADER, APPLIED] + missing + [""])
            == Items(lines) + Items(missing) + []
    ensures Items(lines) == Items(lines) + []
  {
    var front, back := StripEmpty(lines), lines[|StripEmpty(lines)|..];
    var mid := ["", PROXY_HEADER, APPLIED];
    FixedLinesReadAsNothing();
    assert lines == front + back;
    BlankLinesReadAsNothing(back);
    BlankLinesReadAsNothing(mid);
    BlankLinesReadAsNothing([""]);
    ItemsConcat(front, back);
    ConcatEmpty(Items(front));
    ItemsOfFour(front, mid, missing, [""]);
  }

  lemma {:induction false} MiddleInsertion(lines: seq<string>, note: seq<string>, missing: seq<string>, at: nat)
    requires at <= |lines| && Items(note) == []
    ensures Items(lines[..at] + note + missing + lines[at..])
            == Items(lines[..at]) + Items(missing) + Items(lines[at..])
    ensures Items(lines) == Items(lines[..at]) + Items(lines[at..])
  {
    Halves(lines, at);
    InsertedItems(lines[..at], note, missing, lines[at..]);
  }

  lemma InsertedItems(a: seq<string>, note: seq<string>, missing: seq<string>, b: seq<string>)
    requires Items(note) == []
    ensures Items(a + note + missing + b) == Items(a) + Items(missing) + Items(b)
    ensures Items(a + b) == Items(a) + Items(b)
  {
    ItemsOfFour(a, note, missing, b);
    ItemsConcat(a, b);
  }

  lemma {:induction false} ItemsOfFour(a: seq<string>, b: seq<string>, c: seq<string>, d: seq<string>)
    requires Items(b) == []
    ensures Items(a + b + c + d) == Items(a) + Items(c) + Items(d)
  {
    ItemsConcat(a, b);
    ConcatEmpty(Items(a));
    ItemsConcat(a + b, c);
    ItemsConcat(a + b + c, d);
  }

  lemma InsertedMeaning(a: seq<Item>, x: seq<Item>, b: seq<Item>, key: string)
    requires Others(x) == []
    ensures Others(a + x + b) == Others(a + b)
    ensures ForKey(a + b, key) == [] ==> ForKey(a + x + b, key) == ForKey(x, key)
    ensures ForKey(x, key) == [] ==> ForKey(a + x + b, key) == ForKey(a + b, key)
  {
    OthersConcat(a, x);
    OthersConcat(a + x, b);
    OthersConcat(a, b);
    ForKeyConcat(a, x, key);
    ForKeyConcat(a + x, b, key);
    ForKeyConcat(a, b, key);
  }

  lemma {:induction false} PatchIsJoin(raw: string, v: Routing)
    requires v.BreakFree()
    ensures var lines := Split(raw, '\n');
            var out := FinishLines(PatchLines(lines, START, v), AdvanceAll(lines, START, v).seen, v);
            Patch(raw, v) == Join(out, '\n') && Split(Patch(raw, v), '\n') == out
  {
    var lines := Split(raw, '\n');
    var patched, seen := PatchLines(lines, START, v), AdvanceAll(lines, START, v).seen;
    PatchLinesFree(lines, START, v);
    FinishIsJoin(patched, seen, v);
    FinishLinesFree(patched, seen, v);
    SplitJoin(FinishLines(patched, seen, v), '\n');
  }

  /** Patching preserves meaning: for every text and all line-break-free values, the reader
      sees the same non-routing pairs and the same malformed lines in the same order, and each
      routing key exactly once with its trimmed value when that value is not empty, and not at
      all otherwise. */
  lemma {:induction false} PatchPreservesMeaning(raw: string, v: Routing, key: string)
    requires v.BreakFree() && RoutingKey(key)
    ensures Others(Read(Patch(raw, v))) == Others(Read(raw))
    ensures ForKey(Read(Patch(raw, v)), key) == Wanted(key, v)
  {
    var lines := Split(raw, '\n');
    var patched, seen := PatchLines(lines, START, v), AdvanceAll(lines, START, v).seen;
    PatchIsJoin(raw, v);
    ReadIsItemsOfSplit(raw);
    ReadIsItemsOfSplit(Patch(raw, v));
    PatchLinesMeaning(lines, START, v, key);
    FinishMeaning(patched, seen, v, key);
  }

  // ---- Patching twice ----

  lemma {:induction false} PatchLinesConcat(a: seq<string>, b: seq<string>, st: Scan, v: Routing)
    ensures PatchLines(a + b, st, v) == PatchLines(a, st, v) + PatchLines(b, AdvanceAll(a, st, v), v)
    ensures AdvanceAll(a + b, st, v) == AdvanceAll(b, AdvanceAll(a, st, v), v)
  {
    if a == [] {
      ConcatEmpty(b);
    } else {
      var st1 := Advance(a[0], st, v);
      ConcatTail(a, b);
      PatchLinesConcat(a[1..], b, st1, v);
      ConcatAssoc([PatchLine(a[0], st, v)], PatchLines(a[1..], st1, v), PatchLines(b, AdvanceAll(a, st, v), v));
    }
  }

  lemma {:induction false} PatchLineStable(line: string, st: Scan, v: Routing)
    ensures PatchLine(PatchLine(line, st, v), st, v) == PatchLine(line, st, v)
    ensures Advance(PatchLine(line, st, v), st, v) == Advance(line, st, v)
    ensures SectionName(PatchLine(line, st, v)) == SectionName(line)
  {
    LineKeyIsReaderKey(line);
    match LineKey(line) {
      case None =>
      case Some(k) =>
        SettingMeaning(k, v);
        DisabledIsComment(line);
    }
  }

  lemma {:induction false} PatchLinesStable(lines: seq<string>, st: Scan, v: Routing)
    ensures PatchLines(PatchLines(lines, st, v), st, v) == PatchLines(lines, st, v)
    ensures AdvanceAll(PatchLines(lines, st, v), st, v) == AdvanceAll(lines, st, v)
  {
    if lines != [] {
      var st1 := Advance(lines[0], st, v);
      var head, tail := PatchLine(lines[0], st, v), PatchLines(lines[1..], st1, v);
      PatchLineStable(lines[0], st, v);
      PatchLinesStable(lines[1..], st1, v);
      assert ([head] + tail)[1..] == tail;
    }
  }

  /** A list of lines the first pass does not change. */
  predicate Fixed(lines: seq<string>, st: Scan, v: Routing) {
    PatchLines(lines, st, v) == lines
  }

  lemma {:induction false} FixedParts(a: seq<string>, b: seq<string>, st: Scan, v: Routing)
    ensures Fixed(a + b, st, v) <==> Fixed(a, st, v) && Fixed(b, AdvanceAll(a, st, v), v)
  {
    PatchLinesConcat(a, b, st, v);
    var pa, pb := PatchLines(a, st, v), PatchLines(b, AdvanceAll(a, st, v), v);
    assert pa == (pa + pb)[..|a|] && pb == (pa + pb)[|a|..];
    assert a == (a + b)[..|a|] && b == (a + b)[|a|..];
  }

  /** Without a [proxy] section nothing is ever marked as seen. */
  lemma {:induction false} NoProxyNothingSeen(lines: seq<string>, st: Scan, v: Routing)
    requires st.section != "proxy"
    requires forall i :: 0 <= i < |lines| ==> SectionName(lines[i]) != Some("proxy")
    ensures AdvanceAll(lines, st, v).seen == st.seen
  {
    if lines != [] {
      NoProxyNothingSeen(lines[1..], Advance(lines[0], st, v), v);
    }
  }

  lemma {:induction false} NoSectionKeepsSection(lines: seq<string>, st: Scan, v: Routing)
    requires forall i :: 0 <= i < |lines| ==> SectionName(lines[i]).None?
    ensures AdvanceAll(lines, st, v).section == st.section
  {
    if lines != [] {
      NoSectionKeepsSection(lines[1..], Advance(lines[0], st, v), v);
    }
  }

  function SetOf(keys: seq<string>): set<string> { set k | k in keys }

  /** Inserted settings are already in their final form, and mark their keys as seen. */
  lemma {:induction false} SettingsFixed(keys: seq<string>, st: Scan, v: Routing)
    requires st.section == "proxy"
    requires forall i :: 0 <= i < |keys| ==> RoutingKey(keys[i]) && keys[i] !in st.seen && v.For(keys[i]) != ""
    requires forall i, j :: 0 <= i < j < |keys| ==> keys[i] != keys[j]
    ensures Fixed(Settings(keys, v), st, v)
    ensures AdvanceAll(Settings(keys, v), st, v) == Scan("proxy", st.seen + SetOf(keys))
  {
    if keys == [] {
      assert SetOf(keys) == {};
    } else {
      SettingMeaning(keys[0], v);
      var st1 := Advance(Setting(keys[0], v), st, v);
      assert st1 == Scan("proxy", st.seen + {keys[0]});
      SettingsFixed(keys[1..], st1, v);
      var all := Settings(keys, v);
      assert all[0] == Setting(keys[0], v) && all[1..] == Settings(keys[1..], v);
      assert SetOf(keys) == {keys[0]} + SetOf(keys[1..]);
    }
  }

  /** Keys that do not occur among active lines may be marked as seen beforehand. */
  lemma {:induction false} WidenSeen(lines: seq<string>, st: Scan, more: set<string>, v: Routing)
    requires forall k :: k in more ==> RoutingKey(k) && ForKey(Items(lines), k) == []
    ensures PatchLines(lines, Scan(st.section, st.seen + more), v) == PatchLines(lines, st, v)
    ensures AdvanceAll(lines, Scan(st.section, st.seen + more), v)
            == Scan(AdvanceAll(lines, st, v).section, AdvanceAll(lines, st, v).seen + more)
  {
    if lines != [] {
      var wide := Scan(st.section, st.seen + more);
      LineKeyIsReaderKey(lines[0]);
      forall k | k in more
        ensures ForKey(Items(lines[1..]), k) == [] && ForKey(ReadLine(lines[0]), k) == []
      {
        ForKeyConcat(ReadLine(lines[0]), Items(lines[1..]), k);
      }
      assert LineKey(lines[0]).Some? ==> LineKey(lines[0]).value !in more;
      var st1 := Advance(lines[0], st, v);
      assert Advance(lines[0], wide, v) == Scan(st1.section, st1.seen + more);
      WidenSeen(lines[1..], st1, more, v);
    }
  }

  lemma {:induction false} InsertAtEndFixed(lines: seq<string>, v: Routing)
    requires |lines| >= 1 && Fixed(lines, START, v) && FirstProxy(lines) == |lines|
    ensures var keys := MissingKeys({}, v);
            var out := StripEmpty(lines) + ["", PROXY_HEADER, APPLIED] + Settings(keys, v) + [""];
            Fixed(out, START, v) && AdvanceAll(out, START, v).seen == SetOf(keys)
  {
    var front := StripEmpty(lines);
    Halves(lines, |front|);
    FixedParts(front, lines[|front|..], START, v);
    NoProxyNothingSeen(front, START, v);
    NewSectionFixed(front, v);
  }

  /** A new section behind lines that are in their final form and have marked no key as seen. */
  lemma NewSectionFixed(front: seq<string>, v: Routing)
    requires Fixed(front, START, v) && AdvanceAll(front, START, v).seen == {}
    ensures var keys := MissingKeys({}, v);
            var out := front + ["", PROXY_HEADER, APPLIED] + Settings(keys, v) + [""];
            Fixed(out, START, v) && AdvanceAll(out, START, v).seen == SetOf(keys)
  {
    var keys, st := MissingKeys({}, v), Scan("proxy", {});
    MidFixed(AdvanceAll(front, START, v), v);
    SettingsFixed(keys, st, v);
    BlankFixed(AdvanceAll(Settings(keys, v), st, v), v);
    FourFixed(front, ["", PROXY_HEADER, APPLIED], Settings(keys, v), [""], v);
  }

  lemma BlankFixed(st: Scan, v: Routing)
    ensures Fixed([""], st, v) && AdvanceAll([""], st, v) == st
  {
    FixedLinesReadAsNothing();
  }

  lemma {:induction false} FourFixed(a: seq<string>, b: seq<string>, c: seq<string>, d: seq<string>, v: Routing)
    requires var s1 := AdvanceAll(a, START, v); var s2 := AdvanceAll(b, s1, v); var s3 := AdvanceAll(c, s2, v);
             Fixed(a, START, v) && Fixed(b, s1, v) && Fixed(c, s2, v) && Fixed(d, s3, v)
    ensures Fixed(a + b + c + d, START, v)
    ensures AdvanceAll(a + b + c + d, START, v)
            == AdvanceAll(d, AdvanceAll(c, AdvanceAll(b, AdvanceAll(a, START, v), v), v), v)
  {
    FixedParts(a, b, START, v);
    PatchLinesConcat(a, b, START, v);
    FixedParts(a + b, c, START, v);
    PatchLinesConcat(a + b, c, START, v);
    FixedParts(a + b + c, d, START, v);
    PatchLinesConcat(a + b + c, d, START, v);
  }

  lemma MidFixed(st: Scan, v: Routing)
    ensures Fixed(["", PROXY_HEADER, APPLIED], st, v)
    ensures AdvanceAll(["", PROXY_HEADER, APPLIED], st, v) == Scan("proxy", st.seen)
  {
    FixedLinesReadAsNothing();
    var mid := ["", PROXY_HEADER, APPLIED];
    var st2 := st.(section := "proxy");
    assert mid[1..] == [PROXY_HEADER, APPLIED] && mid[1..][1..] == [APPLIED] && mid[1..][1..][1..] == [];
    assert Advance("", st, v) == st && Advance(PROXY_HEADER, st, v) == st2 && Advance(APPLIED, st2, v) == st2;
    assert PatchLines([APPLIED], st2, v) == [APPLIED] && AdvanceAll([APPLIED], st2, v) == st2;
    assert PatchLines([PROXY_HEADER, APPLIED], st, v) == [PROXY_HEADER, APPLIED];
    assert AdvanceAll([PROXY_HEADER, APPLIED], st, v) == st2;
  }

  lemma {:induction false} InsertInSectionFixed(lines: seq<string>, keys: seq<string>, v: Routing)
    requires Fixed(lines, START, v) && FirstProxy(lines) < |lines|
    requires forall i :: 0 <= i < |keys| ==>
                           RoutingKey(keys[i]) && keys[i] !in AdvanceAll(lines, START, v).seen && v.For(keys[i]) != ""
    requires forall i, j :: 0 <= i < j < |keys| ==> keys[i] != keys[j]
    ensures var at := NextSection(lines, FirstProxy(lines) + 1);
            var out := lines[..at] + [APPLIED] + Settings(keys, v) + lines[at..];
            Fixed(out, START, v) && AdvanceAll(out, START, v).seen == AdvanceAll(lines, START, v).seen + SetOf(keys)
  {
    var p := FirstProxy(lines);
    var at := NextSection(lines, p + 1);
    var a, b, missing := lines[..at], lines[at..], Settings(keys, v);
    assert lines == a + b;
    FixedParts(a, b, START, v);
    PatchLinesConcat(a, b, START, v);
    var st := AdvanceAll(a, START, v);
    assert st.section == "proxy" by {
      SectionAtInsertion(lines, v);
    }
    assert st.seen <= AdvanceAll(lines, START, v).seen by {
      PatchLinesMeaning(b, st, v, "pac");
    }
    FixedLinesReadAsNothing();
    assert Fixed([APPLIED], st, v) && AdvanceAll([APPLIED], st, v) == st;
    SettingsFixed(keys, st, v);
    forall k | k in SetOf(keys)
      ensures RoutingKey(k) && ForKey(Items(b), k) == []
    {
      PatchLinesMeaning(lines, START, v, k);
      ItemsConcat(a, b);
      ForKeyConcat(Items(a), Items(b), k);
    }
    WidenSeen(b, st, SetOf(keys), v);
    FourFixed(a, [APPLIED], missing, b, v);
  }

  lemma SectionOfHeader(a: seq<string>, header: string, c: seq<string>, name: string, v: Routing)
    requires SectionName(header) == Some(name) && forall i :: 0 <= i < |c| ==> SectionName(c[i]).None?
    ensures AdvanceAll(a + [header] + c, START, v).section == name
  {
    PatchLinesConcat(a, [header], START, v);
    PatchLinesConcat(a + [header], c, START, v);
    var st := AdvanceAll(a, START, v);
    assert [header][1..] == [];
    assert AdvanceAll([header], st, v) == Advance(header, st, v);
    NoSectionKeepsSection(c, Advance(header, st, v), v);
  }

  lemma {:induction false} SectionAtInsertion(lines: seq<string>, v: Routing)
    requires FirstProxy(lines) < |lines|
    ensures AdvanceAll(lines[..NextSection(lines, FirstProxy(lines) + 1)], START, v).section == "proxy"
  {
    var p := FirstProxy(lines);
    var at := NextSection(lines, p + 1);
    AroundOne(lines, p, at);
    NoSectionBetween(lines, p, at, lines[p + 1..at]);
    SectionOfHeader(lines[..p], lines[p], lines[p + 1..at], "proxy", v);
  }

  lemma NoSectionBetween(lines: seq<string>, p: nat, at: nat, c: seq<string>)
    requires p < at <= |lines| && forall j :: p < j < at ==> SectionName(lines[j]).None?
    requires c == lines[p + 1..at]
    ensures forall i :: 0 <= i < |c| ==> SectionName(c[i]).None?
  {
    forall i | 0 <= i < |c| ensures SectionName(c[i]).None? {
      assert c[i] == lines[p + 1 + i];
    }
  }

  /** After finishing, the first pass changes nothing and no key is missing. */
  lemma {:induction false} FinishFixed(lines: seq<string>, v: Routing)
    requires |lines| >= 1 && Fixed(lines, START, v)
    ensures var out := FinishLines(lines, AdvanceAll(lines, START, v).seen, v);
            Fixed(out, START, v) && MissingKeys(AdvanceAll(out, START, v).seen, v) == []
  {
    var seen := AdvanceAll(lines, START, v).seen;
    var keys := MissingKeys(seen, v);
    if keys != [] {
      if FirstProxy(lines) == |lines| {
        NoProxyNothingSeen(lines, START, v);
        InsertAtEndFixed(lines, v);
      } else {
        InsertInSectionFixed(lines, keys, v);
      }
      NothingMissing(seen, v);
    }
  }

  lemma NothingMissing(seen: set<string>, v: Routing)
    ensures MissingKeys(seen + SetOf(MissingKeys(seen, v)), v) == []
  {
  }

  /** Patching a second time changes no character. */
  lemma {:induction false} PatchIdempotent(raw: string, v: Routing)
    requires v.BreakFree()
    ensures Patch(Patch(raw, v), v) == Patch(raw, v)
  {
    var lines := Split(raw, '\n');
    var patched, seen := PatchLines(lines, START, v), AdvanceAll(lines, START, v).seen;
    PatchLinesStable(lines, START, v);
    PatchIsJoin(raw, v);
    FinishFixed(patched, v);
    var out := FinishLines(patched, seen, v);
    assert Settings([], v) == [];
  }

  // ---- What happens to the lines ----

  predicate SetsRouting(line: string) { ReadLine(line) != [] && !Other(ReadLine(line)[0]) }

  /** A line that sets no routing key stays as it is, comments included; one that does becomes the new
      setting of its key or a comment with its text. */
  predicate KeptLine(before: string, after: string, v: Routing) {
    if !SetsRouting(before) then after == before
    else after == ReadLine(before)[0].key + " = " + v.For(ReadLine(before)[0].key)
         || after == "# " + Trim(before) + "  # disabled by " + "--apply-system-proxy"
  }

  /** One block was added; blank lines at the end may have made place for it. */
  ghost predicate OneBlockAdded(lines: seq<string>, out: seq<string>) {
    || out == lines
    || (exists at, block :: 0 <= at <= |lines| && out == lines[..at] + block + lines[at..])
    || (exists at, block ::
          0 <= at <= |lines| && out == lines[..at] + block && forall i :: at <= i < |lines| ==> lines[i] == "")
  }

  lemma KeepsLine(line: string, st: Scan, v: Routing)
    ensures KeptLine(line, PatchLine(line, st, v), v)
  {
    LineKeyIsReaderKey(line);
    assert DISABLED == "  # disabled by " + "--apply-system-proxy";
    ConcatAssoc("# " + Trim(line), "  # disabled by ", "--apply-system-proxy");
  }

  lemma {:induction false} KeepsLines(lines: seq<string>, st: Scan, v: Routing)
    ensures forall i :: 0 <= i < |lines| ==> KeptLine(lines[i], PatchLines(lines, st, v)[i], v)
  {
    if lines != [] {
      KeepsLine(lines[0], st, v);
      KeepsLines(lines[1..], Advance(lines[0], st, v), v);
    }
  }

  lemma FinishAddsBlock(lines: seq<string>, seen: set<string>, v: Routing)
    requires |lines| >= 1
    ensures OneBlockAdded(lines, FinishLines(lines, seen, v))
  {
    var missing, out := Settings(MissingKeys(seen, v), v), FinishLines(lines, seen, v);
    if missing != [] {
      if FirstProxy(lines) == |lines| {
        var at := |StripEmpty(lines)|;
        assert out == lines[..at] + (["", PROXY_HEADER, APPLIED] + missing + [""]);
      } else {
        var at := NextSection(lines, FirstProxy(lines) + 1);
        assert out == lines[..at] + ([APPLIED] + missing) + lines[at..];
      }
    }
  }

  /** No line of the text is lost: each keeps its place and its text, up to one block of new lines. */
  lemma {:induction false} PatchKeepsLines(raw: string, v: Routing)
    requires v.BreakFree()
    ensures exists kept: seq<string> ::
      && |kept| == |Split(raw, '\n')| && OneBlockAdded(kept, Split(Patch(raw, v), '\n'))
      && forall i :: 0 <= i < |kept| ==> KeptLine(Split(raw, '\n')[i], kept[i], v)
  {
    var lines := Split(raw, '\n');
    PatchIsJoin(raw, v);
    KeepsLines(lines, START, v);
    FinishAddsBlock(PatchLines(lines, START, v), AdvanceAll(lines, START, v).seen, v);
  }

  // ---- The whole command ----

  predicate HasBreak(s: string) { '\r' in s || '\n' in s }

  /** Settings of the system that no file can hold. */
  predicate Refused(sys: SystemProxy) { HasBreak(sys.pac) || HasBreak(sys.server) || HasBreak(sys.noproxy) }

  /** What the reader sees afterwards: an automatic configuration script goes before a manual server, a
      system that has neither or decides for itself sets neither, and everything else is as before. */
  predicate FollowsSystem(before: seq<Item>, sys: SystemProxy, after: seq<Item>) {
    var fixed := sys.found && !sys.dynamic;
    && Others(after) == Others(before)
    && ForKey(after, "pac") == (if fixed && sys.pac != "" then [Pair("pac", Trim(sys.pac))] else [])
    && ForKey(after, "server")
       == (if fixed && sys.pac == "" && sys.server != "" then [Pair("server", Trim(sys.server))] else [])
    && ForKey(after, "noproxy")
       == (if !sys.dynamic && sys.noproxy != "" then [Pair("noproxy", Trim(sys.noproxy))] else [])
  }

  lemma AppliedFollows(raw: string, sys: SystemProxy)
    requires !Refused(sys)
    ensures FollowsSystem(Read(raw), sys, Read(Patch(raw, RoutingOf(sys))))
  {
    var v := RoutingOf(sys);
    PatchPreservesMeaning(raw, v, "pac");
    PatchPreservesMeaning(raw, v, "server");
    PatchPreservesMeaning(raw, v, "noproxy");
  }

  // ---- The code's own loops ----

  lemma {:induction false} OneMoreLine(orig: seq<string>, i: nat, v: Routing)
    requires i < |orig|
    ensures var st := AdvanceAll(orig[..i], START, v);
            && PatchLines(orig[..i + 1], START, v) == PatchLines(orig[..i], START, v) + [PatchLine(orig[i], st, v)]
            && AdvanceAll(orig[..i + 1], START, v) == Advance(orig[i], st, v)
  {
    var st := AdvanceAll(orig[..i], START, v);
    assert orig[..i + 1] == orig[..i] + [orig[i]];
    PatchLinesConcat(orig[..i], [orig[i]], START, v);
    assert [orig[i]][1..] == [];
    assert PatchLines([orig[i]], st, v) == [PatchLine(orig[i], st, v)];
  }

  /** One turn of the first loop of `patchINIKeys`. */
  method RewriteLine(line: string, section: string, seen: set<string>, v: Routing)
    returns (line': string, section': string, seen': set<string>)
    ensures line' == PatchLine(line, Scan(section, seen), v)
    ensures Scan(section', seen') == Advance(line, Scan(section, seen), v)
  {
    line', section', seen' := line, section, seen;
    var name := SectionName(line);
    if name.Some? {
      section' := name.value;
      return;
    }
    var t := Trim(line);
    if t == "" || t[0] == '#' || t[0] == ';' || '=' !in t {
      return;
    }
    var key := CanonicalKey(Trim(CutBefore(t, '=')));
    if !RoutingKey(key) {
      return;
    }
    if section != "proxy" || key in seen || v.For(key) == "" {
      line' := "# " + Trim(line) + DISABLED;
    } else {
      line' := key + " = " + v.For(key);
      seen' := seen + {key};
    }
  }

  /** The first `i` lines are rewritten, the others are as they were. */
  predicate Rewritten(orig: seq<string>, i: nat, lines: seq<string>, st: Scan, v: Routing)
    requires i <= |orig|
  {
    lines == PatchLines(orig[..i], START, v) + orig[i..] && st == AdvanceAll(orig[..i], START, v)
  }

  lemma RewriteNext(orig: seq<string>, i: nat, lines: seq<string>, st: Scan, v: Routing)
    requires i < |orig| && Rewritten(orig, i, lines, st, v)
    ensures |lines| == |orig| && lines[i] == orig[i]
    ensures Rewritten(orig, i + 1, lines[i := PatchLine(orig[i], st, v)], Advance(orig[i], st, v), v)
  {
    OneMoreLine(orig, i, v);
    ReplaceNext(PatchLines(orig[..i], START, v), orig[i..], PatchLine(orig[i], st, v));
  }

  lemma ReplaceNext(done: seq<string>, rest: seq<string>, line: string)
    requires rest != []
    ensures (done + rest)[|done| := line] == (done + [line]) + rest[1..]
  {
  }

  /** The first loop of `patchINIKeys`, over the lines in place. */
  method RewriteLines(orig: seq<string>, v: Routing) returns (lines: seq<string>, seen: set<string>)
    ensures lines == PatchLines(orig, START, v)
    ensures seen == AdvanceAll(orig, START, v).seen
  {
    lines, seen := orig, {};
    var section := "";
    var i := 0;
    while i < |lines|
      invariant 0 <= i <= |lines| == |orig|
      invariant Rewritten(orig, i, lines, Scan(section, seen), v)
    {
      RewriteNext(orig, i, lines, Scan(section, seen), v);
      var line;
      line, section, seen := RewriteLine(lines[i], section, seen, v);
      lines := lines[i := line];
      i := i + 1;
    }
    assert orig[..|orig|] == orig;
  }

  /** The search for the first [proxy] section and for the end of it. */
  method FindInsertion(lines: seq<string>) returns (at: Option<nat>)
    ensures at == if FirstProxy(lines) == |lines| then None else Some(NextSection(lines, FirstProxy(lines) + 1))
  {
    var proxyStart := FindFrom(lines, 0, OpensProxy);
    if proxyStart == |lines| {
      return None;
    }
    var next := FindFrom(lines, proxyStart + 1, OpensSection);
    return Some(next);
  }

  /** The rest of `patchINIKeys`. */
  method FinishText(lines: seq<string>, seen: set<string>, v: Routing) returns (text: string)
    ensures text == Finish(lines, seen, v)
  {
    var missing := Settings(MissingKeys(seen, v), v);
    if missing == [] {
      return Join(lines, '\n');
    }
    var at := FindInsertion(lines);
    if at.None? {
      text := AppendSection(lines, missing);
    } else {
      text := Join(InsertAt(lines, at.value, missing), '\n');
    }
  }

  /** `patchINIKeys`: rewrite the lines, then put the missing settings in their place. */
  method PatchKeys(raw: string, v: Routing) returns (text: string)
    ensures text == Patch(raw, v)
  {
    var lines, seen := RewriteLines(Split(raw, '\n'), v);
    text := FinishText(lines, seen, v);
  }

  /** Validation and `patchSystemRouting`: routing keys end up as the operating system says, everything
      else keeps its meaning, and applying the same settings to the result changes no character. */
  method ApplySystemProxy(raw: string, sys: SystemProxy) returns (text: Option<string>)
    ensures text.None? <==> Refused(sys)
    ensures text.Some? ==> FollowsSystem(Read(raw), sys, Read(text.value))
    ensures text.Some? ==> text.value == Patch(raw, RoutingOf(sys)) == Patch(text.value, RoutingOf(sys))
  {
    if HasBreak(sys.pac) || HasBreak(sys.server) || HasBreak(sys.noproxy) {
      return None;
    }
    var pac, server, noproxy := "", "", sys.noproxy;
    if sys.dynamic || !sys.found {
    } else if sys.pac != "" {
      pac := sys.pac;
    } else if sys.server != "" {
      server := sys.server;
    }
    if sys.dynamic {
      noproxy := "";
    }
    AppliedFollows(raw, sys);
    PatchIdempotent(raw, RoutingOf(sys));
    var patched := PatchKeys(raw, Routing(pac, server, noproxy));
    return Some(patched);
  }
}
