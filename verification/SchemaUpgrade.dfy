/** Upgrading an existing configuration to schema 1: a marker line in front, and settings for
    keys the file does not set behind. The reader's view of the result is the old pairs followed
    by defaults, and the effective settings change only in one case, stated exactly. */
module SchemaUpgrade {
  import opened Sequences
  import opened Text
  import opened Ini
  import opened Options
  import Decimal

  // ---- Keys ----

  /** The keys the upgrade and the listen rules are about; every other key is `Another`. */
  datatype Field = Listen | Allow | Dns | AutoUpdate | UpdateInterval | UpdateChannel | InstallProvider
                 | Gateway | Hostonly | Another(name: string)

  function FieldOf(key: string): Field {
    if key == "listen" then Listen
    else if key == "allow" then Allow
    else if key == "dns" then Dns
    else if key == "auto_update" then AutoUpdate
    else if key == "update_interval" then UpdateInterval
    else if key == "update_channel" then UpdateChannel
    else if key == "install_provider" then InstallProvider
    else if key == "gateway" then Gateway
    else if key == "hostonly" then Hostonly
    else Another(key)
  }

  function NameOf(f: Field): string {
    match f
    case Listen => "listen"
    case Allow => "allow"
    case Dns => "dns"
    case AutoUpdate => "auto_update"
    case UpdateInterval => "update_interval"
    case UpdateChannel => "update_channel"
    case InstallProvider => "install_provider"
    case Gateway => "gateway"
    case Hostonly => "hostonly"
    case Another(name) => name
  }

  lemma NamesDiffer(f: Field)
    requires !f.Another?
    ensures |NameOf(f)| == match f
                           case Listen => 6 case Allow => 5 case Dns => 3 case AutoUpdate => 11
                           case UpdateInterval => 15 case UpdateChannel => 14 case InstallProvider => 16
                           case Gateway => 7 case Hostonly => 8
  {
  }

  lemma FieldOfName(f: Field)
    requires !f.Another?
    ensures FieldOf(NameOf(f)) == f
  {
    NamesDiffer(f);
    NamesDiffer(Listen);
    NamesDiffer(Allow);
    NamesDiffer(Dns);
    NamesDiffer(AutoUpdate);
    NamesDiffer(UpdateInterval);
    NamesDiffer(UpdateChannel);
    NamesDiffer(InstallProvider);
    NamesDiffer(Gateway);
    NamesDiffer(Hostonly);
  }

  lemma PlainNames(f: Field)
    requires !f.Another?
    ensures PlainName(NameOf(f))
  {
  }

  // ---- The text ----

  // Long texts are written in pieces, which the verifier handles better than one long literal.
  const MARKER := "# pxgo-" + "config-schema:"
  const HEADER := MARKER + " 1"
  const ADDED := "# Added by PxGo " + "configuration upgrade. " + "Existing values above " + "are preserved."

  const LISTEN_NOTE1 := "# PxGo listens on " + "all interfaces by default. " + "WARNING: combine this with "
  const LISTEN_NOTE2 := "a restrictive allow list " + "or client authentication " + "on untrusted networks."
  const ALLOW_NOTE :=
    "# Loopback clients only " + "by default; set a " + "deliberate allow list " + "for remote access."
  const DNS_NOTE := "# Custom DNS / DoH is " + "optional. Leave these " + "commented to use " + "system/VPN DNS."
  const UPDATE_NOTE := "# Automatic updates: " + "off | notify | install. " + "install is the " + "PxGo default."
  const INTERVAL_NOTE := "# Interval between " + "automatic update checks."
  const CHANNEL_NOTE := "# Release channel: " + "stable | prerelease."
  const PROVIDER_NOTE := "# Update owner: auto | " + "direct | winget | scoop | " + "homebrew."

  /** The comment `migrationBlock` writes for a key. */
  function Comment(f: Field): string {
    match f
    case Listen => LISTEN_NOTE1 + LISTEN_NOTE2
    case Allow => ALLOW_NOTE
    case Dns => DNS_NOTE
    case AutoUpdate => UPDATE_NOTE
    case UpdateInterval => INTERVAL_NOTE
    case UpdateChannel => CHANNEL_NOTE
    case _ => PROVIDER_NOTE
  }

  const DNS_SAMPLE := "# dns = https://1.1.1.1" + "/dns-query"
  const DNS_ONLY_SAMPLE := "# dns_only = " + "*.google.com"
  const DNS_BYPASS_SAMPLE := "# dns_bypass = " + "bosch.com,*.bosch.com"

  /** The defaults of the keys an upgrade may add. */
  function DefaultValue(f: Field): string {
    match f
    case Listen => "0.0.0.0"
    case Allow => "127.0.0.0/8,::1"
    case AutoUpdate => "install"
    case UpdateInterval => "24h"
    case UpdateChannel => "stable"
    case InstallProvider => "auto"
    case _ => ""
  }

  /** The keys `migrationBlock` looks for, in its order. */
  const FIELDS := [Listen, Allow, Dns, AutoUpdate, UpdateInterval, UpdateChannel, InstallProvider]

  /** What is written when a key is not set in the file. */
  function Block(f: Field): seq<string> {
    if f == Dns then ["", Comment(f), DNS_SAMPLE, DNS_ONLY_SAMPLE, DNS_BYPASS_SAMPLE]
    else if f == AutoUpdate then ["", Comment(f), NameOf(f) + " = " + DefaultValue(f)]
    else [Comment(f), NameOf(f) + " = " + DefaultValue(f)]
  }

  function Blocks(fields: seq<Field>, active: set<Field>): seq<string> {
    if fields == [] then []
    else (if fields[0] in active then [] else Block(fields[0])) + Blocks(fields[1..], active)
  }

  function MigrationLines(active: set<Field>): seq<string> {
    ["", ADDED] + Blocks(FIELDS, active)
  }

  /** `activeINIKeys`. */
  function ActiveKeys(items: seq<Item>): set<Field> {
    set i | 0 <= i < |items| && items[i].Pair? :: FieldOf(items[i].key)
  }

  function EndWithBreak(raw: string): string {
    if raw != "" && raw[|raw| - 1] == '\n' then raw else raw + "\n"
  }

  /** `upgradeToSchema1`. */
  function Upgrade(raw: string): string {
    HEADER + "\n" + (EndWithBreak(raw) + Unlines(MigrationLines(ActiveKeys(Read(raw)))))
  }

  /** The pair a missing key is written as; nothing for DNS, which is only documented. */
  function DefaultItem(f: Field): seq<Item> {
    if f == Dns then [] else [Pair(NameOf(f), DefaultValue(f))]
  }

  function Defaults(fields: seq<Field>, active: set<Field>): seq<Item> {
    if fields == [] then []
    else (if fields[0] in active then [] else DefaultItem(fields[0])) + Defaults(fields[1..], active)
  }

  lemma CommentReadsAsNothing(line: string)
    requires line != "" && line[0] == '#'
    ensures ReadLine(line) == []
  {
    TrimRightConcat("#", line[1..]);
    assert line == "#" + line[1..];
    TrimRightShape(line);
  }

  lemma {:induction false} TwoLines(a: string, b: string)
    ensures Items([a, b]) == ReadLine(a) + ReadLine(b)
  {
    assert [a, b][1..] == [b];
    ItemsOne(b);
  }

  lemma CommentsAreComments(f: Field)
    ensures Comment(f) != "" && Comment(f)[0] == '#'
  {
  }

  lemma SamplesAreComments()
    ensures DNS_SAMPLE != "" && DNS_SAMPLE[0] == '#'
    ensures DNS_ONLY_SAMPLE != "" && DNS_ONLY_SAMPLE[0] == '#'
    ensures DNS_BYPASS_SAMPLE != "" && DNS_BYPASS_SAMPLE[0] == '#'
  {
  }

  lemma DefaultLine(f: Field)
    requires f in FIELDS && f != Dns
    ensures ReadLine(NameOf(f) + " = " + DefaultValue(f)) == DefaultItem(f)
  {
    PlainNames(f);
    NotProxy(f);
    DefaultTrimmed(f);
    PlainNameLine(NameOf(f), DefaultValue(f));
  }

  lemma NotProxy(f: Field)
    requires !f.Another?
    ensures NameOf(f) != "proxy"
  {
    NamesDiffer(f);
    assert |"proxy"| == 5 && "allow"[0] != "proxy"[0];
  }

  lemma DefaultTrimmed(f: Field)
    ensures Trimmed(DefaultValue(f))
  {
  }

  lemma FiveLines(a: string, b: string, c: string, d: string, e: string)
    requires ReadLine(a) == ReadLine(b) == ReadLine(c) == ReadLine(d) == ReadLine(e) == []
    ensures Items([a, b, c, d, e]) == []
  {
    TwoLines(d, e);
    assert [c, d, e][1..] == [d, e] && [b, c, d, e][1..] == [c, d, e] && [a, b, c, d, e][1..] == [b, c, d, e];
    assert Items([c, d, e]) == [] && Items([b, c, d, e]) == [];
  }

  lemma ThreeLines(a: string, b: string, c: string)
    requires ReadLine(a) == ReadLine(b) == []
    ensures Items([a, b, c]) == ReadLine(c)
  {
    TwoLines(b, c);
    assert [a, b, c][1..] == [b, c];
  }

  lemma BlockMeaning(f: Field)
    requires f in FIELDS
    ensures Items(Block(f)) == DefaultItem(f)
  {
    CommentsAreComments(f);
    CommentReadsAsNothing(Comment(f));
    assert ReadLine("") == [];
    if f == Dns {
      SamplesAreComments();
      CommentReadsAsNothing(DNS_SAMPLE);
      CommentReadsAsNothing(DNS_ONLY_SAMPLE);
      CommentReadsAsNothing(DNS_BYPASS_SAMPLE);
      FiveLines("", Comment(f), DNS_SAMPLE, DNS_ONLY_SAMPLE, DNS_BYPASS_SAMPLE);
    } else {
      var line := NameOf(f) + " = " + DefaultValue(f);
      DefaultLine(f);
      ThreeLines("", Comment(f), line);
      TwoLines(Comment(f), line);
    }
  }

  lemma {:induction false} BlocksMeaning(fields: seq<Field>, active: set<Field>)
    requires forall i :: 0 <= i < |fields| ==> fields[i] in FIELDS
    ensures Items(Blocks(fields, active)) == Defaults(fields, active)
  {
    if fields != [] {
      BlockMeaning(fields[0]);
      BlocksMeaning(fields[1..], active);
      ItemsConcat(if fields[0] in active then [] else Block(fields[0]), Blocks(fields[1..], active));
    }
  }

  lemma MigrationLinesMeaning(active: set<Field>)
    ensures Items(MigrationLines(active)) == Defaults(FIELDS, active)
  {
    BlocksMeaning(FIELDS, active);
    CommentReadsAsNothing(ADDED);
    TwoLines("", ADDED);
    ItemsConcat(["", ADDED], Blocks(FIELDS, active));
  }

  lemma ListenNoteFree()
    ensures '\n' !in LISTEN_NOTE1 && '\n' !in LISTEN_NOTE2
  {
  }

  lemma AllowNoteFree()
    ensures '\n' !in ALLOW_NOTE && '\n' !in DNS_NOTE
  {
  }

  lemma UpdateNotesFree()
    ensures '\n' !in UPDATE_NOTE && '\n' !in INTERVAL_NOTE
  {
  }

  lemma ChannelNotesFree()
    ensures '\n' !in CHANNEL_NOTE && '\n' !in PROVIDER_NOTE
  {
  }

  lemma CommentFree(f: Field)
    ensures '\n' !in Comment(f)
  {
    ListenNoteFree();
    AllowNoteFree();
    UpdateNotesFree();
    ChannelNotesFree();
  }

  lemma SamplesFree()
    ensures '\n' !in DNS_SAMPLE && '\n' !in DNS_ONLY_SAMPLE && '\n' !in DNS_BYPASS_SAMPLE
  {
  }

  lemma BlockFree(f: Field)
    requires f in FIELDS
    ensures Free(Block(f), '\n')
  {
    CommentFree(f);
    SamplesFree();
    NameFree(f);
    DefaultFree(f);
    SettingLineFree(NameOf(f), DefaultValue(f));
  }

  lemma NameFree(f: Field)
    requires !f.Another?
    ensures '\n' !in NameOf(f)
  {
    PlainNames(f);
  }

  lemma DefaultFree(f: Field)
    ensures '\n' !in DefaultValue(f)
  {
  }

  lemma SettingLineFree(name: string, value: string)
    requires '\n' !in name && '\n' !in value
    ensures '\n' !in name + " = " + value
  {
  }

  lemma {:induction false} BlocksFree(fields: seq<Field>, active: set<Field>)
    requires forall i :: 0 <= i < |fields| ==> fields[i] in FIELDS
    ensures Free(Blocks(fields, active), '\n')
  {
    if fields != [] {
      BlockFree(fields[0]);
      BlocksFree(fields[1..], active);
    }
  }

  lemma MigrationLinesFree(active: set<Field>)
    ensures Free(MigrationLines(active), '\n')
  {
    BlocksFree(FIELDS, active);
    AddedFree();
    FreeTwo(["", ADDED], Blocks(FIELDS, active));
  }

  lemma AddedFree()
    ensures Free(["", ADDED], '\n')
  {
  }

  lemma FreeTwo(a: seq<string>, b: seq<string>)
    requires Free(a, '\n') && Free(b, '\n')
    ensures Free(a + b, '\n')
  {
  }

  lemma {:induction false} SplitEndBreak(a: string)
    ensures Split(a + "\n", '\n') == Split(a, '\n') + [""]
  {
    SplitConcat(a, "", '\n');
    assert a + "\n" + "" == a + "\n";
  }

  /** The text before the final line break that `EndWithBreak` guarantees. */
  function Body(raw: string): string {
    if raw != "" && raw[|raw| - 1] == '\n' then raw[..|raw| - 1] else raw
  }

  lemma {:induction false} BodyMeaning(raw: string)
    ensures EndWithBreak(raw) == Body(raw) + "\n"
    ensures Items(Split(Body(raw), '\n')) == Items(Split(raw, '\n'))
  {
    if raw != "" && raw[|raw| - 1] == '\n' {
      assert raw == Body(raw) + "\n";
      SplitEndBreak(Body(raw));
      ItemsConcat(Split(Body(raw), '\n'), [""]);
      ItemsOne("");
    }
  }

  lemma {:induction false} LayeredSplit(head: string, body: string, lines: seq<string>)
    requires '\n' !in head && Free(lines, '\n')
    ensures Split(head + "\n" + (body + "\n" + Unlines(lines)), '\n') == [head] + Split(body, '\n') + lines + [""]
  {
    SplitConcat(head, body + "\n" + Unlines(lines), '\n');
    SplitPlain(head, '\n');
    SplitConcat(body, Unlines(lines), '\n');
    SplitUnlines(lines);
  }

  lemma HeaderShape()
    ensures '\n' !in HEADER && HEADER != "" && HEADER[0] == '#'
  {
  }

  lemma {:induction false} UpgradeLines(raw: string)
    ensures Split(Upgrade(raw), '\n')
            == [HEADER] + Split(Body(raw), '\n') + MigrationLines(ActiveKeys(Read(raw))) + [""]
  {
    var lines := MigrationLines(ActiveKeys(Read(raw)));
    MigrationLinesFree(ActiveKeys(Read(raw)));
    BodyMeaning(raw);
    HeaderShape();
    LayeredSplit(HEADER, Body(raw), lines);
  }

  lemma {:induction false} LayeredItems(head: string, body: seq<string>, lines: seq<string>)
    requires ReadLine(head) == []
    ensures Items([head] + body + lines + [""]) == Items(body) + Items(lines)
  {
    ItemsOne(head);
    ItemsConcat([head], body);
    ConcatEmpty(Items(body));
    ItemsConcat([head] + body, lines);
    BlankEnd([head] + body + lines);
  }

  /** For every text, the reader sees the old pairs in order and then, for each key the file
      does not set, that key at its default. */
  lemma {:induction false} UpgradeAppendsDefaults(raw: string)
    ensures Read(Upgrade(raw)) == Read(raw) + Defaults(FIELDS, ActiveKeys(Read(raw)))
  {
    UpgradeLines(raw);
    ReadIsItemsOfSplit(raw);
    ReadIsItemsOfSplit(Upgrade(raw));
    BodyMeaning(raw);
    MigrationLinesMeaning(ActiveKeys(Read(raw)));
    HeaderShape();
    CommentReadsAsNothing(HEADER);
    LayeredItems(HEADER, Split(Body(raw), '\n'), MigrationLines(ActiveKeys(Read(raw))));
  }

  // ---- What the upgrade writes ----

  /** The header, then the text as it was, then the block with the missing settings. */
  lemma UpgradeKeepsText(raw: string)
    ensures exists block: string ::
      Upgrade(raw) == "# pxgo-" + "config-schema:" + " 1" + "\n" + (EndWithBreak(raw) + block)
  {
    assert Upgrade(raw) == HEADER + "\n" + (EndWithBreak(raw) + Unlines(MigrationLines(ActiveKeys(Read(raw)))));
  }

  /** The pairs for the keys that the file does not set. */
  function Missing(items: seq<Item>, key: string, value: string): seq<Item> {
    if forall i :: 0 <= i < |items| ==> items[i].Malformed? || items[i].key != key then [Pair(key, value)] else []
  }

  lemma KeyNamed(key: string, f: Field)
    requires !f.Another?
    ensures FieldOf(key) == f <==> key == NameOf(f)
  {
    FieldOfName(f);
  }

  lemma MissingIs(items: seq<Item>, f: Field)
    requires f in FIELDS && f != Dns
    ensures Missing(items, NameOf(f), DefaultValue(f)) == Added(f, ActiveKeys(items))
  {
    forall i | 0 <= i < |items| && items[i].Pair? ensures FieldOf(items[i].key) == f <==> items[i].key == NameOf(f) {
      KeyNamed(items[i].key, f);
    }
  }

  /** What one field adds. */
  function Added(f: Field, active: set<Field>): seq<Item> { if f in active then [] else DefaultItem(f) }

  lemma OneDefault(fields: seq<Field>, i: nat, active: set<Field>)
    requires i < |fields|
    ensures Defaults(fields[i..], active) == Added(fields[i], active) + Defaults(fields[i + 1..], active)
  {
    assert fields[i..][1..] == fields[i + 1..];
  }

  lemma AllDefaults(fs: seq<Field>, active: set<Field>)
    requires |fs| == 7 && fs[2] == Dns
    ensures Defaults(fs, active) ==
      Added(fs[0], active) + (Added(fs[1], active) + (Added(fs[3], active) + (Added(fs[4], active)
        + (Added(fs[5], active) + Added(fs[6], active)))))
  {
    OneDefault(fs, 0, active);
    OneDefault(fs, 1, active);
    OneDefault(fs, 2, active);
    OneDefault(fs, 3, active);
    OneDefault(fs, 4, active);
    OneDefault(fs, 5, active);
    OneDefault(fs, 6, active);
    assert fs[0..] == fs && fs[7..] == [];
    ConcatEmpty(Added(fs[6], active));
    ConcatEmpty(Defaults(fs[3..], active));
  }

  /** The reader sees the old pairs and then, in this order, these settings for keys without a pair. */
  lemma {:induction false} UpgradeAddsSettings(raw: string)
    ensures var items := Read(raw);
      Read(Upgrade(raw)) == items + (Missing(items, "listen", "0.0.0.0") + (Missing(items, "allow", "127.0.0.0/8,::1")
        + (Missing(items, "auto_update", "install") + (Missing(items, "update_interval", "24h")
        + (Missing(items, "update_channel", "stable") + Missing(items, "install_provider", "auto"))))))
  {
    UpgradeAppendsDefaults(raw);
    MissingIs(Read(raw), Listen);
    MissingIs(Read(raw), Allow);
    MissingIs(Read(raw), AutoUpdate);
    MissingIs(Read(raw), UpdateInterval);
    MissingIs(Read(raw), UpdateChannel);
    MissingIs(Read(raw), InstallProvider);
    AllDefaults(FIELDS, ActiveKeys(Read(raw)));
  }

  // ---- The schema marker ----

  /** `strconv.Atoi`. */
  function Atoi(s: string): Option<int> {
    var neg := s != "" && s[0] == '-';
    var digits := if s != "" && (s[0] == '-' || s[0] == '+') then s[1..] else s;
    if digits == "" || !Decimal.AllDigits(digits) then None
    else
      var n := if neg then -(Decimal.Value(digits) as int) else Decimal.Value(digits);
      if -0x8000_0000_0000_0000 <= n < 0x8000_0000_0000_0000 then Some(n) else None
  }

  /** The schema number on one line, if it is a readable marker. */
  function MarkerValue(line: string): Option<int> {
    var t := Trim(line);
    if MARKER <= t then Atoi(Trim(t[|MARKER|..])) else None
  }

  function SchemaOfLines(lines: seq<string>): int {
    if lines == [] then 0
    else match MarkerValue(lines[0])
      case Some(n) => n
      case None => SchemaOfLines(lines[1..])
  }

  /** `configSchema`: the first readable marker, zero without one. */
  function Schema(text: string): int { SchemaOfLines(Split(text, '\n')) }

  /** The loop of `configSchema`. */
  method FindSchema(text: string) returns (n: int)
    ensures n == Schema(text)
  {
    var lines := Split(text, '\n');
    for i := 0 to |lines|
      invariant SchemaOfLines(lines[i..]) == SchemaOfLines(lines)
    {
      assert lines[i..][0] == lines[i] && lines[i..][1..] == lines[i + 1..];
      var marker := MarkerValue(lines[i]);
      if marker.Some? {
        return marker.value;
      }
    }
    return 0;
  }

  lemma HeaderMarker()
    ensures MarkerValue(HEADER) == Some(1)
  {
    assert HEADER[0] == '#' && HEADER[|HEADER| - 1] == '1';
    TrimmedIsFixed(HEADER);
    assert HEADER[|MARKER|..] == " 1";
    TrimLeadingSpace(" ", "1");
    assert " 1" == " " + "1";
    TrimmedIsFixed("1");
    assert "1"[..0] == "";
    assert Decimal.Value("1") == 1;
  }

  lemma {:induction false} UpgradedSchema(raw: string)
    ensures Schema(Upgrade(raw)) == 1
  {
    UpgradeLines(raw);
    HeaderMarker();
  }

  /** A comment that announces a schema. */
  predicate Announces(line: string) { "# pxgo-" + "config-schema:" <= Trim(line) }

  /** Without an announcement the schema is zero, and the first one counts if it is a number. */
  lemma {:induction false} SchemaTold(lines: seq<string>, k: nat, before: string, n: nat, after: string)
    requires Free(lines, '\n') && k <= |lines| && forall i :: 0 <= i < k ==> !Announces(lines[i])
    requires AllSpace(before) && AllSpace(after) && n < 0x8000_0000_0000_0000
    requires k < |lines| ==> lines[k] == "# pxgo-" + "config-schema:" + (before + Decimal.Format(n) + after)
    ensures lines != [] ==> Schema(Join(lines, '\n')) == if k < |lines| then n else 0
  {
    if k < |lines| {
      AnnouncedValue(before, n, after);
    }
    FirstMarker(lines, k);
    if lines != [] {
      SplitJoin(lines, '\n');
    }
  }

  lemma {:induction false} FirstMarker(lines: seq<string>, k: nat)
    requires k <= |lines| && forall i :: 0 <= i < k ==> !Announces(lines[i])
    ensures k == |lines| ==> SchemaOfLines(lines) == 0
    ensures k < |lines| && MarkerValue(lines[k]).Some? ==> SchemaOfLines(lines) == MarkerValue(lines[k]).value
  {
    if k > 0 {
      assert MarkerValue(lines[0]).None?;
      FirstMarker(lines[1..], k - 1);
    }
  }

  lemma AnnouncedValue(before: string, n: nat, after: string)
    requires AllSpace(before) && AllSpace(after) && n < 0x8000_0000_0000_0000
    ensures MarkerValue(MARKER + (before + Decimal.Format(n) + after)) == Some(n)
  {
    var digits := Decimal.Format(n);
    assert Decimal.AllDigits(digits);
    assert Decimal.IsDigit(digits[0]) && Decimal.IsDigit(digits[|digits| - 1]);
    AnnouncedTrim(before + digits, after);
    BehindPrefix(MARKER, before + digits);
    TrimLeadingSpace(before, digits);
    TrimmedIsFixed(digits);
    AtoiDigits(n);
  }

  lemma BehindPrefix(prefix: string, text: string)
    ensures prefix <= prefix + text && (prefix + text)[|prefix|..] == text
  {
  }

  lemma AtoiDigits(n: nat)
    requires n < 0x8000_0000_0000_0000
    ensures Atoi(Decimal.Format(n)) == Some(n)
  {
    assert Decimal.IsDigit(Decimal.Format(n)[0]);
  }

  lemma AnnouncedTrim(text: string, after: string)
    requires text != "" && !IsSpace(text[|text| - 1]) && AllSpace(after)
    ensures Trim(MARKER + (text + after)) == MARKER + text
  {
    assert MARKER + (text + after) == (MARKER + text) + after;
    TrimTrailingSpace(MARKER + text, after);
    assert MARKER[0] == '#' && (MARKER + text)[0] == '#';
    TrimmedIsFixed(MARKER + text);
  }

  /** The decision of `ensureExistingCanonical`. */
  function EnsureCanonical(text: string): string {
    if Schema(text) >= 1 then text else Upgrade(text)
  }

  /** A second upgrade is a no-op, and a file at schema 1 or above is left alone. */
  lemma {:induction false} EnsureCanonicalIdempotent(raw: string)
    ensures Schema(EnsureCanonical(raw)) >= 1
    ensures EnsureCanonical(EnsureCanonical(raw)) == EnsureCanonical(raw)
    ensures EnsureCanonical(raw) == raw <==> Schema(raw) >= 1
  {
    UpgradedSchema(raw);
  }

  // ---- Effective settings ----

  /** The settings the upgrade touches, and a rest that other keys may change in any way. */
  datatype Config<R> = Config(listen: string, allow: string, gateway: bool, hostonly: bool,
                              autoUpdate: string, interval: int, channel: string, provider: string, rest: R)

  /** What the model leaves open: how durations are read, and what every other key does. */
  datatype Env<!R> = Env(duration: string -> Option<int>, other: (R, string, string) -> Option<R>, rest: R)

  /** `parseBoolValue`. */
  function ParseBool(value: string): Option<bool> {
    var v := Lower(Trim(value));
    if v == "" || v == "0" || v == "false" || v == "no" || v == "off" then Some(false)
    else if v == "1" || v == "true" || v == "yes" || v == "on" then Some(true)
    else None
  }

  function ParseAutoMode(value: string): Option<string> {
    var v := Lower(Trim(value));
    if v == "" then Some("off")
    else if v == "off" || v == "notify" || v == "install" then Some(v) else None
  }

  function ParseChannel(value: string): Option<string> {
    var v := Lower(Trim(value));
    if v == "" then Some("stable") else if v == "stable" || v == "prerelease" then Some(v) else None
  }

  function ParseProvider(value: string): Option<string> {
    var v := Lower(Trim(value));
    if v == "" then Some("auto")
    else if v == "auto" || v == "direct" || v == "winget" || v == "scoop" || v == "homebrew" then Some(v) else None
  }

  /** `applyValueFrom`: the effect of one pair, or failure. */
  function Apply<R>(env: Env<R>, c: Config<R>, key: string, value: string): Option<Config<R>> {
    ApplyField(env, c, FieldOf(key), key, value)
  }

  function ApplyField<R>(env: Env<R>, c: Config<R>, f: Field, key: string, value: string): Option<Config<R>> {
    match f
    case Listen => Some(c.(listen := value))
    case Allow => Some(c.(allow := value))
    case Gateway => (
      match ParseBool(value) case None => None
      case Some(on) => Some(c.(gateway := on, listen := if on then "" else c.listen)))
    case Hostonly => (
      match ParseBool(value) case None => None
      case Some(on) => Some(c.(hostonly := on, listen := if on then "" else c.listen)))
    case AutoUpdate => (
      match ParseAutoMode(value) case None => None case Some(m) => Some(c.(autoUpdate := m)))
    case UpdateInterval => (
      match env.duration(Trim(value)) case None => None
      case Some(d) => if d <= 0 then None else Some(c.(interval := d)))
    case UpdateChannel => (
      match ParseChannel(value) case None => None case Some(ch) => Some(c.(channel := ch)))
    case InstallProvider => (
      match ParseProvider(value) case None => None case Some(p) => Some(c.(provider := p)))
    case _ =>
      match env.other(c.rest, key, value) case None => None case Some(r) => Some(c.(rest := r))
  }

  function ApplyItem<R>(env: Env<R>, c: Config<R>, item: Item): Option<Config<R>> {
    if item.Malformed? then None else Apply(env, c, item.key, item.value)
  }

  function ApplyAll<R>(env: Env<R>, c: Config<R>, items: seq<Item>): Option<Config<R>>
    decreases |items|
  {
    if items == [] then Some(c)
    else match ApplyItem(env, c, items[0])
      case None => None
      case Some(c') => ApplyAll(env, c', items[1..])
  }

  /** `Default`. */
  function DefaultConfig<R>(env: Env<R>, day: int): Config<R> {
    Config(DefaultValue(Listen), DefaultValue(Allow), false, false, DefaultValue(AutoUpdate), day,
           DefaultValue(UpdateChannel), DefaultValue(InstallProvider), env.rest)
  }

  /** `normalizeDependencies`. */
  function Normalize<R>(c: Config<R>): Config<R> {
    var c1 := if c.gateway || c.hostonly then c.(listen := "") else c;
    if c1.hostonly && !c1.gateway then c1.(allow := "") else c1
  }

  /** `ReadINI` on a text: the effective settings, or failure. */
  function Load<R>(env: Env<R>, day: int, text: string): Option<Config<R>> {
    match ApplyAll(env, DefaultConfig(env, day), Read(text))
    case None => None
    case Some(c) => Some(Normalize(c))
  }

  predicate IsSwitch(item: Item, f: Field) { item.Pair? && FieldOf(item.key) == f }

  predicate On(item: Item) { item.Pair? && ParseBool(item.value) == Some(true) }

  /** Some pair switches `gateway` or `hostonly` on. */
  predicate SwitchesOn(items: seq<Item>) {
    exists i :: 0 <= i < |items| && (IsSwitch(items[i], Gateway) || IsSwitch(items[i], Hostonly)) && On(items[i])
  }

  /** The last pair for a switch, if any, says on. */
  function EndsOn(items: seq<Item>, f: Field): bool {
    if items == [] then false
    else
      var last := items[|items| - 1];
      if IsSwitch(last, f) then On(last) else EndsOn(items[..|items| - 1], f)
  }

  /** The one case in which the upgrade changes the effective settings: the file sets no listen
      address, switches gateway or hostonly on somewhere, and leaves both off. */
  predicate ListenReappears(items: seq<Item>) {
    Listen !in ActiveKeys(items) && SwitchesOn(items) && !EndsOn(items, Gateway) && !EndsOn(items, Hostonly)
  }

  lemma {:induction false} ApplyAllConcat<R>(env: Env<R>, c: Config<R>, a: seq<Item>, b: seq<Item>)
    ensures ApplyAll(env, c, a + b)
            == match ApplyAll(env, c, a) { case None => None case Some(c') => ApplyAll(env, c', b) }
    decreases |a|
  {
    if a == [] {
      assert a + b == b;
    } else {
      assert (a + b)[1..] == a[1..] + b;
      if ApplyItem(env, c, a[0]).Some? {
        ApplyAllConcat(env, ApplyItem(env, c, a[0]).value, a[1..], b);
      }
    }
  }

  /** Keys a file does not set keep their defaults. */
  ghost predicate KeepsDefaults<R>(c: Config<R>, d: Config<R>, active: set<Field>) {
    && (Allow !in active ==> c.allow == d.allow)
    && (AutoUpdate !in active ==> c.autoUpdate == d.autoUpdate)
    && (UpdateInterval !in active ==> c.interval == d.interval)
    && (UpdateChannel !in active ==> c.channel == d.channel)
    && (InstallProvider !in active ==> c.provider == d.provider)
  }

  lemma {:induction false} LastItem(front: seq<Item>, last: Item)
    ensures ActiveKeys(front + [last]) == ActiveKeys(front) + (if last.Pair? then {FieldOf(last.key)} else {})
    ensures SwitchesOn(front + [last])
            <==> SwitchesOn(front) || ((IsSwitch(last, Gateway) || IsSwitch(last, Hostonly)) && On(last))
  {
    var items := front + [last];
    ActiveKeysGrow(front, [last]);
    assert [last][0] == last && items[|front|] == last;
    assert ActiveKeys([last]) == if last.Pair? then {FieldOf(last.key)} else {};
    assert forall i :: 0 <= i < |front| ==> items[i] == front[i];
  }

  lemma ApplyFieldSwitches<R>(env: Env<R>, c: Config<R>, c': Config<R>, f: Field, key: string, value: string)
    requires ApplyField(env, c, f, key, value) == Some(c')
    ensures c'.gateway == if f == Gateway then ParseBool(value) == Some(true) else c.gateway
    ensures c'.hostonly == if f == Hostonly then ParseBool(value) == Some(true) else c.hostonly
    ensures f != Listen ==>
              c'.listen == if (f == Gateway || f == Hostonly) && ParseBool(value) == Some(true) then "" else c.listen
  {
  }

  lemma ApplyFieldKeeps<R>(env: Env<R>, c: Config<R>, c': Config<R>, f: Field, key: string, value: string)
    requires ApplyField(env, c, f, key, value) == Some(c')
    ensures forall d: Config<R>, active: set<Field> ::
              KeepsDefaults(c, d, active) ==> KeepsDefaults(c', d, active + {f})
  {
  }

  lemma ApplyItemFields<R>(env: Env<R>, c: Config<R>, c': Config<R>, item: Item)
    requires ApplyItem(env, c, item) == Some(c')
    ensures item.Pair?
    ensures c'.gateway == if IsSwitch(item, Gateway) then On(item) else c.gateway
    ensures c'.hostonly == if IsSwitch(item, Hostonly) then On(item) else c.hostonly
    ensures !IsSwitch(item, Listen) ==>
              c'.listen == if (IsSwitch(item, Gateway) || IsSwitch(item, Hostonly)) && On(item) then "" else c.listen
    ensures forall d: Config<R>, active: set<Field> ::
              KeepsDefaults(c, d, active) ==> KeepsDefaults(c', d, active + {FieldOf(item.key)})
  {
    ApplyFieldSwitches(env, c, c', FieldOf(item.key), item.key, item.value);
    ApplyFieldKeeps(env, c, c', FieldOf(item.key), item.key, item.value);
  }

  /** After the pairs of a file: absent keys are at their defaults, the two switches are as their
      last pair says, and an absent listen address is lost once a switch goes on. */
  lemma {:induction false} AppliedFields<R>(env: Env<R>, day: int, items: seq<Item>)
    requires ApplyAll(env, DefaultConfig(env, day), items).Some?
    ensures var c, d := ApplyAll(env, DefaultConfig(env, day), items).value, DefaultConfig(env, day);
            && KeepsDefaults(c, d, ActiveKeys(items))
            && c.gateway == EndsOn(items, Gateway)
            && c.hostonly == EndsOn(items, Hostonly)
            && (Listen !in ActiveKeys(items) ==> c.listen == if SwitchesOn(items) then "" else d.listen)
  {
    if items == [] {
      assert ActiveKeys(items) == {};
    } else {
      var front, last := items[..|items| - 1], items[|items| - 1];
      assert items == front + [last];
      ApplyAllConcat(env, DefaultConfig(env, day), front, [last]);
      AppliedFields(env, day, front);
      var c := ApplyAll(env, DefaultConfig(env, day), front).value;
      ApplyOne(env, c, last);
      ApplyItemFields(env, c, ApplyItem(env, c, last).value, last);
      LastItem(front, last);
      assert items[..|items| - 1] == front;
    }
  }

  // ---- The effective settings, told from the pairs ----

  /** The value of the last pair for a key. */
  function LastValue(items: seq<Item>, key: string): Option<string> {
    if items == [] then None
    else
      var last := items[|items| - 1];
      if last.Pair? && last.key == key then Some(last.value) else LastValue(items[..|items| - 1], key)
  }

  predicate OnWord(value: string) { Lower(Trim(value)) in {"1", "true", "yes", "on"} }

  predicate OffWord(value: string) { Lower(Trim(value)) in {"", "0", "false", "no", "off"} }

  /** The chosen word in lower case; `blank` for an empty value, `absent` without one. */
  function Word(value: Option<string>, blank: string, absent: string): string {
    match value
    case None => absent
    case Some(v) => if Lower(Trim(v)) == "" then blank else Lower(Trim(v))
  }

  /** The listen address is what the last `listen` says, unless gateway or hostonly is switched on later. */
  function LastListen(items: seq<Item>): string {
    if items == [] then "0.0.0.0"
    else
      var last := items[|items| - 1];
      if last.Pair? && last.key == "listen" then last.value
      else if last.Pair? && (last.key == "gateway" || last.key == "hostonly") && OnWord(last.value) then ""
      else LastListen(items[..|items| - 1])
  }

  predicate OtherKey(key: string) {
    && key != "listen" && key != "allow" && key != "gateway" && key != "hostonly" && key != "auto_update"
    && key != "update_interval" && key != "update_channel" && key != "install_provider"
  }

  /** A pair whose key takes its value. */
  predicate Readable<R>(env: Env<R>, item: Item) {
    && item.Pair?
    && (item.key == "gateway" || item.key == "hostonly" ==> OnWord(item.value) || OffWord(item.value))
    && (item.key == "auto_update" ==> Word(Some(item.value), "off", "") in {"off", "notify", "install"})
    && (item.key == "update_channel" ==> Word(Some(item.value), "stable", "") in {"stable", "prerelease"})
    && (item.key == "install_provider" ==>
          Word(Some(item.value), "auto", "") in {"auto", "direct", "winget", "scoop", "homebrew"})
    && (item.key == "update_interval" ==>
          env.duration(Trim(item.value)).Some? && env.duration(Trim(item.value)).value > 0)
  }

  /** What the pairs of all other keys come to. */
  function RestAfter<R>(env: Env<R>, items: seq<Item>): Option<R> {
    if items == [] then Some(env.rest)
    else
      var before, last := RestAfter(env, items[..|items| - 1]), items[|items| - 1];
      if before.Some? && last.Pair? && OtherKey(last.key) then env.other(before.value, last.key, last.value)
      else before
  }

  ghost predicate AllReadable<R>(env: Env<R>, items: seq<Item>) {
    (forall i :: 0 <= i < |items| ==> Readable(env, items[i])) && RestAfter(env, items).Some?
  }

  predicate SwitchedOn(items: seq<Item>, key: string) {
    LastValue(items, key).Some? && OnWord(LastValue(items, key).value)
  }

  /** The settings before dependencies are considered: for each key its last pair, else the default. */
  ghost predicate Told<R>(env: Env<R>, day: int, items: seq<Item>, c: Config<R>) {
    ToldAccess(env, items, c) && ToldUpdates(env, day, items, c)
  }

  ghost predicate ToldAccess<R>(env: Env<R>, items: seq<Item>, c: Config<R>) {
    && c.listen == LastListen(items)
    && c.allow == LastValue(items, "allow").UnwrapOr("127.0.0.0/8,::1")
    && (c.gateway <==> SwitchedOn(items, "gateway"))
    && (c.hostonly <==> SwitchedOn(items, "hostonly"))
    && Some(c.rest) == RestAfter(env, items)
  }

  ghost predicate ToldUpdates<R>(env: Env<R>, day: int, items: seq<Item>, c: Config<R>) {
    && c.autoUpdate == Word(LastValue(items, "auto_update"), "off", "install")
    && c.channel == Word(LastValue(items, "update_channel"), "stable", "stable")
    && c.provider == Word(LastValue(items, "install_provider"), "auto", "auto")
    && Some(c.interval) == (match LastValue(items, "update_interval")
                            case None => Some(day) case Some(v) => env.duration(Trim(v)))
  }

  lemma KeysOfFields(key: string)
    ensures FieldOf(key) == Listen <==> key == "listen"
    ensures FieldOf(key) == Allow <==> key == "allow"
    ensures FieldOf(key) == Gateway <==> key == "gateway"
    ensures FieldOf(key) == Hostonly <==> key == "hostonly"
    ensures FieldOf(key) == AutoUpdate <==> key == "auto_update"
    ensures FieldOf(key) == UpdateInterval <==> key == "update_interval"
    ensures FieldOf(key) == UpdateChannel <==> key == "update_channel"
    ensures FieldOf(key) == InstallProvider <==> key == "install_provider"
  {
    FieldOfName(Listen);
    FieldOfName(Allow);
    FieldOfName(Gateway);
    FieldOfName(Hostonly);
    FieldOfName(AutoUpdate);
    FieldOfName(UpdateInterval);
    FieldOfName(UpdateChannel);
    FieldOfName(InstallProvider);
  }

  lemma WordsParse(value: string)
    ensures var w := Word(Some(value), "off", "");
            ParseAutoMode(value) == if w in {"off", "notify", "install"} then Some(w) else None
    ensures var w := Word(Some(value), "stable", "");
            ParseChannel(value) == if w in {"stable", "prerelease"} then Some(w) else None
    ensures var w := Word(Some(value), "auto", "");
            ParseProvider(value) == if w in {"auto", "direct", "winget", "scoop", "homebrew"} then Some(w) else None
  {
  }

  /** One pair is taken exactly if it is readable. */
  lemma TakenIff<R>(env: Env<R>, front: seq<Item>, last: Item, c: Config<R>)
    requires Some(c.rest) == RestAfter(env, front)
    ensures ApplyItem(env, c, last).Some? <==> Readable(env, last) && RestAfter(env, front + [last]).Some?
  {
    assert (front + [last])[..|front|] == front;
    if last.Pair? {
      KeysOfFields(last.key);
      SwitchParses(last.value);
      WordsParse(last.value);
    }
  }

  lemma LastValueNext(front: seq<Item>, last: Item, key: string)
    ensures LastValue(front + [last], key) ==
      if last.Pair? && last.key == key then Some(last.value) else LastValue(front, key)
  {
    assert (front + [last])[..|front|] == front;
  }

  /** Then every setting is told by the longer list. */
  lemma TellsAccess<R>(env: Env<R>, front: seq<Item>, last: Item, c: Config<R>, c': Config<R>)
    requires ToldAccess(env, front, c) && ApplyItem(env, c, last) == Some(c')
    ensures ToldAccess(env, front + [last], c')
  {
    KeysOfFields(last.key);
    SwitchParses(last.value);
    LastValueNext(front, last, "allow");
    LastValueNext(front, last, "gateway");
    LastValueNext(front, last, "hostonly");
    LastNext(env, front, last);
  }

  lemma SwitchParses(value: string)
    ensures ParseBool(value) == if OnWord(value) then Some(true) else if OffWord(value) then Some(false) else None
  {
  }

  lemma LastNext<R>(env: Env<R>, front: seq<Item>, last: Item)
    requires last.Pair?
    ensures LastListen(front + [last]) ==
      if last.key == "listen" then last.value
      else if (last.key == "gateway" || last.key == "hostonly") && OnWord(last.value) then "" else LastListen(front)
    ensures RestAfter(env, front + [last]) ==
      if RestAfter(env, front).Some? && OtherKey(last.key)
      then env.other(RestAfter(env, front).value, last.key, last.value) else RestAfter(env, front)
  {
    assert (front + [last])[..|front|] == front;
  }

  lemma TellsUpdates<R>(env: Env<R>, day: int, front: seq<Item>, last: Item, c: Config<R>, c': Config<R>)
    requires ToldUpdates(env, day, front, c) && ApplyItem(env, c, last) == Some(c')
    ensures ToldUpdates(env, day, front + [last], c')
  {
    KeysOfFields(last.key);
    WordsParse(last.value);
    LastValueNext(front, last, "auto_update");
    LastValueNext(front, last, "update_channel");
    LastValueNext(front, last, "install_provider");
    LastValueNext(front, last, "update_interval");
  }

  lemma {:induction false} AllTold<R>(env: Env<R>, day: int, items: seq<Item>)
    ensures ApplyAll(env, DefaultConfig(env, day), items).Some? <==> AllReadable(env, items)
    ensures ApplyAll(env, DefaultConfig(env, day), items).Some? ==>
      Told(env, day, items, ApplyAll(env, DefaultConfig(env, day), items).value)
  {
    if items != [] {
      var front, last := items[..|items| - 1], items[|items| - 1];
      assert items == front + [last];
      AllTold(env, day, front);
      ApplyAllConcat(env, DefaultConfig(env, day), front, [last]);
      if AllReadable(env, front) {
        var c := ApplyAll(env, DefaultConfig(env, day), front).value;
        ApplyOne(env, c, last);
        TakenIff(env, front, last, c);
        if ApplyItem(env, c, last).Some? {
          TellsAccess(env, front, last, c, ApplyItem(env, c, last).value);
          TellsUpdates(env, day, front, last, c, ApplyItem(env, c, last).value);
        }
      } else {
        assert AllReadable(env, items) ==> AllReadable(env, front);
      }
    }
  }

  /** For every text: it can be read exactly if every pair is readable, and then each setting is what
      its last pair says, but for two dependencies: with gateway or hostonly on there is no listen
      address, and hostonly alone clears the allow list. */
  lemma {:induction false} SettingsTold<R>(env: Env<R>, day: int, text: string)
    ensures Load(env, day, text).Some? <==> AllReadable(env, Read(text))
    ensures Load(env, day, text).Some? ==>
      var c, items := Load(env, day, text).value, Read(text);
      var gateway, hostonly := SwitchedOn(items, "gateway"), SwitchedOn(items, "hostonly");
      && c.listen == (if gateway || hostonly then "" else LastListen(items))
      && c.allow == (if hostonly && !gateway then "" else LastValue(items, "allow").UnwrapOr("127.0.0.0/8,::1"))
      && Told(env, day, items, c.(listen := LastListen(items),
                                  allow := LastValue(items, "allow").UnwrapOr("127.0.0.0/8,::1")))
  {
    AllTold(env, day, Read(text));
  }

  lemma InstallParses()
    ensures ParseAutoMode(DefaultValue(AutoUpdate)) == Some(DefaultValue(AutoUpdate))
  {
    PlainNameFixed("install");
  }

  lemma StableParses()
    ensures ParseChannel(DefaultValue(UpdateChannel)) == Some(DefaultValue(UpdateChannel))
  {
    PlainNameFixed("stable");
  }

  lemma AutoParses()
    ensures ParseProvider(DefaultValue(InstallProvider)) == Some(DefaultValue(InstallProvider))
  {
    PlainNameFixed("auto");
  }

  function WithDefault<R>(c: Config<R>, d: Config<R>, f: Field): Config<R> {
    match f
    case Listen => c.(listen := d.listen)
    case Allow => c.(allow := d.allow)
    case AutoUpdate => c.(autoUpdate := d.autoUpdate)
    case UpdateInterval => c.(interval := d.interval)
    case UpdateChannel => c.(channel := d.channel)
    case InstallProvider => c.(provider := d.provider)
    case _ => c
  }

  lemma ApplyOne<R>(env: Env<R>, c: Config<R>, item: Item)
    ensures ApplyAll(env, c, [item]) == ApplyItem(env, c, item)
  {
    assert [item][1..] == [];
  }

  lemma ApplyDefaultField<R>(env: Env<R>, day: int, c: Config<R>, f: Field, key: string)
    requires env.duration("24h") == Some(day) && day > 0 && f in FIELDS && f != Dns
    ensures ApplyField(env, c, f, key, DefaultValue(f)) == Some(WithDefault(c, DefaultConfig(env, day), f))
  {
    match f {
      case AutoUpdate => InstallParses();
      case UpdateChannel => StableParses();
      case InstallProvider => AutoParses();
      case UpdateInterval => TrimmedIsFixed("24h");
      case _ =>
    }
  }

  lemma {:induction false} ApplyOneDefault<R>(env: Env<R>, day: int, c: Config<R>, f: Field)
    requires env.duration("24h") == Some(day) && day > 0 && f in FIELDS
    ensures ApplyAll(env, c, DefaultItem(f)) == Some(WithDefault(c, DefaultConfig(env, day), f))
  {
    if f != Dns {
      ApplyOne(env, c, Pair(NameOf(f), DefaultValue(f)));
      ApplyDefaultField(env, day, c, f, NameOf(f));
      FieldOfName(f);
    }
  }

  /** Applying the appended defaults always succeeds and changes at most the listen address. */
  lemma {:induction false} ApplyDefaults<R>(env: Env<R>, day: int, c: Config<R>, fields: seq<Field>, active: set<Field>)
    requires env.duration("24h") == Some(day) && day > 0
    requires forall i :: 0 <= i < |fields| ==> fields[i] in FIELDS
    requires KeepsDefaults(c, DefaultConfig(env, day), active)
    ensures ApplyAll(env, c, Defaults(fields, active)) == Some(Listening(c, Listen in fields && Listen !in active))
    decreases |fields|
  {
    if fields != [] {
      var f := fields[0];
      var c1 := Listening(c, f == Listen && Listen !in active);
      HeadDefault(env, day, c, f, active);
      ApplyDefaults(env, day, c1, fields[1..], active);
      ApplyAllConcat(env, c, if f in active then [] else DefaultItem(f), Defaults(fields[1..], active));
      assert fields == [f] + fields[1..];
    }
  }

  /** The configuration, with the listen address at its default or as it was. */
  function Listening<R>(c: Config<R>, reset: bool): Config<R> {
    if reset then c.(listen := DefaultValue(Listen)) else c
  }

  lemma HeadDefault<R>(env: Env<R>, day: int, c: Config<R>, f: Field, active: set<Field>)
    requires env.duration("24h") == Some(day) && day > 0 && f in FIELDS
    requires KeepsDefaults(c, DefaultConfig(env, day), active)
    ensures var c1 := Listening(c, f == Listen && Listen !in active);
      && ApplyAll(env, c, if f in active then [] else DefaultItem(f)) == Some(c1)
      && KeepsDefaults(c1, DefaultConfig(env, day), active)
  {
    if f !in active {
      ApplyOneDefault(env, day, c, f);
    }
  }

  /** The upgrade never turns a readable file into an unreadable one or back, and it preserves
      the effective settings exactly when the listen address does not reappear. */
  lemma {:induction false} UpgradePreservesSettings<R>(env: Env<R>, day: int, raw: string)
    requires env.duration("24h") == Some(day) && day > 0
    ensures Load(env, day, Upgrade(raw)).Some? <==> Load(env, day, raw).Some?
    ensures Load(env, day, raw).Some? ==>
              (Load(env, day, Upgrade(raw)) == Load(env, day, raw) <==> !ListenReappears(Read(raw)))
    ensures Load(env, day, raw).Some? && ListenReappears(Read(raw)) ==>
              Load(env, day, Upgrade(raw)) == Some(Load(env, day, raw).value.(listen := DefaultValue(Listen)))
  {
    var items := Read(raw);
    var active := ActiveKeys(items);
    var d := DefaultConfig(env, day);
    UpgradeAppendsDefaults(raw);
    ApplyAllConcat(env, d, items, Defaults(FIELDS, active));
    if ApplyAll(env, d, items).Some? {
      AppliedFields(env, day, items);
      ApplyDefaults(env, day, ApplyAll(env, d, items).value, FIELDS, active);
      assert FIELDS[0] == Listen;
      assert |DefaultValue(Listen)| == 7;
    }
  }

  /** A two-line file on which the upgrade does change the settings. */
  const GATEWAY_ON := "gateway" + " = " + "1"
  const GATEWAY_OFF := "gateway" + " = " + "0"
  const ON_THEN_OFF := GATEWAY_ON + "\n" + GATEWAY_OFF

  lemma GatewayLines()
    ensures ReadLine(GATEWAY_ON) == [Pair("gateway", "1")]
    ensures ReadLine(GATEWAY_OFF) == [Pair("gateway", "0")]
  {
    PlainNames(Gateway);
    NamesDiffer(Gateway);
    PlainNameLine("gateway", "1");
    PlainNameLine("gateway", "0");
  }

  lemma GatewayLinesFree()
    ensures '\n' !in GATEWAY_ON && '\n' !in GATEWAY_OFF
  {
  }

  lemma {:induction false} TwoLineText(a: string, b: string)
    requires '\n' !in a && '\n' !in b
    ensures Read(a + "\n" + b) == ReadLine(a) + ReadLine(b)
  {
    SplitPlain(a, '\n');
    SplitPlain(b, '\n');
    SplitConcat(a, b, '\n');
    ReadIsItemsOfSplit(a + "\n" + b);
    TwoLines(a, b);
  }

  lemma OnThenOffItems()
    ensures Read(ON_THEN_OFF) == [Pair("gateway", "1"), Pair("gateway", "0")]
  {
    GatewayLines();
    GatewayLinesFree();
    TwoLineText(GATEWAY_ON, GATEWAY_OFF);
  }

  lemma BoolDigits()
    ensures ParseBool("1") == Some(true) && ParseBool("0") == Some(false)
  {
    TrimmedIsFixed("1");
    TrimmedIsFixed("0");
    assert Lower("1") == "1" && Lower("0") == "0";
  }

  lemma {:induction false} OnThenOff(on: Item, off: Item)
    requires IsSwitch(on, Gateway) && On(on) && IsSwitch(off, Gateway) && !On(off)
    ensures ListenReappears([on, off])
  {
    assert [on, off] == [on] + [off] && [] + [on] == [on];
    LastItem([], on);
    LastItem([on], off);
    assert ActiveKeys([]) == {};
    assert [on, off][..1] == [on] && [on][..0] == [];
    assert !EndsOn([on], Hostonly);
  }

  lemma {:induction false} UpgradeCanChangeListen<R>(env: Env<R>, day: int)
    requires env.duration("24h") == Some(day) && day > 0
    ensures Load(env, day, ON_THEN_OFF).Some?
    ensures Load(env, day, Upgrade(ON_THEN_OFF)) != Load(env, day, ON_THEN_OFF)
  {
    OnThenOffItems();
    BoolDigits();
    FieldOfName(Gateway);
    var on, off := Pair("gateway", "1"), Pair("gateway", "0");
    OnThenOff(on, off);
    TwoApplied(env, DefaultConfig(env, day), on, off);
    UpgradePreservesSettings(env, day, ON_THEN_OFF);
  }

  lemma TwoApplied<R>(env: Env<R>, c: Config<R>, on: Item, off: Item)
    requires IsSwitch(on, Gateway) && ParseBool(on.value).Some? && IsSwitch(off, Gateway) && ParseBool(off.value).Some?
    ensures ApplyAll(env, c, [on, off]).Some?
  {
    assert [on, off][1..] == [off];
    assert ApplyItem(env, c, on).Some?;
    ApplyOne(env, ApplyItem(env, c, on).value, off);
  }

  // ---- The code's own loop ----

  /** `activeINIKeys`: the keys with an active line. */
  method CollectActiveKeys(raw: string) returns (keys: set<Field>)
    ensures keys == ActiveKeys(Read(raw))
  {
    ReadIsItemsOfSplit(raw);
    var lines := Split(raw, '\n');
    keys := {};
    for i := 0 to |lines|
      invariant keys == ActiveKeys(Items(lines[..i]))
    {
      var line := Trim(lines[i]);
      ActiveKeysNext(lines, i);
      if line != "" && line[0] != '#' && line[0] != ';' && line[0] != '[' && '=' in line {
        keys := keys + {FieldOf(CanonicalKey(Trim(CutBefore(line, '='))))};
      }
    }
    assert lines[..|lines|] == lines;
  }

  lemma ActiveKeysOfLine(line: string)
    ensures var t := Trim(line);
            ActiveKeys(ReadLine(line))
            == if t != "" && t[0] != '#' && t[0] != ';' && t[0] != '[' && '=' in t
               then {FieldOf(CanonicalKey(Trim(CutBefore(t, '='))))} else {}
  {
  }

  lemma ActiveKeysNext(lines: seq<string>, i: nat)
    requires i < |lines|
    ensures var t := Trim(lines[i]);
      ActiveKeys(Items(lines[..i + 1])) == ActiveKeys(Items(lines[..i])) +
        if t != "" && t[0] != '#' && t[0] != ';' && t[0] != '[' && '=' in t
        then {FieldOf(CanonicalKey(Trim(CutBefore(t, '='))))} else {}
  {
    ActiveKeysOfNext(lines, i);
    ActiveKeysOfLine(lines[i]);
  }

  lemma ActiveKeysOfNext(lines: seq<string>, i: nat)
    requires i < |lines|
    ensures ActiveKeys(Items(lines[..i + 1])) == ActiveKeys(Items(lines[..i])) + ActiveKeys(ReadLine(lines[i]))
  {
    assert lines[..i + 1] == lines[..i] + [lines[i]];
    ItemsConcat(lines[..i], [lines[i]]);
    ItemsOne(lines[i]);
    ActiveKeysGrow(Items(lines[..i]), ReadLine(lines[i]));
  }

  lemma ActiveKeysGrow(a: seq<Item>, b: seq<Item>)
    ensures ActiveKeys(a + b) == ActiveKeys(a) + ActiveKeys(b)
  {
    forall k | k in ActiveKeys(b)
      ensures k in ActiveKeys(a + b)
    {
      var i :| 0 <= i < |b| && b[i].Pair? && FieldOf(b[i].key) == k;
      assert (a + b)[|a| + i] == b[i];
    }
    forall k | k in ActiveKeys(a)
      ensures k in ActiveKeys(a + b)
    {
      var i :| 0 <= i < |a| && a[i].Pair? && FieldOf(a[i].key) == k;
      assert (a + b)[i] == a[i];
    }
    forall k | k in ActiveKeys(a + b)
      ensures k in ActiveKeys(a) + ActiveKeys(b)
    {
      var i :| 0 <= i < |a + b| && (a + b)[i].Pair? && FieldOf((a + b)[i].key) == k;
      assert if i < |a| then (a + b)[i] == a[i] else (a + b)[i] == b[i - |a|];
    }
  }
}
