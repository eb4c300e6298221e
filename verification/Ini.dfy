/** How `ReadINI` gives meaning to configuration text: the list of key/value pairs it applies,
    in order, with a marker where a line is not of the form key=value. Sections carry no
    meaning for the reader. */
module Ini {
  import opened Sequences
  import opened Text

  datatype Item = Pair(key: string, value: string) | Malformed

  /** `canonicalConfigKey`: trimmed, lower case, and `proxy` is another name for `server`. */
  function CanonicalKey(name: string): string {
    var k := Lower(Trim(name));
    if k == "proxy" then "server" else k
  }

  /** What one line contributes: nothing (blank, comment, anything that starts with a bracket),
      one pair, or an error. */
  function ReadLine(line: string): seq<Item> {
    var t := Trim(line);
    if t == "" || t[0] == '#' || t[0] == ';' || t[0] == '[' then []
    else if '=' !in t then [Malformed]
    else [Pair(CanonicalKey(Trim(CutBefore(t, '='))), Trim(CutAfter(t, '=')))]
  }

  /** Key names are read in any letter case and with white space around them, and `proxy` means
      `server`. */
  lemma {:induction false} KeySpelling(before: string, spelled: string, after: string, name: string)
    requires AllSpace(before) && AllSpace(after) && EqualFold(spelled, name) && PlainName(name)
    ensures CanonicalKey(before + spelled + after) == if name == "proxy" then "server" else name
  {
    FoldLower(spelled, name);
    PlainNameFixed(name);
    TrimTrailingSpace(before + spelled, after);
    TrimLeadingSpace(before, spelled);
    FoldTrimmed(spelled, name);
    TrimmedIsFixed(spelled);
  }

  lemma FoldTrimmed(spelled: string, name: string)
    requires EqualFold(spelled, name) && PlainName(name)
    ensures Trimmed(spelled)
  {
    assert spelled[0] == name[0] || UpperOf(spelled[0], name[0]) || UpperOf(name[0], spelled[0]);
    var n := |name| - 1;
    assert spelled[n] == name[n] || UpperOf(spelled[n], name[n]) || UpperOf(name[n], spelled[n]);
  }

  /** What a line says, told from its parts: blank lines, comments and section headers nothing, a text
      without an equals sign is an error, and else the first equals sign ends the key. */
  lemma {:induction false} LineForms(before: string, text: string, after: string)
    requires AllSpace(before) && AllSpace(after) && Trimmed(text)
    ensures text == "" || text[0] in {'#', ';', '['} ==> ReadLine(before + text + after) == []
    ensures text != "" && text[0] !in {'#', ';', '['} && '=' !in text ==> ReadLine(before + text + after) == [Malformed]
    ensures forall key: string, value: string ::
      text == key + "=" + value && text[0] !in {'#', ';', '['} && '=' !in key ==>
        ReadLine(before + text + after) == [Pair(CanonicalKey(key), Trim(value))]
  {
    TrimTrailingSpace(before + text, after);
    TrimLeadingSpace(before, text);
    TrimmedIsFixed(text);
    forall key: string, value: string
      | text == key + "=" + value && text[0] !in {'#', ';', '['} && '=' !in key
      ensures ReadLine(before + text + after) == [Pair(CanonicalKey(key), Trim(value))]
    {
      CutConcat(key, value, '=');
      TrimIdempotent(key);
    }
  }

  function Items(lines: seq<string>): seq<Item> {
    if lines == [] then [] else ReadLine(lines[0]) + Items(lines[1..])
  }

  lemma {:induction false} ItemsConcat(a: seq<string>, b: seq<string>)
    ensures Items(a + b) == Items(a) + Items(b)
  {
    if a == [] {
      ConcatEmpty(b);
    } else {
      ConcatTail(a, b);
      ItemsConcat(a[1..], b);
      ConcatAssoc(ReadLine(a[0]), Items(a[1..]), Items(b));
    }
  }

  lemma ItemsNext(lines: seq<string>, i: nat)
    requires i < |lines|
    ensures Items(lines[..i + 1]) == Items(lines[..i]) + ReadLine(lines[i])
  {
    assert lines[..i + 1] == lines[..i] + [lines[i]];
    ItemsConcat(lines[..i], [lines[i]]);
    ItemsOne(lines[i]);
  }

  lemma ItemsOne(line: string)
    ensures Items([line]) == ReadLine(line)
  {
    assert [line][1..] == [];
    assert Items([line]) == ReadLine(line) + [];
  }

  /** `bufio.ScanLines` drops one carriage return at the end of each line. */
  function DropCR(line: string): string {
    if line != "" && line[|line| - 1] == '\r' then line[..|line| - 1] else line
  }

  function DropCRs(lines: seq<string>): seq<string> {
    if lines == [] then [] else [DropCR(lines[0])] + DropCRs(lines[1..])
  }

  /** The lines a `bufio.Scanner` yields: no line for what follows the last line break when
      that is empty. */
  function ScanLines(text: string): seq<string> {
    var parts := Split(text, '\n');
    DropCRs(if parts[|parts| - 1] == "" then parts[..|parts| - 1] else parts)
  }

  /** The pairs `ReadINI` meets in a text. */
  function Read(text: string): seq<Item> {
    Items(ScanLines(text))
  }

  lemma ReadLineDropCR(line: string)
    ensures ReadLine(DropCR(line)) == ReadLine(line)
  {
    if line != "" && line[|line| - 1] == '\r' {
      assert line == line[..|line| - 1] + "\r";
      TrimTrailingSpace(line[..|line| - 1], "\r");
    }
  }

  lemma {:induction false} ItemsDropCRs(lines: seq<string>)
    ensures Items(DropCRs(lines)) == Items(lines)
  {
    if lines != [] {
      ReadLineDropCR(lines[0]);
      ItemsDropCRs(lines[1..]);
    }
  }

  /** The scanner's line conventions do not matter: the pairs are those of the pieces between
      line breaks, which is how the patching code cuts the text. */
  lemma {:induction false} ReadIsItemsOfSplit(text: string)
    ensures Read(text) == Items(Split(text, '\n'))
  {
    var parts := Split(text, '\n');
    if parts[|parts| - 1] == "" {
      var front := parts[..|parts| - 1];
      assert parts == front + [""];
      ItemsConcat(front, [""]);
      ItemsOne("");
      ItemsDropCRs(front);
    } else {
      ItemsDropCRs(parts);
    }
  }

  /** A text that is empty or ends with a line break. */
  predicate WholeLines(s: string) { s == "" || s[|s| - 1] == '\n' }

  /** What follows whole lines is read on its own. */
  lemma {:induction false} ReadAfterLines(a: string, b: string)
    requires WholeLines(a)
    ensures Read(a + b) == Read(a) + Read(b)
  {
    if a == "" {
      assert a + b == b;
      ConcatEmpty(Read(b));
    } else {
      var front := a[..|a| - 1];
      assert a == front + "\n" + "" && a + b == front + "\n" + b;
      SplitConcat(front, "", '\n');
      SplitConcat(front, b, '\n');
      BlankEnd(Split(front, '\n'));
      ItemsConcat(Split(front, '\n'), Split(b, '\n'));
      ReadIsItemsOfSplit(a);
      ReadIsItemsOfSplit(b);
      ReadIsItemsOfSplit(a + b);
    }
  }

  lemma BlankEnd(lines: seq<string>)
    ensures Items(lines + [""]) == Items(lines)
  {
    ItemsConcat(lines, [""]);
    ItemsOne("");
    TrimmedIsFixed("");
    ConcatEmpty(Items(lines));
  }

  /** The scan loop of `ReadINI`, collecting the pairs it would apply. */
  method ReadPairs(text: string) returns (items: seq<Item>)
    ensures items == Read(text)
  {
    var lines := ScanLines(text);
    items := [];
    for i := 0 to |lines|
      invariant items == Items(lines[..i])
    {
      var line := Trim(lines[i]);
      ItemsNext(lines, i);
      if line == "" || line[0] == '#' || line[0] == ';' || line[0] == '[' {
        ConcatEmpty(items);
      } else if '=' !in line {
        items := items + [Malformed];
      } else {
        items := items + [Pair(CanonicalKey(Trim(CutBefore(line, '='))), Trim(CutAfter(line, '=')))];
      }
    }
    assert lines[..|lines|] == lines;
  }

  /** A written `key = value` line reads back as that key and the trimmed value. */
  lemma {:induction false} ReadWrittenLine(key: string, value: string)
    requires key != "" && Trimmed(key) && '=' !in key
    requires key[0] != '#' && key[0] != ';' && key[0] != '['
    ensures ReadLine(key + " = " + value) == [Pair(CanonicalKey(key), Trim(value))]
  {
    var rest := TrimRight(" " + value);
    TrimWritten(key, value);
    CutConcat(key + " ", rest, '=');
    TrimOfTrimRight(" " + value);
    TrimLeadingSpace(" ", value);
    TrimTrailingSpace(key, " ");
    TrimmedIsFixed(key);
  }

  /** Trimming a written line keeps everything up to the equals sign. */
  lemma TrimWritten(key: string, value: string)
    requires key != "" && Trimmed(key)
    ensures Trim(key + " = " + value) == key + " " + "=" + TrimRight(" " + value)
  {
    var head, tail := key + " " + "=", " " + value;
    var line := head + tail;
    assert key + " = " + value == line;
    assert line[0] == key[0] && TrimLeft(line) == line;
    assert head[|head| - 1] == '=';
    TrimRightConcat(head, tail);
  }

  /** A key written in lower-case letters and underscores. */
  predicate PlainName(s: string) {
    s != "" && forall i :: 0 <= i < |s| ==> 'a' <= s[i] <= 'z' || s[i] == '_'
  }

  lemma PlainNameFixed(s: string)
    requires PlainName(s)
    ensures Lower(s) == s && Trim(s) == s && Trimmed(s)
  {
    assert Trimmed(s);
    TrimmedIsFixed(s);
    PlainNameLower(s);
  }

  lemma PlainNameLower(s: string)
    requires PlainName(s)
    ensures Lower(s) == s
  {
    var l := Lower(s);
    forall i | 0 <= i < |s| ensures l[i] == s[i] {}
  }

  lemma PlainNameLine(name: string, value: string)
    requires PlainName(name) && name != "proxy" && Trimmed(value)
    ensures ReadLine(name + " = " + value) == [Pair(name, value)]
  {
    PlainNameFixed(name);
    TrimmedIsFixed(value);
    ReadWrittenLine(name, value);
  }

  lemma {:induction false} ReadUnlines(lines: seq<string>)
    requires Free(lines, '\n')
    ensures Read(Unlines(lines)) == Items(lines)
  {
    SplitUnlines(lines);
    ReadIsItemsOfSplit(Unlines(lines));
    ItemsConcat(lines, [""]);
    ItemsOne("");
  }
}
