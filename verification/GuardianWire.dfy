/** The lines of the Guardian control channel. A line is written and read as a whole. */
module GuardianWire {
  import opened Text
  import opened Options
  import D = Decimal

  /** A sequence number is an unsigned 64-bit number. */
  datatype Message = Ready | Beat(sequence: nat) | Stop

  predicate Fits(m: Message) { m.Beat? ==> m.sequence < D.TWO64 }

  const READY := "READY"
  const BEAT := "BEAT"
  const STOP := "STOP"

  function Line(m: Message): string {
    match m
    case Ready => READY
    case Beat(sequence) => BEAT + " " + D.Format(sequence)
    case Stop => STOP
  }

  /** Length of the first word. */
  function WordLength(s: string): (n: nat)
    ensures n <= |s|
    ensures s != "" && !IsSpace(s[0]) ==> n > 0
  {
    if s == "" || IsSpace(s[0]) then 0 else 1 + WordLength(s[1..])
  }

  /** `strings.Fields`. */
  function Fields(s: string): seq<string>
    decreases |s|
  {
    if s == "" then []
    else if IsSpace(s[0]) then Fields(s[1..])
    else var n := WordLength(s); [s[..n]] + Fields(s[n..])
  }

  function TrimLineEnd(s: string): string {
    if s != "" && (s[|s| - 1] == '\r' || s[|s| - 1] == '\n') then TrimLineEnd(s[..|s| - 1]) else s
  }

  /** `Session.Read` on one line; anything else is a protocol error. */
  function Parse(line: string): Option<Message> {
    var parts := Fields(line);
    if |parts| == 0 then None
    else if parts[0] == READY then if |parts| == 1 then Some(Ready) else None
    else if parts[0] == STOP then if |parts| == 1 then Some(Stop) else None
    else if parts[0] == BEAT then
      if |parts| == 2 && D.ParseUint(parts[1]).Number? then Some(Beat(D.ParseUint(parts[1]).n)) else None
    else None
  }

  predicate Word(s: string) { s != "" && forall i :: 0 <= i < |s| ==> !IsSpace(s[i]) }

  lemma {:induction false} WordLengthOf(w: string, rest: string)
    requires (forall i :: 0 <= i < |w| ==> !IsSpace(w[i])) && (rest == "" || IsSpace(rest[0]))
    ensures WordLength(w + rest) == |w|
  {
    if w == "" {
      assert w + rest == rest;
    } else {
      assert (w + rest)[1..] == w[1..] + rest;
      WordLengthOf(w[1..], rest);
    }
  }

  lemma FieldsOne(w: string)
    requires Word(w)
    ensures Fields(w) == [w]
  {
    WordLengthOf(w, "");
    assert w + "" == w && w[..|w|] == w && w[|w|..] == "";
  }

  lemma FieldsTwo(v: string, w: string)
    requires Word(v) && Word(w)
    ensures Fields(v + " " + w) == [v, w]
  {
    var s := v + " " + w;
    var rest := " " + w;
    assert s == v + rest;
    WordLengthOf(v, rest);
    assert s[..|v|] == v && s[|v|..] == rest;
    assert rest[1..] == w;
    FieldsOne(w);
  }

  lemma LineEnds(line: string)
    requires line != "" && line[|line| - 1] != '\r' && line[|line| - 1] != '\n'
    ensures TrimLineEnd(line + "\n") == line
  {
    assert (line + "\n")[..|line|] == line;
  }

  lemma Keywords()
    ensures Word(READY) && Word(BEAT) && Word(STOP)
    ensures READY != BEAT && READY != STOP && BEAT != STOP
  {
    assert READY[0] == 'R' && READY[1] == 'E' && READY[2] == 'A' && READY[3] == 'D' && READY[4] == 'Y';
    assert BEAT[0] == 'B' && BEAT[1] == 'E' && BEAT[2] == 'A' && BEAT[3] == 'T';
    assert STOP[0] == 'S' && STOP[1] == 'T' && STOP[2] == 'O' && STOP[3] == 'P';
  }

  /** A line is a message exactly if its words are READY, or STOP, or BEAT and a 64-bit number. */
  lemma {:induction false} ParsedWords(line: string)
    ensures Parse(line) == Some(Ready) <==> Fields(line) == ["READY"]
    ensures Parse(line) == Some(Stop) <==> Fields(line) == ["STOP"]
    ensures forall n: nat :: Parse(line) == Some(Beat(n)) <==>
      |Fields(line)| == 2 && Fields(line)[0] == "BEAT" && D.ParseUint(Fields(line)[1]) == D.Number(n)
  {
    Keywords();
    var parts := Fields(line);
    if |parts| == 1 {
      assert parts == [parts[0]];
    }
  }

  /** Every message written is read back as it was. */
  lemma {:induction false} ReadBack(m: Message)
    requires Fits(m)
    ensures Parse(TrimLineEnd(Line(m) + "\n")) == Some(m)
  {
    Keywords();
    match m
    case Ready =>
      LineEnds(READY);
      FieldsOne(READY);
    case Stop =>
      LineEnds(STOP);
      FieldsOne(STOP);
    case Beat(n) =>
      var digits := D.Format(n);
      FieldsTwo(BEAT, digits);
      assert Line(m)[|Line(m)| - 1] == digits[|digits| - 1];
      LineEnds(Line(m));
      D.ParseFormat(n);
  }
}
