/** Replay bodies and the spool budget they share. `State` interleaves any number of captures and
    open bodies at the granularity of single loads, compare-and-swaps, writes, removals and
    releases; file and reader failures may come at any of these points. */
module ReplaySpool {
  import opened Options

  type Bytes = seq<bv8>

  datatype Limits = Limits(memoryBytes: nat, maxBodyBytes: nat)

  /** Where one capture, or the body it became, stands. */
  datatype Phase =
    | Reading
    | Reserving(chunk: Bytes)
    | Loaded(chunk: Bytes, current: int)
    | Writing(rest: Bytes, chunk: Bytes)
    | CleaningUp
    | Open
    | Releasing(bytes: nat)
    | Released
    | Stuck

  /** One capture: what it has read, its memory buffer and its temporary file if it exists. */
  datatype Proc = Proc(
    limits: Limits, phase: Phase, read: Bytes, memory: Bytes, file: Option<Bytes>, reserved: nat, total: nat)

  datatype State = State(max: nat, used: int, procs: seq<Proc>)

  /** What a first spooled chunk, or a later one, has to reserve. */
  function Needed(p: Proc, chunk: Bytes): nat { |p.memory| + |chunk| }

  // ---- Steps of one process ----

  datatype Action =
    | ReadChunk(chunk: Bytes, created: bool)
    | GiveUp
    | Load
    | CompareAndSwap
    | WriteSome(n: nat)
    | WriteFails
    | WriteDone
    | EndOfFile(closed: bool)
    | Remove(ok: bool)
    | CloseBody(removed: bool)
    | Release

  /** A read chunk: too much gives up, little stays in memory, else it goes to the file. */
  function AfterRead(p: Proc, chunk: Bytes, created: bool): Proc {
    if p.total + |chunk| > p.limits.maxBodyBytes then p.(phase := CleaningUp)
    else if p.file.None? && p.total + |chunk| <= p.limits.memoryBytes then
      p.(read := p.read + chunk, memory := p.memory + chunk, total := p.total + |chunk|)
    else if p.file.None? then
      if created then p.(file := Some([]), phase := Reserving(chunk)) else p.(phase := CleaningUp)
    else p.(phase := Reserving(chunk))
  }

  predicate Enabled(p: Proc, a: Action) {
    match a
    case ReadChunk(chunk, _) => p.phase.Reading? && chunk != []
    case GiveUp => p.phase.Reading?
    case Load => p.phase.Reserving?
    case CompareAndSwap => p.phase.Loaded?
    case WriteSome(n) => p.phase.Writing? && 0 < n <= |p.phase.rest|
    case WriteFails => p.phase.Writing?
    case WriteDone => p.phase.Writing? && p.phase.rest == []
    case EndOfFile(_) => p.phase.Reading?
    case Remove(_) => p.phase.CleaningUp?
    case CloseBody(_) => p.phase.Open?
    case Release => p.phase.Releasing?
  }

  /** A file that is gone: its reservation is handed to the release that follows. */
  function Gone(p: Proc): Proc { p.(file := None, memory := [], reserved := 0, phase := Releasing(p.reserved)) }

  function Step(max: nat, used: int, p: Proc, a: Action): (int, Proc)
    requires Enabled(p, a) && (a.WriteSome? || a.WriteDone? ==> p.file.Some?)
  {
    match a
    case ReadChunk(chunk, created) => (used, AfterRead(p, chunk, created))
    case GiveUp => (used, p.(phase := CleaningUp))
    case Load => (used, p.(phase := Loaded(p.phase.chunk, used)))
    case CompareAndSwap =>
      var chunk, current := p.phase.chunk, p.phase.current;
      var n := Needed(p, chunk);
      if current > max || n > max - current then (used, p.(phase := CleaningUp))
      else if used == current then
        (used + n, p.(reserved := p.reserved + n, phase := Writing(p.memory + chunk, chunk)))
      else (used, p.(phase := Reserving(chunk)))
    case WriteSome(n) =>
      (used, p.(file := Some(p.file.value + p.phase.rest[..n]), phase := Writing(p.phase.rest[n..], p.phase.chunk)))
    case WriteFails => (used, p.(phase := CleaningUp))
    case WriteDone =>
      var chunk := p.phase.chunk;
      (used, p.(read := p.read + chunk, memory := [], total := p.total + |chunk|, phase := Reading))
    case EndOfFile(closed) => (used, p.(phase := if closed || p.file.None? then Open else CleaningUp))
    case Remove(ok) => (used, if ok || p.file.None? then Gone(p) else p.(phase := Stuck))
    case CloseBody(removed) => (used, if removed || p.file.None? then Gone(p) else p)
    case Release => (used - p.phase.bytes, p.(phase := Released))
  }

  datatype Event = Begin(limits: Limits) | Act(i: nat, action: Action)

  predicate LimitsOk(l: Limits) { l.memoryBytes <= l.maxBodyBytes }

  ghost predicate Next(s: State, e: Event, s': State) {
    match e
    case Begin(limits) =>
      LimitsOk(limits) && s' == s.(procs := s.procs + [Proc(limits, Reading, [], [], None, 0, 0)])
    case Act(i, a) =>
      && i < |s.procs| && Enabled(s.procs[i], a) && (a.WriteSome? || a.WriteDone? ==> s.procs[i].file.Some?)
      && var (used, p) := Step(s.max, s.used, s.procs[i], a);
         s' == s.(used := used, procs := s.procs[i := p])
  }

  ghost predicate Run(ss: seq<State>, es: seq<Event>) {
    && |ss| == |es| + 1 && ss[0] == State(ss[0].max, 0, [])
    && forall i :: 0 <= i < |es| ==> Next(ss[i], es[i], ss[i + 1])
  }

  // ---- Conservation ----

  /** What a process has taken from the budget and not given back. */
  function Owed(p: Proc): nat { p.reserved + if p.phase.Releasing? then p.phase.bytes else 0 }

  function OwedByAll(ps: seq<Proc>): nat { if ps == [] then 0 else Owed(ps[0]) + OwedByAll(ps[1..]) }

  function FileSize(p: Proc): nat { if p.file.Some? then |p.file.value| else 0 }

  function FileBytes(ps: seq<Proc>): nat { if ps == [] then 0 else FileSize(ps[0]) + FileBytes(ps[1..]) }

  lemma {:induction false} OwedUpdate(ps: seq<Proc>, i: nat, p: Proc)
    requires i < |ps|
    ensures OwedByAll(ps[i := p]) == OwedByAll(ps) - Owed(ps[i]) + Owed(p)
  {
    if i == 0 {
      assert ps[0 := p][1..] == ps[1..];
    } else {
      assert ps[i := p][1..] == ps[1..][i - 1 := p];
      OwedUpdate(ps[1..], i - 1, p);
    }
  }

  lemma {:induction false} OwedAppend(ps: seq<Proc>, p: Proc)
    ensures OwedByAll(ps + [p]) == OwedByAll(ps) + Owed(p)
  {
    if ps == [] {
      assert [p][1..] == [];
    } else {
      assert (ps + [p])[1..] == ps[1..] + [p];
      OwedAppend(ps[1..], p);
    }
  }

  lemma {:induction false} FilesWithinOwed(ps: seq<Proc>)
    requires forall i :: 0 <= i < |ps| ==> FileSize(ps[i]) <= ps[i].reserved
    ensures FileBytes(ps) <= OwedByAll(ps)
  {
    if ps != [] {
      FilesWithinOwed(ps[1..]);
    }
  }

  /** What one process keeps: bytes are reserved before they are written, and what was read is in
      memory, or in the file up to what the write in progress still has to add. */
  predicate ProcOk(p: Proc) {
    && LimitsOk(p.limits)
    && FileSize(p) <= p.reserved
    && (p.file.None? ==> p.reserved == 0)
    && (p.phase.Reading? || p.phase.Reserving? || p.phase.Loaded? || p.phase.Open? ==>
          && p.total == |p.read| && p.total <= p.limits.maxBodyBytes
          && (p.file.None? ==> p.memory == p.read && p.total <= p.limits.memoryBytes))
    && (p.phase.Reading? || p.phase.Open? ==>
          p.file.Some? ==> p.memory == [] && p.file.value == p.read && p.reserved == p.total > p.limits.memoryBytes)
    && (p.phase.Reserving? || p.phase.Loaded? ==>
          && p.phase.chunk != [] && p.file.Some? && p.file.value + p.memory == p.read
          && p.reserved == |p.file.value|
          && p.limits.memoryBytes < p.total + |p.phase.chunk| <= p.limits.maxBodyBytes)
    && (p.phase.Writing? ==>
          && p.file.Some? && p.total == |p.read|
          && p.file.value + p.phase.rest == p.read + p.phase.chunk
          && p.reserved == p.total + |p.phase.chunk|
          && p.limits.memoryBytes < p.total + |p.phase.chunk| <= p.limits.maxBodyBytes)
    && (p.phase.Releasing? || p.phase.Released? ==> p.file.None?)
  }

  lemma ReadOk(p: Proc, chunk: Bytes, created: bool)
    requires ProcOk(p) && Enabled(p, ReadChunk(chunk, created))
    ensures ProcOk(AfterRead(p, chunk, created)) && Owed(AfterRead(p, chunk, created)) == Owed(p)
  {
  }

  lemma WriteOk(p: Proc, n: nat)
    requires ProcOk(p) && Enabled(p, WriteSome(n)) && p.file.Some?
    ensures ProcOk(Step(0, 0, p, WriteSome(n)).1)
  {
    var rest := p.phase.rest;
    assert rest == rest[..n] + rest[n..];
    assert (p.file.value + rest[..n]) + rest[n..] == p.file.value + rest;
    assert |p.file.value + rest| == |p.read + p.phase.chunk|;
  }

  lemma SwapOk(max: nat, used: int, p: Proc)
    requires ProcOk(p) && Enabled(p, CompareAndSwap)
    ensures ProcOk(Step(max, used, p, CompareAndSwap).1)
  {
    var chunk := p.phase.chunk;
    assert p.file.value + (p.memory + chunk) == (p.file.value + p.memory) + chunk;
    assert |p.file.value + p.memory| == |p.read|;
  }

  /** One step of one process keeps what holds of it, and changes the budget by what it owes. */
  lemma {:induction false} StepOk(max: nat, used: int, p: Proc, a: Action)
    requires ProcOk(p) && Enabled(p, a) && (a.WriteSome? || a.WriteDone? ==> p.file.Some?)
    ensures var (used', p') := Step(max, used, p, a);
      ProcOk(p') && used' - used == Owed(p') - Owed(p) && (used <= max ==> used' <= max)
  {
    match a
    case ReadChunk(chunk, created) => ReadOk(p, chunk, created);
    case WriteSome(n) => WriteOk(p, n);
    case CompareAndSwap => SwapOk(max, used, p);
    case WriteDone => assert p.file.value + [] == p.file.value;
    case _ =>
  }

  /** `used` is exactly what captures, open bodies and undeletable files hold. */
  ghost predicate Inv(s: State) {
    && s.used == OwedByAll(s.procs)
    && s.used <= s.max
    && forall i :: 0 <= i < |s.procs| ==> ProcOk(s.procs[i])
  }

  lemma {:induction false} StepKeeps(s: State, e: Event, s': State)
    requires Inv(s) && Next(s, e, s')
    ensures Inv(s') && s'.max == s.max
  {
    match e
    case Begin(limits) => OwedAppend(s.procs, s'.procs[|s.procs|]);
    case Act(i, a) =>
      StepOk(s.max, s.used, s.procs[i], a);
      OwedUpdate(s.procs, i, s'.procs[i]);
  }

  lemma {:induction false} RunInv(ss: seq<State>, es: seq<Event>, n: nat)
    requires Run(ss, es) && n <= |es|
    ensures Inv(ss[n]) && ss[n].max == ss[0].max
  {
    if n > 0 {
      RunInv(ss, es, n - 1);
      StepKeeps(ss[n - 1], es[n - 1], ss[n]);
    }
  }

  /** In every interleaving the bytes of all existing spool files are within `used`, which is
      within the maximum and is exactly what is still owed. */
  lemma {:induction false} SpoolConserved(ss: seq<State>, es: seq<Event>, n: nat)
    requires Run(ss, es) && n <= |es|
    ensures 0 <= FileBytes(ss[n].procs) <= ss[n].used <= ss[0].max
    ensures ss[n].used == OwedByAll(ss[n].procs)
  {
    RunInv(ss, es, n);
    FilesWithinOwed(ss[n].procs);
  }

  // ---- What a body holds ----

  predicate ActsAt(es: seq<Event>, n: nat, i: nat) { n < |es| && es[n].Act? && es[n].i == i }

  /** The chunks that process `i` has read in the first `n` events. */
  function ChunksRead(es: seq<Event>, n: nat, i: nat): Bytes
    requires n <= |es|
  {
    if n == 0 then [] else ChunksRead(es, n - 1, i) + Piece(es[n - 1], i)
  }

  /** As long as a capture has not failed it has everything it read, but for the chunk in hand. */
  predicate HasRead(p: Proc, chunks: Bytes) {
    match p.phase
    case Reading => p.read == chunks
    case Open => p.read == chunks
    case Reserving(chunk) => p.read + chunk == chunks
    case Loaded(chunk, _) => p.read + chunk == chunks
    case Writing(_, chunk) => p.read + chunk == chunks
    case _ => true
  }

  lemma StepHasRead(max: nat, used: int, p: Proc, a: Action, chunks: Bytes)
    requires Enabled(p, a) && (a.WriteSome? || a.WriteDone? ==> p.file.Some?) && HasRead(p, chunks)
    ensures HasRead(Step(max, used, p, a).1, chunks + if a.ReadChunk? then a.chunk else [])
  {
    assert chunks + [] == chunks;
  }

  /** The chunk that process `i` reads in an event. */
  function Piece(e: Event, i: nat): Bytes {
    if e.Act? && e.i == i && e.action.ReadChunk? then e.action.chunk else []
  }

  /** What process `i` has read so far, if it has begun. */
  predicate ReadBy(s: State, i: nat, chunks: Bytes) {
    if i < |s.procs| then HasRead(s.procs[i], chunks) else chunks == []
  }

  lemma StepReads(s: State, e: Event, s': State, i: nat, chunks: Bytes)
    requires Next(s, e, s') && ReadBy(s, i, chunks)
    ensures ReadBy(s', i, chunks + Piece(e, i))
  {
    assert chunks + [] == chunks;
    if e.Act? && e.i == i {
      StepHasRead(s.max, s.used, s.procs[i], e.action, chunks);
    }
  }

  lemma {:induction false} RunHasRead(ss: seq<State>, es: seq<Event>, n: nat, i: nat)
    requires Run(ss, es) && n <= |es|
    ensures ReadBy(ss[n], i, ChunksRead(es, n, i))
  {
    if n > 0 {
      RunHasRead(ss, es, n - 1, i);
      StepReads(ss[n - 1], es[n - 1], ss[n], i, ChunksRead(es, n - 1, i));
    }
  }

  /** What a reader of an open body gets. */
  function Reopened(p: Proc): Bytes { if p.file.Some? then p.file.value else p.memory }

  /** Every body that a capture produced reopens to exactly the chunks read, and lies in a file
      exactly when it is larger than the memory limit. */
  lemma {:induction false} BodiesAreExact(ss: seq<State>, es: seq<Event>, n: nat, i: nat)
    requires Run(ss, es) && n <= |es| && i < |ss[n].procs| && ss[n].procs[i].phase.Open?
    ensures var p := ss[n].procs[i];
      && Reopened(p) == ChunksRead(es, n, i)
      && (p.file.Some? <==> |Reopened(p)| > p.limits.memoryBytes)
      && |Reopened(p)| <= p.limits.maxBodyBytes
      && p.reserved == if p.file.Some? then |Reopened(p)| else 0
  {
    RunInv(ss, es, n);
    assert ProcOk(ss[n].procs[i]);
    RunHasRead(ss, es, n, i);
  }

  // ---- When a capture fails ----

  /** The reason for which a capture gives up in a step: the reader or its caller, a body or a budget that
      is too small, or a file that cannot be made, written or closed. */
  predicate Fails(max: nat, p: Proc, a: Action)
    requires Enabled(p, a)
  {
    match a
    case GiveUp => true
    case WriteFails => true
    case ReadChunk(chunk, created) =>
      || |p.read| + |chunk| > p.limits.maxBodyBytes
      || (p.file.None? && |p.read| + |chunk| > p.limits.memoryBytes && !created)
    case CompareAndSwap => p.phase.current + |p.memory| + |p.phase.chunk| > max
    case EndOfFile(closed) => p.file.Some? && !closed
    case _ => false
  }

  /** Where a step leads that does not fail: back to reading with the chunk kept, or to the open body. */
  predicate GoesOn(p: Proc, a: Action, p': Proc)
    requires Enabled(p, a)
  {
    match a
    case ReadChunk(chunk, _) => p'.phase == Reading || p'.phase == Reserving(chunk)
    case Load => p'.phase.Loaded? && p'.phase.chunk == p.phase.chunk
    case CompareAndSwap =>
      p'.phase == Reserving(p.phase.chunk) || (p'.phase.Writing? && p'.phase.chunk == p.phase.chunk)
    case WriteSome(_) => p'.phase.Writing? && p'.phase.chunk == p.phase.chunk
    case WriteDone => p'.phase == Reading
    case EndOfFile(_) => p'.phase == Open
    case _ => true
  }

  /** A capture fails at a step exactly for one of those reasons, and otherwise goes on towards its body. */
  lemma {:induction false} FailsIff(ss: seq<State>, es: seq<Event>, n: nat)
    requires Run(ss, es) && n < |es| && es[n].Act? && Captures(es[n].action)
    ensures es[n].i < |ss[n].procs| && es[n].i < |ss[n + 1].procs|
    ensures var p, p' := ss[n].procs[es[n].i], ss[n + 1].procs[es[n].i];
      && Enabled(p, es[n].action)
      && (p'.phase == CleaningUp <==> Fails(ss[n].max, p, es[n].action))
      && (!Fails(ss[n].max, p, es[n].action) ==> GoesOn(p, es[n].action, p'))
  {
    RunInv(ss, es, n);
    assert Next(ss[n], es[n], ss[n + 1]);
    assert ProcOk(ss[n].procs[es[n].i]);
  }

  /** The steps of a capture that is under way. */
  predicate Captures(a: Action) { !a.Remove? && !a.CloseBody? && !a.Release? }

  // ---- Releases ----

  predicate ReleasesAt(es: seq<Event>, n: nat, i: nat) { ActsAt(es, n, i) && es[n].action.Release? }

  lemma {:induction false} ReleasedStays(ss: seq<State>, es: seq<Event>, k: nat, n: nat, i: nat)
    requires Run(ss, es) && k < n <= |es| && ReleasesAt(es, k, i)
    ensures i < |ss[n].procs| && ss[n].procs[i].phase.Released?
  {
    assert Next(ss[n - 1], es[n - 1], ss[n]);
    if k < n - 1 {
      ReleasedStays(ss, es, k, n - 1, i);
    }
  }

  /** No process releases twice, and one that has released owns no file. */
  lemma {:induction false} ReleasesOnce(ss: seq<State>, es: seq<Event>, k: nat, n: nat, i: nat)
    requires Run(ss, es) && k < n && ReleasesAt(es, k, i)
    ensures !ReleasesAt(es, n, i)
    ensures n <= |es| ==> i < |ss[n].procs| && ss[n].procs[i].file.None? && Owed(ss[n].procs[i]) == 0
  {
    if n <= |es| {
      ReleasedStays(ss, es, k, n, i);
      RunInv(ss, es, n);
      assert ProcOk(ss[n].procs[i]);
    }
    if n < |es| {
      assert Next(ss[n], es[n], ss[n + 1]);
    }
  }
}
