/** The capture of a request body as the code runs it: the compare-and-swap loop of the budget, the
    write loop, the read loop with its cleanup, and the body it returns. What the reader, the disk
    and other users of the budget do comes in as parameters. */
module ReplayCapture {
  import opened Options
  import opened ReplaySpool
  import opened Sequences

  // ---- The budget ----

  function Sum(xs: seq<int>): int { if xs == [] then 0 else Sum(xs[..|xs| - 1]) + xs[|xs| - 1] }

  lemma SumNext(xs: seq<int>, i: nat)
    requires i < |xs|
    ensures Sum(xs[..i + 1]) == Sum(xs[..i]) + xs[i]
  {
    assert xs[..i + 1][..i] == xs[..i];
  }

  /** The amount fits at the `k`-th load, after what others have added by then. */
  predicate Roomy(before: int, max: int, n: int, others: seq<int>, k: int)
    requires 0 <= k <= |others|
  {
    before + Sum(others[..k]) + n <= max
  }

  /** Attempt `k` is the last: it has no room, or nobody interferes; all before had room and were disturbed. */
  predicate SwapsAt(before: int, max: int, n: int, others: seq<int>, k: int) {
    && 0 <= k <= |others|
    && (forall j :: 0 <= j < k ==> Roomy(before, max, n, others, j) && others[j] != 0)
    && (!Roomy(before, max, n, others, k) || k == |others| || others[k] == 0)
  }

  /** It takes the whole amount if that fits, and nothing else. */
  predicate ReserveGives(before: int, max: int, n: int, others: seq<int>, k: int, ok: bool, after: int)
    requires 0 <= k <= |others|
  {
    && (ok <==> Roomy(before, max, n, others, k))
    && after == before + Sum(others[..k]) + if ok then n else 0
  }

  class Budget {
    const max: nat
    var used: int
    /** This caller's reservations less its releases. */
    ghost var mine: int

    constructor (limit: int)
      ensures max == (if limit < 0 then 0 else limit) && used == 0 && mine == 0
    {
      max := if limit < 0 then 0 else limit;
      used, mine := 0, 0;
    }

    /** `others[i]` is what other callers add to `used` between the `i`-th load and its swap. */
    method Reserve(n: int, others: seq<int>) returns (ok: bool)
      modifies this
      ensures mine == old(mine) + (if ok && n > 0 then n else 0)
      ensures ok && n > 0 ==> used <= max
      ensures n <= 0 ==> ok && used == old(used)
      ensures others == [] ==> used - old(used) == mine - old(mine) && (ok <==> n <= 0 || old(used) + n <= max)
      ensures n > 0 ==> exists k ::
        SwapsAt(old(used), max, n, others, k) && ReserveGives(old(used), max, n, others, k, ok, used)
    {
      if n <= 0 {
        return true;
      }
      var i := 0;
      while true
        invariant i <= |others| && mine == old(mine)
        invariant used == old(used) + Sum(others[..i])
        invariant forall j :: 0 <= j < i ==> Roomy(old(used), max, n, others, j) && others[j] != 0
        decreases |others| - i
      {
        var current := used;
        assert used == old(used) + Sum(others[..i]);
        if current > max || n > max - current {
          assert SwapsAt(old(used), max, n, others, i);
          return false;
        }
        if i < |others| {
          SumNext(others, i);
        }
        used := used + if i < |others| then others[i] else 0;
        if used == current {
          assert SwapsAt(old(used), max, n, others, i);
          used, mine := current + n, mine + n;
          return true;
        }
        i := i + 1;
      }
    }

    method Release(n: int)
      modifies this
      ensures mine == old(mine) - (if n > 0 then n else 0) && used - old(used) == mine - old(mine)
    {
      if n <= 0 {
        return;
      }
      used, mine := used - n, mine - n;
    }
  }

  // ---- Writing ----

  /** One call of the writer: how many bytes it took, and whether it failed. */
  datatype Written = Written(n: nat, err: bool)

  predicate Prefix(a: Bytes, b: Bytes) { |a| <= |b| && a == b[..|a|] }

  ghost predicate NeverFails(writer: nat -> Written) { forall k: nat :: writer(k).n > 0 && !writer(k).err }

  /** `writeAll`: the file grows by all of the data, or fails with some of it. */
  method WriteAll(file: Bytes, data: Bytes, writer: nat -> Written) returns (after: Bytes, ok: bool)
    ensures ok ==> after == file + data
    ensures Prefix(after, file + data) && |file| <= |after|
    ensures NeverFails(writer) ==> ok
  {
    var rest, calls := data, 0;
    after := file;
    while |rest| != 0
      invariant after + rest == file + data && |file| <= |after|
      decreases |rest|
    {
      var w := writer(calls);
      calls := calls + 1;
      var n := if w.n > |rest| then |rest| else w.n;
      assert NeverFails(writer) ==> w.n > 0 && !w.err;
      assert rest == rest[..n] + rest[n..];
      after := after + rest[..n];
      rest := rest[n..];
      if w.err || n == 0 {
        return after, false;
      }
    }
    return after, true;
  }

  // ---- Capturing ----

  datatype End = More | Eof | Broken

  /** One turn of the read loop: the cancellation seen before and after it, and what was read. */
  datatype Turn = Turn(cancelledBefore: bool, chunk: Bytes, end: End, cancelledAfter: bool)

  datatype Body = Body(data: Bytes, file: Option<Bytes>, size: nat, reserved: nat)

  /** A failed capture holds on to the reservation of a file it could not remove; one whose reader
      has not ended yet is still reading. */
  datatype Result = Captured(body: Body) | Failed(kept: nat) | Unfinished(soFar: nat)

  function Held(r: Result): nat {
    match r
    case Captured(body) => body.reserved
    case Failed(kept) => kept
    case Unfinished(soFar) => soFar
  }

  /** What disk and other budget users do: `others`, `writer` and `created` per turn. */
  datatype World = World(
    others: nat -> seq<int>, writer: nat -> nat -> Written, created: bool, closed: bool, removed: bool)

  /** The disk does what it is asked, and nobody else uses the budget meanwhile. */
  ghost predicate Works(world: World) {
    && world.created && world.closed
    && (forall turn: nat :: world.others(turn) == [] && NeverFails(world.writer(turn)))
  }

  /** The bytes read in the first `n` turns. */
  function ReadSoFar(turns: seq<Turn>, n: nat): Bytes
    requires n <= |turns|
  {
    if n == 0 then [] else ReadSoFar(turns, n - 1) + turns[n - 1].chunk
  }

  predicate Ends(turn: Turn) { !turn.end.More? }

  /** The turn in which the reader ends, or the number of turns. */
  function EndOf(turns: seq<Turn>): (n: nat)
    ensures n <= |turns| && forall i :: 0 <= i < n ==> turns[i].end.More?
    ensures n < |turns| ==> Ends(turns[n])
  {
    FirstFrom(turns, 0, Ends)
  }

  /** The source ends, without an error and before any cancellation is seen. */
  predicate Readable(turns: seq<Turn>) {
    var n := EndOf(turns);
    && n < |turns| && turns[n].end.Eof? && !turns[n].cancelledAfter
    && forall i :: 0 <= i <= n ==> !turns[i].cancelledBefore
  }

  /** Everything the source gives up to its end. */
  function Content(turns: seq<Turn>): Bytes
    requires EndOf(turns) < |turns|
  {
    ReadSoFar(turns, EndOf(turns) + 1)
  }

  lemma {:induction false} ReadMore(turns: seq<Turn>, i: nat, n: nat)
    requires i <= n <= |turns|
    ensures |ReadSoFar(turns, i)| <= |ReadSoFar(turns, n)|
  {
    if i < n {
      ReadMore(turns, i, n - 1);
    }
  }

  datatype Store = Store(memory: Bytes, file: Option<Bytes>, reserved: nat)

  /** What the read loop keeps: everything read is in memory up to the limit, or else in the file,
      reserved byte for byte. */
  predicate Holds(st: Store, limits: Limits, bytes: Bytes) {
    && |bytes| <= limits.maxBodyBytes
    && if |bytes| <= limits.memoryBytes then st == Store(bytes, None, 0) else st == Store([], Some(bytes), |bytes|)
  }

  /** `cleanup`: the reservation goes back unless the file cannot be removed. */
  method Cleanup(budget: Budget, st: Store, removed: bool) returns (kept: nat)
    modifies budget
    ensures budget.mine == old(budget.mine) - st.reserved + kept
    ensures kept == if st.file.None? || removed then 0 else st.reserved
  {
    if st.file.Some? {
      if !removed {
        return st.reserved;
      }
      budget.Release(st.reserved);
    } else if st.reserved != 0 {
      budget.Release(st.reserved);
    }
    return 0;
  }

  /** `writeChunk`. */
  method WriteChunk(
    budget: Budget, limits: Limits, st: Store, total: nat, chunk: Bytes, world: World, turn: nat, ghost bytes: Bytes)
    returns (after: Store, ok: bool)
    requires chunk != [] && total + |chunk| <= limits.maxBodyBytes
    requires |bytes| == total && Holds(st, limits, bytes)
    modifies budget
    ensures budget.mine == old(budget.mine) - st.reserved + after.reserved
    ensures ok ==> Holds(after, limits, bytes + chunk)
    ensures total + |chunk| <= limits.memoryBytes ==> ok
    ensures Works(world) ==> budget.used - old(budget.used) == after.reserved - st.reserved
    ensures Works(world) && old(budget.used) - st.reserved + total + |chunk| <= budget.max ==> ok
    ensures after.file.Some? ==> |after.file.value| <= after.reserved
  {
    after := st;
    if st.file.None? && total + |chunk| <= limits.memoryBytes {
      after := st.(memory := st.memory + chunk);
      return after, true;
    }
    if st.file.None? {
      if !world.created {
        return after, false;
      }
      after := after.(file := Some([]));
      var needed := |st.memory| + |chunk|;
      var granted := budget.Reserve(needed, world.others(turn));
      if !granted {
        return after, false;
      }
      after := after.(reserved := after.reserved + needed);
      var f, wrote := WriteAll([], st.memory + chunk, world.writer(turn));
      after := after.(file := Some(f), memory := []);
      assert [] + (st.memory + chunk) == bytes + chunk;
      return after, wrote;
    }
    var granted := budget.Reserve(|chunk|, world.others(turn));
    if !granted {
      return after, false;
    }
    after := after.(reserved := after.reserved + |chunk|);
    var f, wrote := WriteAll(st.file.value, chunk, world.writer(turn));
    after := after.(file := Some(f));
    return after, wrote;
  }

  predicate IsBody(b: Body, limits: Limits, content: Bytes) {
    Holds(Store(b.data, b.file, b.reserved), limits, content) && b.size == |content|
  }

  predicate ValidLimits(memoryBytes: int, maxBodyBytes: int) { 0 <= memoryBytes <= maxBodyBytes }

  /** When a capture succeeds: always for a readable source that fits in memory, and for one within
      the limit when the disk works and the budget has room. */
  ghost predicate MustSucceed(turns: seq<Turn>, limits: Limits, world: World, room: int) {
    && Readable(turns)
    && var size := |Content(turns)|;
       size <= limits.memoryBytes || (size <= limits.maxBodyBytes && Works(world) && size <= room)
  }

  /** A captured body is exactly what a readable source gave. */
  predicate CapturedAll(turns: seq<Turn>, limits: Limits, body: Body) {
    Readable(turns) && IsBody(body, limits, Content(turns))
  }

  /** `newReplayableBodyWithLimits`: bad limits and a declared length over the limit fail at once, no
      source is an empty body, and otherwise a captured body is exactly the bytes read up to the
      end of the source, spooled exactly when they exceed the memory limit. The budget is charged
      exactly what the result holds. */
  method Capture(
    budget: Budget, memoryBytes: int, maxBodyBytes: int, contentLength: int, source: Option<seq<Turn>>, world: World)
    returns (result: Result)
    modifies budget
    ensures budget.mine == old(budget.mine) + Held(result)
    ensures !ValidLimits(memoryBytes, maxBodyBytes) ==> result == Failed(0)
    ensures ValidLimits(memoryBytes, maxBodyBytes) && source.None? ==> result == Captured(Body([], None, 0, 0))
    ensures source.Some? && contentLength > maxBodyBytes ==> result == Failed(0)
    ensures source.Some? && result.Captured? ==>
      ValidLimits(memoryBytes, maxBodyBytes)
      && CapturedAll(source.value, Limits(memoryBytes, maxBodyBytes), result.body)
    ensures source.Some? && ValidLimits(memoryBytes, maxBodyBytes) && contentLength <= maxBodyBytes ==>
      MustSucceed(source.value, Limits(memoryBytes, maxBodyBytes), world, budget.max - old(budget.used)) ==>
      result.Captured?
    ensures source.Some? && result.Unfinished? ==> EndOf(source.value) == |source.value|
    ensures result.Failed? && world.removed ==> result.kept == 0
  {
    if memoryBytes < 0 || maxBodyBytes < 0 || memoryBytes > maxBodyBytes {
      return Failed(0);
    }
    if source.None? {
      return Captured(Body([], None, 0, 0));
    }
    if contentLength >= 0 && contentLength > maxBodyBytes {
      return Failed(0);
    }
    result := ReadAll(budget, Limits(memoryBytes, maxBodyBytes), source.value, world);
  }

  /** What the read loop knows before turn `i`. */
  ghost predicate Reading(turns: seq<Turn>, limits: Limits, i: nat, st: Store, total: int) {
    && i <= |turns| && (forall k :: 0 <= k < i ==> turns[k].end.More? && !turns[k].cancelledBefore)
    && total == |ReadSoFar(turns, i)| && Holds(st, limits, ReadSoFar(turns, i))
  }

  /** A source that must succeed has not been cancelled, and what it gives next still fits. */
  lemma StillFits(turns: seq<Turn>, limits: Limits, world: World, room: int, i: nat)
    requires MustSucceed(turns, limits, world, room) && LimitsOk(limits)
    requires i < |turns| && forall k :: 0 <= k < i ==> turns[k].end.More?
    ensures !turns[i].cancelledBefore && |ReadSoFar(turns, i + 1)| <= limits.maxBodyBytes
    ensures |ReadSoFar(turns, i + 1)| <= limits.memoryBytes || (Works(world) && |ReadSoFar(turns, i + 1)| <= room)
    ensures Ends(turns[i]) ==> i == EndOf(turns) && turns[i].end.Eof? && !turns[i].cancelledAfter
  {
    assert i <= EndOf(turns);
    ReadMore(turns, i + 1, EndOf(turns) + 1);
  }

  /** The read loop and what follows it. */
  method ReadAll(budget: Budget, limits: Limits, turns: seq<Turn>, world: World) returns (result: Result)
    requires LimitsOk(limits)
    modifies budget
    ensures budget.mine == old(budget.mine) + Held(result)
    ensures result.Captured? ==> CapturedAll(turns, limits, result.body)
    ensures MustSucceed(turns, limits, world, budget.max - old(budget.used)) ==> result.Captured?
    ensures result.Unfinished? ==> EndOf(turns) == |turns|
    ensures result.Failed? && world.removed ==> result.kept == 0
  {
    var st := Store([], None, 0);
    var total: nat, i: nat := 0, 0;
    ghost var must := MustSucceed(turns, limits, world, budget.max - budget.used);
    ghost var room := budget.max - budget.used;
    while i < |turns|
      invariant Reading(turns, limits, i, st, total)
      invariant budget.mine == old(budget.mine) + st.reserved
      invariant Works(world) ==> budget.used == old(budget.used) + st.reserved
      decreases |turns| - i
    {
      var turn := turns[i];
      if must {
        StillFits(turns, limits, world, room, i);
      }
      if turn.cancelledBefore {
        var kept := Cleanup(budget, st, world.removed);
        return Failed(kept);
      }
      if |turn.chunk| > 0 {
        if total + |turn.chunk| > limits.maxBodyBytes {
          var kept := Cleanup(budget, st, world.removed);
          return Failed(kept);
        }
        var after, ok := WriteChunk(budget, limits, st, total, turn.chunk, world, i, ReadSoFar(turns, i));
        st := after;
        if !ok {
          var kept := Cleanup(budget, st, world.removed);
          return Failed(kept);
        }
        total := total + |turn.chunk|;
      } else {
        ConcatEmpty(ReadSoFar(turns, i));
      }
      if !turn.end.More? {
        if turn.cancelledAfter || turn.end.Broken? {
          var kept := Cleanup(budget, st, world.removed);
          return Failed(kept);
        }
        assert i == EndOf(turns);
        result := TurnIntoBody(budget, st, total, world);
        return;
      }
      i := i + 1;
    }
    return Unfinished(st.reserved);
  }

  /** The temporary file is closed, or given up. */
  method TurnIntoBody(budget: Budget, st: Store, total: nat, world: World) returns (result: Result)
    requires st.file.None? ==> st.reserved == 0
    requires st.file.Some? ==> st.memory == []
    modifies budget
    ensures budget.mine == old(budget.mine) - st.reserved + Held(result)
    ensures result.Captured? <==> st.file.None? || world.closed
    ensures !result.Unfinished? && (result.Captured? ==> result.body == Body(st.memory, st.file, total, st.reserved))
    ensures result.Failed? && world.removed ==> result.kept == 0
  {
    if st.file.Some? {
      if !world.closed {
        var kept := Cleanup(budget, st, world.removed);
        return Failed(kept);
      }
      return Captured(Body([], st.file, total, st.reserved));
    }
    return Captured(Body(st.memory, None, total, 0));
  }

  // ---- The body ----

  class ReplayableBody {
    var data: Bytes
    var file: Option<Bytes>
    var size: nat
    var closed: bool
    var reserved: nat

    ghost predicate Valid(content: Bytes)
      reads this
    {
      if closed then data == [] && file.None? && size == 0 && reserved == 0
      else
        && size == |content|
        && (if file.Some? then file.value == content && reserved == |content| else data == content && reserved == 0)
    }

    constructor (b: Body, ghost limits: Limits, ghost content: Bytes)
      requires IsBody(b, limits, content)
      ensures Valid(content) && !closed && reserved == b.reserved && file == b.file
    {
      data, file, size, closed, reserved := b.data, b.file, b.size, false, b.reserved;
    }

    /** Opening an open body gives the captured bytes, or the error of opening its file, never other
        bytes; only a spooled body needs the file to open. */
    method Open(fileOpens: bool, ghost content: Bytes) returns (r: Option<Bytes>)
      requires Valid(content)
      ensures r == if closed || (file.Some? && size > 0 && !fileOpens) then None else Some(content)
    {
      if closed {
        return None;
      }
      if size == 0 {
        return Some([]);
      }
      if file.Some? {
        return if fileOpens then file else None;
      }
      return Some(data);
    }

    /** Closing is retried until the file is gone; then it gives back its reservation, once. */
    method Close(budget: Budget, removed: bool, ghost content: Bytes) returns (ok: bool)
      requires Valid(content)
      modifies this, budget
      ensures Valid(content)
      ensures ok == (old(closed) || old(file).None? || removed)
      ensures closed == (old(closed) || ok)
      ensures budget.mine == old(budget.mine) - (old(reserved) - reserved)
      ensures closed ==> reserved == 0
      ensures !closed ==> file == old(file) && reserved == old(reserved)
    {
      if closed {
        return true;
      }
      if file.Some? && !removed {
        return false;
      }
      data, file, size, closed := [], None, 0, true;
      var amount := reserved;
      reserved := 0;
      budget.Release(amount);
      return true;
    }
  }
}
