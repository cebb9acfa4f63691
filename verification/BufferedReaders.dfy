// The three buffering readers of internal/storage/azure.go.  Each serves small reads from a buffer it refills and
// hands large reads straight to the wrapped reader; azureHighPerfReader also changes its buffer size on the way.
module BufferedReaders {
  import opened Core
  import opened Runs

  datatype Kind = HighPerf | Fast | Upload

  const KB := 1024
  const MB := 1024 * 1024

  /** Reads at least this long bypass the buffer. */
  function BypassFrom(k: Kind): nat { if k.Fast? then 256 * KB else MB }

  /** The buffer a read of `room` bytes works with, when the current one has `size` bytes (0: none yet). */
  function BufferFor(k: Kind, size: nat, room: nat): nat {
    match k
    case HighPerf =>
      if room >= 64 * KB then (if size < 512 * KB then 512 * KB else size)
      else (if size != 64 * KB then 64 * KB else size)
    case Fast => if size == 0 then 256 * KB else size
    case Upload => if size == 0 then MB else size
  }

  datatype Status = Fine | AtEnd | Fault

  datatype Err = EndOfFile | Failed | Panic

  /** A Read into `room` bytes, and what the wrapped reader gives if it is asked. */
  datatype Op = Op(room: nat, got: nat, status: Status)

  datatype Outcome = Outcome(bytes: Bytes, err: Option<Err>)

  /** The fields of a reader, with the first `n` buffer bytes as `window`. */
  datatype State = State(size: nat, window: Bytes, pos: nat, sticky: Option<Err>, taken: nat)

  predicate Drained(s: State) { s.pos >= |s.window| }

  /** Bytes buffered and not yet handed out. */
  function Pending(s: State): Bytes { if s.pos <= |s.window| then s.window[s.pos..] else [] }

  function Reported(status: Status): Option<Err> {
    match status case Fine => None case AtEnd => Some(EndOfFile) case Fault => Some(Failed)
  }

  /** Does this read ask the wrapped reader, and for how many bytes at most? */
  function Asks(k: Kind, s: State, room: nat): nat {
    if room >= BypassFrom(k) then room
    else if Drained(s) && !(k.Upload? && s.sticky.Some?) then BufferFor(k, s.size, room)
    else 0
  }

  /** The wrapped reader gives what it has, and says end-of-file only at the end. */
  predicate Honest(data: Bytes, k: Kind, s: State, op: Op) {
    && s.taken <= |data|
    && s.taken + op.got <= |data| && op.got <= Asks(k, s, op.room)
    && (op.status.AtEnd? ==> s.taken + op.got == |data|)
  }

  function Shorter(a: nat, b: nat): nat { if a <= b then a else b }

  /** Copying from the buffer; slicing beyond the buffer panics. */
  function Serve(s: State, room: nat): (State, Outcome)
    requires s.pos <= |s.window|
  {
    if |s.window| > s.size then (s, Outcome([], Some(Panic)))
    else
      var n := Shorter(room, |s.window| - s.pos);
      (s.(pos := s.pos + n), Outcome(s.window[s.pos..s.pos + n], None))
  }

  /** Choosing the buffer: a new one starts out zeroed. */
  function Prepared(k: Kind, s: State, room: nat): State {
    var size := BufferFor(k, s.size, room);
    if size != s.size then s.(size := size, window := Zeros(|s.window|)) else s
  }

  /** Refilling it with what the wrapped reader gave. */
  function Refilled(data: Bytes, k: Kind, s: State, op: Op): State
    requires s.taken + op.got <= |data|
  {
    State(s.size, data[s.taken..s.taken + op.got], if k.Upload? || op.got > 0 then 0 else s.pos,
          if k.Upload? then Reported(op.status) else s.sticky, s.taken + op.got)
  }

  /** One Read: the new fields and what the caller gets. */
  function Step(data: Bytes, k: Kind, s: State, op: Op): (State, Outcome)
    requires Honest(data, k, s, op)
  {
    if op.room >= BypassFrom(k) then
      (s.(taken := s.taken + op.got), Outcome(data[s.taken..s.taken + op.got], Reported(op.status)))
    else
      var s1 := Prepared(k, s, op.room);
      if !Drained(s1) then Serve(s1, op.room)
      else if k.Upload? && s1.sticky.Some? then (s1, Outcome([], s1.sticky))
      else if op.got == 0 then (Refilled(data, k, s1, op), Outcome([], Reported(op.status)))
      else Serve(Refilled(data, k, s1, op), op.room)
  }

  // ---------------------------------------------------------------- what a Read answers

  /** The caller gets `bytes`, with the wrapped reader's status as the error. */
  predicate PassesOn(r: Outcome, bytes: Bytes, status: Status) {
    r.bytes == bytes && (r.err == None <==> status.Fine?) && (r.err == Some(EndOfFile) <==> status.AtEnd?)
    && (r.err == Some(Failed) <==> status.Fault?)
  }

  /** The caller gets as much of `available` as fits into `room` bytes, and no error. */
  predicate HandsOut(r: Outcome, available: Bytes, room: nat) {
    r.err == None && r.bytes <= available && |r.bytes| == if room <= |available| then room else |available|
  }

  /**
   * What an orderly read answers: a large one what the wrapped reader gives; a small one the front of what is buffered
   * or, if that is nothing, of what a refill brings, or the reason why it brings nothing.
   */
  ghost predicate RightAnswer(data: Bytes, k: Kind, s: State, op: Op, r: Outcome)
    requires Honest(data, k, s, op)
  {
    var given := data[s.taken..s.taken + op.got];
    if op.room >= (if k.Fast? then 262144 else 1048576) then PassesOn(r, given, op.status)
    else if s.pos < |s.window| then HandsOut(r, s.window[s.pos..], op.room)
    else if k.Upload? && s.sticky.Some? then r == Outcome([], s.sticky)
    else if op.got == 0 then PassesOn(r, [], op.status)
    else HandsOut(r, given, op.room)
  }

  lemma ServeHandsOut(s: State, room: nat)
    requires s.pos <= |s.window| <= s.size
    ensures HandsOut(Serve(s, room).1, s.window[s.pos..], room)
  {
    var n := Shorter(room, |s.window| - s.pos);
    assert s.window[s.pos..][..n] == s.window[s.pos..s.pos + n];
  }

  lemma OrderlyAnswer(data: Bytes, k: Kind, s: State, op: Op)
    requires Honest(data, k, s, op) && Orderly(k, s, op.room) && (Drained(s) || |s.window| <= s.size)
    ensures RightAnswer(data, k, s, op, Step(data, k, s, op).1)
  {
    if op.room < BypassFrom(k) {
      if !Drained(s) {
        ServeHandsOut(s, op.room);
      } else if !(k.Upload? && s.sticky.Some?) && op.got > 0 {
        var t := Refilled(data, k, Prepared(k, s, op.room), op);
        assert t.window[t.pos..] == data[s.taken..s.taken + op.got];
        ServeHandsOut(t, op.room);
      }
    }
  }

  /** The buffer a small read leaves behind: of the one size of its kind, or small or large with the read. */
  lemma BufferSizes(data: Bytes, k: Kind, s: State, op: Op)
    requires Honest(data, k, s, op) && op.room < BypassFrom(k)
    ensures k.HighPerf? ==> if op.room < 65536 then Step(data, k, s, op).0.size == 65536
                            else Step(data, k, s, op).0.size >= 524288
    ensures k.Fast? && s.size in {0, 262144} ==> Step(data, k, s, op).0.size == 262144
    ensures k.Upload? && s.size in {0, 1048576} ==> Step(data, k, s, op).0.size == 1048576
  {
    var s1 := Prepared(k, s, op.room);
    assert Step(data, k, s, op).0.size == s1.size;
  }

  // ---------------------------------------------------------------- the class

  /** The wrapped reader. */
  class Source {
    const data: Bytes
    var taken: nat

    constructor (data: Bytes)
      ensures this.data == data && taken == 0
    {
      this.data, taken := data, 0;
    }

    /** Fills the front of `into`. */
    method Fill(into: array<Byte>, got: nat)
      requires taken + got <= |data| && got <= into.Length
      modifies this, into
      ensures taken == old(taken) + got && into[..got] == data[old(taken)..taken]
    {
      for i := 0 to got
        invariant taken == old(taken) && into[..i] == data[taken..taken + i]
      {
        into[i] := data[taken + i];
      }
      taken := taken + got;
    }
  }

  class BufferedReader {
    const kind: Kind
    const source: Source
    var buf: array?<Byte>
    var pos: nat
    var n: nat
    var err: Option<Err>

    ghost predicate Valid()
      reads this, source, buf
    {
      && (buf == null ==> n == 0) && (buf != null ==> n <= buf.Length && buf.Length > 0)
      && source.taken <= |source.data|
    }

    ghost function Abstract(): State
      reads this, source, buf
      requires Valid()
    {
      State(if buf == null then 0 else buf.Length, if buf == null then [] else buf[..n], pos, err, source.taken)
    }

    constructor (kind: Kind, source: Source)
      requires source.taken == 0
      ensures Valid() && Abstract() == State(0, [], 0, None, 0) && this.kind == kind && this.source == source
    {
      this.kind, this.source, buf, pos, n, err := kind, source, null, 0, 0, None;
    }

    /** Allocates the buffer this read needs, zeroed; what the old one held is gone. */
    method Prepare(room: nat)
      requires Valid()
      modifies this
      ensures buf != null && buf.Length == Prepared(kind, old(Abstract()), room).size > 0
      ensures pos == old(pos) && n == old(n) && err == old(err)
      ensures n <= buf.Length ==> Valid() && Abstract() == Prepared(kind, old(Abstract()), room)
      ensures buf == old(buf) || fresh(buf)
    {
      var size := if buf == null then 0 else buf.Length;
      if BufferFor(kind, size, room) != size {
        buf := new Byte[BufferFor(kind, size, room)](_ => 0);
        assert n <= buf.Length ==> buf[..n] == Zeros(n);
      }
    }

    method Refill(op: Op, ghost s: State)
      requires buf != null && buf.Length == s.size > 0 && pos == s.pos && err == s.sticky && source.taken == s.taken
      requires source.taken + op.got <= |source.data| && op.got <= buf.Length
      modifies this, source, buf
      ensures buf == old(buf) && Valid() && Abstract() == Refilled(source.data, kind, s, op)
      ensures n == op.got && (n > 0 ==> pos == 0)
    {
      source.Fill(buf, op.got);
      n := op.got;
      if kind.Upload? { err := Reported(op.status); }
      if kind.Upload? || n > 0 { pos := 0; }
    }

    method CopyOut(room: nat) returns (r: Outcome)
      requires Valid() && buf != null && pos <= n
      modifies `pos
      ensures Valid() && (Abstract(), r) == Serve(old(Abstract()), room)
    {
      var count := Shorter(room, n - pos);
      assert buf[pos..pos + count] == buf[..n][pos..pos + count];
      r := Outcome(buf[pos..pos + count], None);
      pos := pos + count;
    }

    /** A read that is served from the buffer, which is refilled first when it is drained. */
    method ReadBuffered(op: Op) returns (r: Outcome)
      requires Valid() && Honest(source.data, kind, Abstract(), op) && op.room < BypassFrom(kind)
      modifies this, source, buf
      ensures r == Step(source.data, kind, old(Abstract()), op).1
      ensures r.err != Some(Panic) ==> Valid() && Abstract() == Step(source.data, kind, old(Abstract()), op).0
    {
      ghost var s1 := Prepared(kind, Abstract(), op.room);
      Prepare(op.room);
      if pos >= n {
        if kind.Upload? && err.Some? { return Outcome([], err); }
        Refill(op, s1);
        if n == 0 { return Outcome([], Reported(op.status)); }
      } else if n > buf.Length {
        return Outcome([], Some(Panic));
      }
      r := CopyOut(op.room);
    }

    /** Read, with the three readers' branches told apart by `kind`; a panic ends the reader. */
    method Read(op: Op) returns (r: Outcome)
      requires Valid() && Honest(source.data, kind, Abstract(), op)
      modifies this, source, buf
      ensures r == Step(source.data, kind, old(Abstract()), op).1
      ensures r.err != Some(Panic) ==> Valid() && Abstract() == Step(source.data, kind, old(Abstract()), op).0
      ensures Orderly(kind, old(Abstract()), op.room) ==> RightAnswer(source.data, kind, old(Abstract()), op, r)
    {
      if Orderly(kind, Abstract(), op.room) { OrderlyAnswer(source.data, kind, Abstract(), op); }
      if op.room >= BypassFrom(kind) {
        var direct := new Byte[op.got];
        source.Fill(direct, op.got);
        assert direct[..op.got] == direct[..];
        r := Outcome(direct[..], Reported(op.status));
      } else {
        r := ReadBuffered(op);
      }
    }
  }

  // ---------------------------------------------------------------- in-order delivery

  /** A read that does not overtake or lose buffered bytes: the buffer is drained, or it is used as it is. */
  predicate Orderly(k: Kind, s: State, room: nat) {
    Drained(s) || (room < BypassFrom(k) && BufferFor(k, s.size, room) == s.size)
  }

  /** A reader with everything it has handed out, and whether it has reported end of file. */
  datatype Traced = Traced(s: State, out: Bytes, ended: bool)

  ghost function NextOrderly(data: Bytes, k: Kind): (Traced, Op) -> Option<Traced> {
    (t: Traced, op: Op) =>
      if !Orderly(k, t.s, op.room) || !Honest(data, k, t.s, op) then None
      else
        var (s, r) := Step(data, k, t.s, op);
        Some(Traced(s, t.out + r.bytes, t.ended || r.err == Some(EndOfFile)))
  }

  /** Handed out and still buffered, together, are what was taken from the source. */
  ghost predicate Consistent(data: Bytes, s: State, out: Bytes) {
    && s.taken <= |data| && out + Pending(s) == data[..s.taken]
    && (Drained(s) || |s.window| <= s.size)
    && (s.sticky == Some(EndOfFile) ==> s.taken == |data|) && s.sticky != Some(Panic)
  }

  ghost predicate InOrder(data: Bytes, t: Traced) { Consistent(data, t.s, t.out) && (t.ended ==> t.out == data) }

  lemma ServeKeeps(data: Bytes, s: State, out: Bytes, room: nat)
    requires Consistent(data, s, out) && s.pos <= |s.window| <= s.size
    ensures var (t, r) := Serve(s, room); r.err.None? && Consistent(data, t, out + r.bytes)
  {
    var n := Shorter(room, |s.window| - s.pos);
    assert s.window[s.pos..s.pos + n] + s.window[s.pos + n..] == s.window[s.pos..];
    assert out + s.window[s.pos..] == (out + s.window[s.pos..s.pos + n]) + s.window[s.pos + n..];
  }

  lemma TakeMore(data: Bytes, s: State, out: Bytes, got: nat)
    requires Consistent(data, s, out) && Drained(s) && s.taken + got <= |data|
    ensures out + data[s.taken..s.taken + got] == data[..s.taken + got]
  {
    assert Pending(s) == [] && out + [] == out;
    assert data[..s.taken] + data[s.taken..s.taken + got] == data[..s.taken + got];
  }

  /** A drained buffer may be replaced. */
  lemma PreparedDrained(data: Bytes, k: Kind, s: State, out: Bytes, room: nat)
    requires Consistent(data, s, out) && Drained(s)
    ensures var s1 := Prepared(k, s, room);
            Drained(s1) && Consistent(data, s1, out) && s1.taken == s.taken && s1.size == BufferFor(k, s.size, room)
  {
    assert Pending(s) == [] && Pending(Prepared(k, s, room)) == [];
  }

  /** A refill of a drained buffer puts the next bytes of the source into it. */
  lemma RefillKeeps(data: Bytes, k: Kind, s: State, out: Bytes, op: Op)
    requires Consistent(data, s, out) && Drained(s) && s.taken + op.got <= |data| && op.got <= s.size
    requires op.status.AtEnd? ==> s.taken + op.got == |data|
    ensures Consistent(data, Refilled(data, k, s, op), out)
    ensures op.got == 0 && op.status.AtEnd? ==> out == data
  {
    TakeMore(data, s, out, op.got);
    assert Pending(Refilled(data, k, s, op)) == data[s.taken..s.taken + op.got];
    if op.got == 0 && op.status.AtEnd? {
      assert out + [] == out && data[..|data|] == data;
    }
  }

  lemma BypassKeeps(data: Bytes, s: State, out: Bytes, got: nat)
    requires Consistent(data, s, out) && Drained(s) && s.taken + got <= |data|
    ensures Consistent(data, s.(taken := s.taken + got), out + data[s.taken..s.taken + got])
    ensures s.taken + got == |data| ==> out + data[s.taken..s.taken + got] == data
  {
    TakeMore(data, s, out, got);
    var t := s.(taken := s.taken + got);
    assert Pending(t) == [];
    assert out + data[s.taken..t.taken] + [] == out + data[s.taken..t.taken];
    assert data[..|data|] == data;
  }

  /**
   * A read that keeps the order: it does not panic, loses and overtakes nothing, and says end of file only at the end.
   */
  ghost predicate KeepsOrder(data: Bytes, k: Kind, s: State, out: Bytes, op: Op)
    requires Honest(data, k, s, op)
  {
    var (t, r) := Step(data, k, s, op);
    r.err != Some(Panic) && Consistent(data, t, out + r.bytes) && (r.err == Some(EndOfFile) ==> out + r.bytes == data)
  }

  /** Refilling a drained buffer and serving from it. */
  lemma DrainedStep(data: Bytes, k: Kind, s: State, out: Bytes, op: Op)
    requires Consistent(data, s, out) && Honest(data, k, s, op) && Drained(s) && op.room < BypassFrom(k)
    requires !(k.Upload? && s.sticky.Some?)
    ensures KeepsOrder(data, k, s, out, op)
  {
    var s1 := Prepared(k, s, op.room);
    PreparedDrained(data, k, s, out, op.room);
    RefillKeeps(data, k, s1, out, op);
    if op.got > 0 { ServeKeeps(data, Refilled(data, k, s1, op), out, op.room); } else { assert out + [] == out; }
  }

  /** A sticky error is reported once the buffer is drained. */
  lemma StickyStep(data: Bytes, k: Kind, s: State, out: Bytes, op: Op)
    requires Consistent(data, s, out) && Honest(data, k, s, op) && Drained(s) && op.room < BypassFrom(k)
    requires k.Upload? && s.sticky.Some?
    ensures KeepsOrder(data, k, s, out, op)
  {
    PreparedDrained(data, k, s, out, op.room);
    TakeMore(data, s, out, 0);
    assert data[..|data|] == data && out + [] == out;
  }

  /** An orderly read keeps the order, and end of file means everything. */
  lemma OrderlyStep(data: Bytes, k: Kind, s: State, out: Bytes, op: Op)
    requires Consistent(data, s, out) && Honest(data, k, s, op) && Orderly(k, s, op.room)
    ensures KeepsOrder(data, k, s, out, op)
  {
    if op.room >= BypassFrom(k) {
      BypassKeeps(data, s, out, op.got);
    } else if !Drained(s) {
      ServeKeeps(data, s, out, op.room);
    } else if k.Upload? && s.sticky.Some? {
      StickyStep(data, k, s, out, op);
    } else {
      DrainedStep(data, k, s, out, op);
    }
  }

  /**
   * Delivery: whatever the read sizes and however short the wrapped reader's answers, as long as every read is
   * orderly the reader has handed out a prefix of the source, and all of it once it has said end of file.
   */
  lemma DeliversInOrder(data: Bytes, k: Kind, ops: seq<Op>, t: Traced)
    requires Reaches(NextOrderly(data, k), Traced(State(0, [], 0, None, 0), [], false), ops, t)
    ensures t.out <= data && (t.ended ==> t.out == data)
  {
    var next, inv := NextOrderly(data, k), (u: Traced) => InOrder(data, u);
    forall u, op | inv(u) && next(u, op).Some? ensures inv(next(u, op).value) {
      OrderlyStep(data, k, u.s, u.out, op);
      if u.ended { FullIsFull(data, next(u, op).value, u.out); }
    }
    RunKeeps(next, inv, Traced(State(0, [], 0, None, 0), [], false), ops, t);
    assert t.out <= t.out + Pending(t.s);
  }

  lemma FullIsFull(data: Bytes, t: Traced, before: Bytes)
    requires Consistent(data, t.s, t.out) && before == data && before <= t.out
    ensures t.out == data
  {
    assert |t.out| <= |data[..t.s.taken]|;
  }

  // ---------------------------------------------------------------- every read makes progress

  /** Orderly reads of at least a byte; the wrapped reader, when asked, gives something or says end-of-file. */
  ghost function NextEager(data: Bytes, k: Kind): (Traced, Op) -> Option<Traced> {
    (t: Traced, op: Op) =>
      if op.room == 0 || op.status.Fault? || (op.got == 0 && op.status.Fine? && Asks(k, t.s, op.room) > 0) then None
      else NextOrderly(data, k)(t, op)
  }

  /** Such a read hands out at least a byte, or says end-of-file. */
  lemma EagerAnswer(data: Bytes, k: Kind, s: State, op: Op)
    requires Honest(data, k, s, op) && Orderly(k, s, op.room) && (Drained(s) || |s.window| <= s.size)
    requires s.sticky != Some(Failed) && s.sticky != Some(Panic) && op.room > 0 && !op.status.Fault?
    requires op.got > 0 || op.status.AtEnd? || Asks(k, s, op.room) == 0
    ensures var (t, r) := Step(data, k, s, op);
            t.sticky != Some(Failed) && (r.err == Some(EndOfFile) || |r.bytes| > 0)
  {
    OrderlyAnswer(data, k, s, op);
    var r := Step(data, k, s, op).1;
    if op.room >= BypassFrom(k) {
      assert |r.bytes| == op.got;
    } else if !Drained(s) {
      assert |r.bytes| > 0;
    } else if k.Upload? && s.sticky.Some? {
      assert s.sticky.value.EndOfFile?;
    } else {
      assert Asks(k, s, op.room) > 0;
      assert op.got > 0 ==> |r.bytes| > 0;
      assert op.got == 0 ==> r.err == Some(EndOfFile);
    }
  }

  lemma EagerStep(data: Bytes, k: Kind, t: Traced, op: Op)
    requires InOrder(data, t) && t.s.sticky != Some(Failed) && NextEager(data, k)(t, op).Some?
    ensures var u := NextEager(data, k)(t, op).value;
            InOrder(data, u) && u.s.sticky != Some(Failed)
            && if t.ended then u.ended else u.ended || |u.out| > |t.out|
  {
    assert NextEager(data, k)(t, op) == NextOrderly(data, k)(t, op);
    assert Orderly(k, t.s, op.room) && Honest(data, k, t.s, op);
    OrderlyStep(data, k, t.s, t.out, op);
    EagerAnswer(data, k, t.s, op);
    if t.ended { FullIsFull(data, NextEager(data, k)(t, op).value, t.out); }
  }

  /**
   * Progress: when the wrapped reader always gives something, reading once more than the source has bytes ends it - the
   * whole source has been handed out and end-of-file said.
   */
  lemma EagerReadsFinish(data: Bytes, k: Kind, ops: seq<Op>, t: Traced)
    requires Reaches(NextEager(data, k), Traced(State(0, [], 0, None, 0), [], false), ops, t) && |ops| > |data|
    ensures t.ended && t.out == data
  {
    EagerCounts(data, k, ops, t);
    assert t.out <= t.out + Pending(t.s);
  }

  lemma {:induction false} EagerCounts(data: Bytes, k: Kind, ops: seq<Op>, t: Traced)
    requires Reaches(NextEager(data, k), Traced(State(0, [], 0, None, 0), [], false), ops, t)
    ensures InOrder(data, t) && t.s.sticky != Some(Failed) && (t.ended || |t.out| >= |ops|)
  {
    if ops != [] {
      var front := ops[..|ops| - 1];
      var before := Run(NextEager(data, k), Traced(State(0, [], 0, None, 0), [], false), front).value;
      EagerCounts(data, k, front, before);
      EagerStep(data, k, before, ops[|ops| - 1]);
    }
  }

  // ---------------------------------------------------------------- which reads keep the order

  /** `s` has the shape of `shape`: the same fields but for the bytes themselves. */
  predicate Shaped(s: State, shape: State) {
    s.size == shape.size && |s.window| == |shape.window| && s.pos == shape.pos && s.sticky == shape.sticky
  }

  /** Whatever the source, a read of `room` bytes in a state of this shape keeps the order. */
  ghost predicate SafeRead(k: Kind, shape: State, room: nat) {
    forall data, s, out, op: Op ::
      Consistent(data, s, out) && Shaped(s, shape) && op.room == room && Honest(data, k, s, op) ==>
          KeepsOrder(data, k, s, out, op)
  }

  lemma OrderlyIsSafe(k: Kind, shape: State, room: nat)
    requires Orderly(k, shape, room)
    ensures SafeRead(k, shape, room)
  {
    forall data, s, out, op: Op |
      Consistent(data, s, out) && Shaped(s, shape) && op.room == room && Honest(data, k, s, op)
      ensures KeepsOrder(data, k, s, out, op)
    {
      OrderlyStep(data, k, s, out, op);
    }
  }

  /** A reader that has taken the whole source and still holds all of it, as ones. */
  function Loaded(shape: State): State { shape.(window := Ones(|shape.window|), taken := |Pending(shape)|) }

  lemma LoadedConsistent(shape: State)
    requires |shape.window| <= shape.size && shape.sticky != Some(Panic)
    ensures Consistent(Ones(|Pending(shape)|), Loaded(shape), []) && Shaped(Loaded(shape), shape)
  {
    var w := |Pending(shape)|;
    assert [] + Pending(Loaded(shape)) == Ones(w) == Ones(w)[..w];
  }

  /** A bypassing read asks the wrapped reader first, and may report its end of file with bytes still buffered. */
  lemma BypassOvertakes(k: Kind, shape: State, room: nat)
    requires !Drained(shape) && room >= BypassFrom(k) && |shape.window| <= shape.size && shape.sticky != Some(Panic)
    ensures !SafeRead(k, shape, room)
  {
    var data, s, op := Ones(|Pending(shape)|), Loaded(shape), Op(room, 0, AtEnd);
    LoadedConsistent(shape);
    assert Honest(data, k, s, op);
    assert Step(data, k, s, op).1 == Outcome([], Some(EndOfFile));
    assert !KeepsOrder(data, k, s, [], op);
  }

  /** A new buffer loses what the old one held. */
  lemma NewBufferLoses(k: Kind, shape: State, room: nat)
    requires !Drained(shape) && room < BypassFrom(k) && BufferFor(k, shape.size, room) != shape.size
    requires |shape.window| <= shape.size && shape.sticky != Some(Panic)
    ensures !SafeRead(k, shape, room)
  {
    var data, s, op := Ones(|Pending(shape)|), Loaded(shape), Op(room, 0, Fine);
    LoadedConsistent(shape);
    assert Honest(data, k, s, op);
    NewBufferBreaks(data, k, s, op);
    assert !KeepsOrder(data, k, s, [], op);
  }

  lemma NewBufferBreaks(data: Bytes, k: Kind, s: State, op: Op)
    requires Honest(data, k, s, op) && op.room < BypassFrom(k) && BufferFor(k, s.size, op.room) != s.size
    requires !Drained(s) && s.taken == |data| && data != [] && data[0] == 1
    ensures !KeepsOrder(data, k, s, [], op)
  {
    var s1 := Prepared(k, s, op.room);
    var (t, r) := Step(data, k, s, op);
    assert s1.window == Zeros(|s.window|) && s1.taken == s.taken;
    if r.err != Some(Panic) {
      assert [] + r.bytes + Pending(t) == s1.window[s1.pos..];
      assert s1.window[s1.pos..][0] == 0;
      assert data[..t.taken] == data;
    }
  }

  /**
   * The exact condition for one read, of any length and after any error: it keeps the order whatever the source if and
   * only if the buffer is drained, or used as it is.
   */
  lemma SafeReadExactly(k: Kind, shape: State, room: nat)
    requires |shape.window| <= shape.size && shape.sticky != Some(Panic)
    ensures SafeRead(k, shape, room) <==> Orderly(k, shape, room)
  {
    if Orderly(k, shape, room) {
      OrderlyIsSafe(k, shape, room);
    } else if room >= BypassFrom(k) {
      BypassOvertakes(k, shape, room);
    } else {
      NewBufferLoses(k, shape, room);
    }
  }
}
