// The worker pool of internal/storage/stream.go (ParallelWriter): any number of concurrent
// Write calls, any number of workers, two bounded channels, every interleaving.
//
// A state is what the goroutines share plus the program counter of each of them, and a
// schedule is a sequence of steps.  The logs (`ran`, `spoiled`, `abandoned`, `faults`, `taken`,
// `dropped`) record what happened and steer nothing.
module ParallelWriter {
  import opened Core
  import opened Runs

  type Error = int

  /** What one Write reserved: its bytes and the offset it was given. */
  datatype Request = Request(data: Bytes, offset: nat)

  /** Program counter of one Write call of `data`.  `slot` names the reservation it made, if it made one. */
  datatype Call =
    | Entered(data: Bytes)
    | Checked(data: Bytes)
    | Reserved(data: Bytes, slot: nat)
    | Returned(data: Bytes, reserved: Option<nat>, count: nat, err: Option<Error>)

  /** Program counter of one worker goroutine. */
  datatype Worker = Idle | Running(slot: nat) | Reporting(err: Error) | Exited

  /** Program counter of Close. */
  datatype Closing = NotClosed | Waiting | Closed(result: Option<Error>)

  datatype State = State(
    parallelism: nat,
    offset: nat,
    requests: seq<Request>,    // every reservation, in reservation order
    calls: seq<Call>,
    queue: seq<nat>,           // writeChan, capacity 2 * parallelism
    errs: seq<Error>,          // errChan, capacity parallelism
    workers: seq<Worker>,
    closing: Closing,
    cancelled: bool,           // ctx.Done()
    panicked: bool,            // send on a closed channel
    target: map<nat, Byte>,    // what writeFunc has stored so far
    ran: seq<nat>,             // slots whose writeFunc succeeded
    spoiled: seq<nat>,         // slots whose writeFunc failed
    abandoned: seq<nat>,       // slots whose Write gave up before sending
    faults: seq<Error>,        // every error any writeFunc returned
    taken: seq<Error>,         // errors received from errChan by a Write or by Close
    dropped: seq<Error>)       // errors dropped because errChan was full

  const CTX_ERR: Error := -1

  function Init(parallelism: nat): State {
    State(parallelism, 0, [], [], [], [], seq(parallelism, _ => Idle), NotClosed, false, false,
          map[], [], [], [], [], [], [])
  }

  datatype Step =
    | Begin(data: Bytes)
    | Check(c: nat)
    | Reserve(c: nat)
    | Send(c: nat)
    | SendOnClosed(c: nat)
    | GiveUpCancelled(c: nat)
    | GiveUpError(c: nat)
    | Take(w: nat)
    | RunOk(w: nat)
    | RunFail(w: nat, err: Error, partial: nat)
    | Report(w: nat)
    | Exit(w: nat)
    | Cancel
    | CloseQueue
    | CloseReturn

  predicate Enabled(s: State, step: Step) {
    && !s.panicked
    && match step
       case Begin(_) => true
       case Check(c) => c < |s.calls| && s.calls[c].Entered?
       case Reserve(c) => c < |s.calls| && s.calls[c].Checked?
       case Send(c) => c < |s.calls| && s.calls[c].Reserved? && s.closing.NotClosed? && |s.queue| < 2 * s.parallelism
       case SendOnClosed(c) => c < |s.calls| && s.calls[c].Reserved? && !s.closing.NotClosed?
       case GiveUpCancelled(c) => c < |s.calls| && s.calls[c].Reserved? && s.cancelled
       case GiveUpError(c) => c < |s.calls| && s.calls[c].Reserved? && s.errs != []
       case Take(w) => w < |s.workers| && s.workers[w].Idle? && s.queue != []
       case RunOk(w) => w < |s.workers| && s.workers[w].Running? && s.workers[w].slot < |s.requests|
       case RunFail(w, _, partial) =>
         && w < |s.workers| && s.workers[w].Running? && s.workers[w].slot < |s.requests|
         && partial <= |s.requests[s.workers[w].slot].data|
       case Report(w) => w < |s.workers| && s.workers[w].Reporting?
       case Exit(w) => w < |s.workers| && s.workers[w].Idle? && s.queue == [] && !s.closing.NotClosed?
       case Cancel => true
       case CloseQueue => s.closing.NotClosed?
       case CloseReturn => s.closing.Waiting? && forall w :: 0 <= w < |s.workers| ==> s.workers[w].Exited?
  }

  /** The first `count` bytes of `data` stored at `offset`. */
  function StoreAt(target: map<nat, Byte>, data: Bytes, offset: nat, count: nat): (t: map<nat, Byte>)
    requires count <= |data|
    ensures forall p :: p in t <==> p in target || offset <= p < offset + count
    ensures forall p :: p in t ==> t[p] == if offset <= p < offset + count then data[p - offset] else target[p]
  {
    if count == 0 then target
    else StoreAt(target, data, offset, count - 1)[offset + count - 1 := data[count - 1]]
  }

  function Apply(s: State, step: Step): State
    requires Enabled(s, step)
  {
    match step
    case Begin(data) => s.(calls := s.calls + [Entered(data)])
    case Check(c) =>
      var data := s.calls[c].data;
      if s.errs != [] then
        s.(calls := s.calls[c := Returned(data, None, 0, Some(s.errs[0]))], errs := s.errs[1..],
           taken := s.taken + [s.errs[0]])
      else
        s.(calls := s.calls[c := Checked(data)])
    case Reserve(c) =>
      var data := s.calls[c].data;
      s.(calls := s.calls[c := Reserved(data, |s.requests|)],
         requests := s.requests + [Request(data, s.offset)],
         offset := s.offset + |data|)
    case Send(c) =>
      var Reserved(data, slot) := s.calls[c];
      s.(calls := s.calls[c := Returned(data, Some(slot), |data|, None)], queue := s.queue + [slot])
    case SendOnClosed(c) => s.(panicked := true)
    case GiveUpCancelled(c) =>
      var Reserved(data, slot) := s.calls[c];
      s.(calls := s.calls[c := Returned(data, Some(slot), 0, Some(CTX_ERR))], abandoned := s.abandoned + [slot])
    case GiveUpError(c) =>
      var Reserved(data, slot) := s.calls[c];
      s.(calls := s.calls[c := Returned(data, Some(slot), 0, Some(s.errs[0]))], abandoned := s.abandoned + [slot],
         errs := s.errs[1..], taken := s.taken + [s.errs[0]])
    case Take(w) => s.(workers := s.workers[w := Running(s.queue[0])], queue := s.queue[1..])
    case RunOk(w) =>
      var slot := s.workers[w].slot;
      var r := s.requests[slot];
      s.(workers := s.workers[w := Idle], target := StoreAt(s.target, r.data, r.offset, |r.data|),
          ran := s.ran + [slot])
    case RunFail(w, err, partial) =>
      var slot := s.workers[w].slot;
      var r := s.requests[slot];
      s.(workers := s.workers[w := Reporting(err)], target := StoreAt(s.target, r.data, r.offset, partial),
         spoiled := s.spoiled + [slot], faults := s.faults + [err])
    case Report(w) =>
      var err := s.workers[w].err;
      if |s.errs| < s.parallelism then s.(workers := s.workers[w := Idle], errs := s.errs + [err])
      else s.(workers := s.workers[w := Idle], dropped := s.dropped + [err])
    case Exit(w) => s.(workers := s.workers[w := Exited])
    case Cancel => s.(cancelled := true)
    case CloseQueue => s.(closing := Waiting)
    case CloseReturn =>
      if s.errs != [] then s.(closing := Closed(Some(s.errs[0])), errs := s.errs[1..], taken := s.taken + [s.errs[0]])
      else s.(closing := Closed(None))
  }

  ghost function Next(s: State, step: Step): Option<State> {
    if Enabled(s, step) then Some(Apply(s, step)) else None
  }

  /** The schedule `steps` is executable on a fresh pool of `parallelism` workers and ends in `t`. */
  ghost predicate Schedule(parallelism: nat, steps: seq<Step>, t: State) {
    Reaches(Next, Init(parallelism), steps, t)
  }

  // ---------------------------------------------------------------- reserved ranges

  function Datas(requests: seq<Request>): seq<Bytes> {
    seq(|requests|, i requires 0 <= i < |requests| => requests[i].data)
  }

  /** The writes glued together in reservation order. */
  function Flat(requests: seq<Request>): Bytes { Concat(Datas(requests)) }

  /** Reservation `i` starts where the reservations before it end. */
  ghost predicate Tiles(requests: seq<Request>, total: nat) {
    && total == |Flat(requests)|
    && forall i :: 0 <= i < |requests| ==> requests[i].offset == |Flat(requests[..i])|
  }

  lemma FlatSnoc(requests: seq<Request>, r: Request)
    ensures Flat(requests + [r]) == Flat(requests) + r.data
  {
    assert Datas(requests + [r]) == Datas(requests) + [r.data];
    ConcatSnoc(Datas(requests), r.data);
  }

  lemma TilesSnoc(requests: seq<Request>, total: nat, data: Bytes)
    requires Tiles(requests, total)
    ensures Tiles(requests + [Request(data, total)], total + |data|)
  {
    var all := requests + [Request(data, total)];
    FlatSnoc(requests, Request(data, total));
    forall i | 0 <= i < |all| ensures all[i].offset == |Flat(all[..i])| {
      assert all[..i] == requests[..i];
      if i == |requests| { assert requests[..i] == requests; }
    }
  }

  /** The first reservations tile what they cover. */
  lemma TilesFront(requests: seq<Request>, total: nat, k: nat)
    requires Tiles(requests, total) && k <= |requests|
    ensures Tiles(requests[..k], |Flat(requests[..k])|)
  {
    forall i | 0 <= i < k ensures requests[..k][i].offset == |Flat(requests[..k][..i])| {
      assert requests[..k][..i] == requests[..i];
    }
  }

  /** The concatenation, cut at reservation `i`. */
  lemma FlatCut(requests: seq<Request>, i: nat)
    requires i < |requests|
    ensures Flat(requests) == Flat(requests[..i]) + requests[i].data + Flat(requests[i + 1..])
  {
    var front, back := requests[..i], requests[i + 1..];
    FlatSnoc(front, requests[i]);
    assert Datas(requests) == Datas(front + [requests[i]]) + Datas(back);
    ConcatAppend(Datas(front + [requests[i]]), Datas(back));
  }

  /** Every reserved range carries exactly its own bytes of the concatenation. */
  lemma RangeInFlat(requests: seq<Request>, total: nat, i: nat)
    requires Tiles(requests, total) && i < |requests|
    ensures requests[i].offset + |requests[i].data| <= total
    ensures Flat(requests)[requests[i].offset..requests[i].offset + |requests[i].data|] == requests[i].data
  {
    FlatCut(requests, i);
  }

  /** The reserved ranges leave no gap: every position below the total is in one of them. */
  lemma {:induction false} RangesCover(requests: seq<Request>, total: nat, pos: nat) returns (i: nat)
    requires Tiles(requests, total) && pos < total
    ensures i < |requests| && requests[i].offset <= pos < requests[i].offset + |requests[i].data|
  {
    var n := |requests| - 1;
    assert requests == requests[..n] + [requests[n]];
    FlatSnoc(requests[..n], requests[n]);
    if pos < |Flat(requests[..n])| {
      TilesFront(requests, total, n);
      i := RangesCover(requests[..n], |Flat(requests[..n])|, pos);
    } else {
      i := n;
    }
  }

  /** ... and never overlap. */
  lemma RangesDisjoint(requests: seq<Request>, total: nat, i: nat, j: nat)
    requires Tiles(requests, total) && i < j < |requests|
    ensures requests[i].offset + |requests[i].data| <= requests[j].offset
  {
    TilesFront(requests, total, j);
    RangeInFlat(requests[..j], |Flat(requests[..j])|, i);
  }

  // ---------------------------------------------------------------- who holds what

  /** How many elements satisfy `p`. */
  ghost function Count<T>(s: seq<T>, p: T -> bool): nat {
    if s == [] then 0 else Count(s[..|s| - 1], p) + if p(s[|s| - 1]) then 1 else 0
  }

  lemma CountSnoc<T>(s: seq<T>, x: T, p: T -> bool)
    ensures Count(s + [x], p) == Count(s, p) + if p(x) then 1 else 0
  {
    assert (s + [x])[..|s|] == s;
  }

  lemma {:induction false} CountTail<T>(s: seq<T>, p: T -> bool)
    requires s != []
    ensures Count(s, p) == Count(s[1..], p) + if p(s[0]) then 1 else 0
  {
    var n := |s| - 1;
    if n > 0 {
      CountTail(s[..n], p);
      assert s[1..] == s[..n][1..] + [s[n]];
      CountSnoc(s[..n][1..], s[n], p);
    }
  }

  lemma {:induction false} CountUpdate<T>(s: seq<T>, i: nat, x: T, p: T -> bool)
    requires i < |s|
    ensures Count(s[i := x], p) + (if p(s[i]) then 1 else 0) == Count(s, p) + if p(x) then 1 else 0
  {
    var n := |s| - 1;
    if i == n {
      assert s[i := x][..n] == s[..n];
    } else {
      assert s[i := x][..n] == s[..n][i := x];
      CountUpdate(s[..n], i, x, p);
    }
  }

  lemma {:induction false} CountZero<T>(s: seq<T>, p: T -> bool)
    ensures Count(s, p) == 0 <==> forall i :: 0 <= i < |s| ==> !p(s[i])
  {
    if s != [] {
      CountZero(s[..|s| - 1], p);
      assert forall i :: 0 <= i < |s| - 1 ==> s[..|s| - 1][i] == s[i];
    }
  }

  ghost function Is(x: int): int -> bool { y => y == x }

  ghost function CallHolds(slot: nat): Call -> bool { (c: Call) => c.Reserved? && c.slot == slot }

  ghost function WorkerHolds(slot: nat): Worker -> bool { (w: Worker) => w == Running(slot) }

  ghost function WorkerReports(e: Error): Worker -> bool { (w: Worker) => w == Reporting(e) }

  /** In how many places a reservation is: waiting Writes, the queue, workers, or one of the logs. */
  ghost function Holders(s: State, slot: nat): nat {
    Count(s.calls, CallHolds(slot)) + Count(s.queue, Is(slot)) + Count(s.workers, WorkerHolds(slot))
    + Count(s.ran, Is(slot)) + Count(s.spoiled, Is(slot)) + Count(s.abandoned, Is(slot))
  }

  /** How many copies of an error exist: taken by a caller, in errChan, about to be sent, or dropped. */
  ghost function Copies(s: State, e: Error): nat {
    Count(s.taken, Is(e)) + Count(s.errs, Is(e)) + Count(s.workers, WorkerReports(e)) + Count(s.dropped, Is(e))
  }

  // ---------------------------------------------------------------- the invariant

  /** Every stored byte is the right one for its position. */
  ghost predicate BytesRight(requests: seq<Request>, target: map<nat, Byte>) {
    forall p :: p in target ==> p < |Flat(requests)| && target[p] == Flat(requests)[p]
  }

  /** The range of every request that ran is stored. */
  ghost predicate RangesStored(requests: seq<Request>, ran: seq<nat>, target: map<nat, Byte>) {
    forall k :: 0 <= k < |ran| && ran[k] < |requests| ==> RangeStored(requests[ran[k]], target)
  }

  ghost predicate RangeStored(r: Request, target: map<nat, Byte>) {
    forall p: nat :: r.offset <= p < r.offset + |r.data| ==> p in target
  }

  ghost predicate TargetOk(s: State) { BytesRight(s.requests, s.target) && RangesStored(s.requests, s.ran, s.target) }

  ghost predicate SomeCallFailed(s: State) {
    exists c :: 0 <= c < |s.calls| && s.calls[c].Returned? && s.calls[c].err.Some?
  }

  ghost predicate CloseFailed(s: State) { s.closing.Closed? && s.closing.result.Some? }

  /** Every reservation is in exactly one place, and nothing else is anywhere. */
  ghost predicate SlotsOk(s: State) {
    forall slot: nat :: Holders(s, slot) == if slot < |s.requests| then 1 else 0
  }

  /** Every error a writeFunc returned is in exactly one place. */
  ghost predicate ErrsOk(s: State) { forall e :: Copies(s, e) == Count(s.faults, Is(e)) }

  /** An error that was dropped or taken has left a trace that the caller will see. */
  ghost predicate TracesOk(s: State) {
    && (s.dropped != [] ==> s.taken != [] || s.errs != [])
    && (s.taken != [] ==> SomeCallFailed(s) || CloseFailed(s))
    && (s.abandoned != [] ==> SomeCallFailed(s))
    && |s.spoiled| == |s.faults|
  }

  ghost predicate PoolOk(s: State) {
    && |s.workers| == s.parallelism
    && |s.queue| <= 2 * s.parallelism
    && (forall w :: 0 <= w < |s.workers| && s.workers[w].Exited? ==> !s.closing.NotClosed? && s.queue == [])
    && (s.closing.Closed? ==> forall w :: 0 <= w < |s.workers| ==> s.workers[w].Exited?)
    && (s.closing == Closed(None) ==> s.errs == [])
  }

  /** The reservation a Write has made. */
  function SlotOf(c: Call): Option<nat> {
    match c
    case Reserved(_, slot) => Some(slot)
    case Returned(_, reserved, _, _) => reserved
    case _ => None
  }

  /**
   * What a Write reserved is what it was given. One that answered success counted all its bytes and handed its
   * reservation on; one that failed counted none, and its error was taken from errChan or is the cancelled context's.
   */
  ghost predicate CallOk(s: State, c: Call) {
    && (SlotOf(c).Some? ==> SlotOf(c).value < |s.requests| && s.requests[SlotOf(c).value].data == c.data)
    && (c.Reserved? ==> c.slot !in s.abandoned)
    && (c.Returned? && c.err.None? ==>
          c.count == |c.data| && c.reserved.Some? && c.reserved.value !in s.abandoned)
    && (c.Returned? && c.err.Some? ==>
          c.count == 0 && (c.err.value in s.taken || (c.err.value == CTX_ERR && s.cancelled)))
  }

  ghost predicate EachOk(s: State) {
    && (forall c :: 0 <= c < |s.calls| ==> CallOk(s, s.calls[c]))
    && (forall slot :: slot in s.abandoned ==> slot < |s.requests|)
  }

  /** No two Writes share a reservation. */
  ghost predicate SlotsDistinct(s: State) {
    forall i, j :: 0 <= i < j < |s.calls| && SlotOf(s.calls[i]).Some? ==> SlotOf(s.calls[i]) != SlotOf(s.calls[j])
  }

  /** Some Write made the reservation. */
  ghost predicate Owned(s: State, slot: nat) {
    exists c :: 0 <= c < |s.calls| && SlotOf(s.calls[c]) == Some(slot)
  }

  ghost predicate CallsOk(s: State) {
    && EachOk(s) && SlotsDistinct(s)
    && (forall slot: nat :: slot < |s.requests| ==> Owned(s, slot))
    && (CloseFailed(s) ==> s.closing.result.value in s.taken)
  }

  ghost predicate Inv(s: State) {
    && Tiles(s.requests, s.offset)
    && CallsOk(s)
    && SlotsOk(s)
    && ErrsOk(s)
    && TracesOk(s)
    && PoolOk(s)
    && TargetOk(s)
  }

  lemma InitInv(parallelism: nat)
    ensures Inv(Init(parallelism))
  {
    var s := Init(parallelism);
    forall slot: nat ensures Holders(s, slot) == 0 { CountZero(s.workers, WorkerHolds(slot)); }
    forall e ensures Copies(s, e) == 0 { CountZero(s.workers, WorkerReports(e)); }
  }

  /** No step loses or duplicates a reservation: only Reserve adds one, its own. */
  lemma SlotConserved(s: State, step: Step, slot: nat)
    requires Enabled(s, step)
    ensures Holders(Apply(s, step), slot) == Holders(s, slot) + if step.Reserve? && slot == |s.requests| then 1 else 0
  {
    match step
    case Begin(data) => CountSnoc(s.calls, Entered(data), CallHolds(slot));
    case Check(c) => CountUpdate(s.calls, c, Apply(s, step).calls[c], CallHolds(slot));
    case Reserve(c) => CountUpdate(s.calls, c, Apply(s, step).calls[c], CallHolds(slot));
    case Send(c) => CallLetsGo(s, step, slot);
    case GiveUpCancelled(c) => CallLetsGo(s, step, slot);
    case GiveUpError(c) => CallLetsGo(s, step, slot);
    case Take(w) =>
      CountUpdate(s.workers, w, Running(s.queue[0]), WorkerHolds(slot));
      CountTail(s.queue, Is(slot));
    case RunOk(w) => WorkerLetsGo(s, step, slot);
    case RunFail(w, err, partial) => WorkerLetsGo(s, step, slot);
    case Report(w) => CountUpdate(s.workers, w, Idle, WorkerHolds(slot));
    case Exit(w) => CountUpdate(s.workers, w, Exited, WorkerHolds(slot));
    case _ =>
  }

  lemma CallLetsGo(s: State, step: Step, slot: nat)
    requires Enabled(s, step) && (step.Send? || step.GiveUpCancelled? || step.GiveUpError?)
    ensures Holders(Apply(s, step), slot) == Holders(s, slot)
  {
    CountUpdate(s.calls, step.c, Apply(s, step).calls[step.c], CallHolds(slot));
    CountSnoc(s.queue, s.calls[step.c].slot, Is(slot));
    CountSnoc(s.abandoned, s.calls[step.c].slot, Is(slot));
  }

  lemma WorkerLetsGo(s: State, step: Step, slot: nat)
    requires Enabled(s, step) && (step.RunOk? || step.RunFail?)
    ensures Holders(Apply(s, step), slot) == Holders(s, slot)
  {
    CountUpdate(s.workers, step.w, Apply(s, step).workers[step.w], WorkerHolds(slot));
    CountSnoc(s.ran, s.workers[step.w].slot, Is(slot));
    CountSnoc(s.spoiled, s.workers[step.w].slot, Is(slot));
  }

  /** How many errors with this number are where, compared with how many were returned. */
  ghost function Balance(s: State, e: Error): int { Copies(s, e) - Count(s.faults, Is(e)) }

  /** No step loses or invents an error: only RunFail adds one, the one writeFunc returned. */
  lemma ErrConserved(s: State, step: Step, e: Error)
    requires Enabled(s, step)
    ensures Balance(Apply(s, step), e) == Balance(s, e)
  {
    match step
    case Check(c) => ErrReceived(s, step, e);
    case GiveUpError(c) => ErrReceived(s, step, e);
    case CloseReturn => ErrReceived(s, step, e);
    case Take(w) => CountUpdate(s.workers, w, Running(s.queue[0]), WorkerReports(e));
    case RunOk(w) => CountUpdate(s.workers, w, Idle, WorkerReports(e));
    case RunFail(w, err, partial) => ErrReturned(s, w, err, partial, e);
    case Report(w) => ErrReported(s, w, e);
    case Exit(w) => CountUpdate(s.workers, w, Exited, WorkerReports(e));
    case _ =>
  }

  /** A Write or Close that looks into errChan takes at most the first error out of it. */
  lemma ErrReceived(s: State, step: Step, e: Error)
    requires Enabled(s, step) && (step.Check? || step.GiveUpError? || step.CloseReturn?)
    ensures Balance(Apply(s, step), e) == Balance(s, e)
  {
    if s.errs != [] {
      CountTail(s.errs, Is(e));
      CountSnoc(s.taken, s.errs[0], Is(e));
    }
  }

  lemma ErrReturned(s: State, w: nat, err: Error, partial: nat, e: Error)
    requires Enabled(s, RunFail(w, err, partial))
    ensures Balance(Apply(s, RunFail(w, err, partial)), e) == Balance(s, e)
  {
    CountUpdate(s.workers, w, Reporting(err), WorkerReports(e));
    CountSnoc(s.faults, err, Is(e));
  }

  /** A worker's error goes into errChan, or is dropped. */
  lemma ErrReported(s: State, w: nat, e: Error)
    requires Enabled(s, Report(w))
    ensures Balance(Apply(s, Report(w)), e) == Balance(s, e)
  {
    CountUpdate(s.workers, w, Idle, WorkerReports(e));
    CountSnoc(s.errs, s.workers[w].err, Is(e));
    CountSnoc(s.dropped, s.workers[w].err, Is(e));
  }

  lemma LedgersKept(s: State, step: Step)
    requires SlotsOk(s) && ErrsOk(s) && Enabled(s, step)
    ensures SlotsOk(Apply(s, step)) && ErrsOk(Apply(s, step))
  {
    forall slot: nat
      ensures Holders(Apply(s, step), slot) == if slot < |Apply(s, step).requests| then 1 else 0
    {
      SlotConserved(s, step, slot);
    }
    forall e ensures Copies(Apply(s, step), e) == Count(Apply(s, step).faults, Is(e)) {
      ErrConserved(s, step, e);
      assert Balance(s, e) == 0;
    }
  }

  /** Whatever the schedule, stored bytes are always the right ones for their position. */
  lemma TargetKept(s: State, step: Step)
    requires Tiles(s.requests, s.offset) && SlotsOk(s) && TargetOk(s) && Enabled(s, step)
    ensures TargetOk(Apply(s, step))
  {
    match step
    case Reserve(c) => ReserveKeepsTarget(s, c);
    case RunOk(w) => RanStored(s, w);
    case RunFail(w, err, partial) => SpoiledStored(s, w, err, partial);
    case _ =>
  }

  lemma ReserveKeepsTarget(s: State, c: nat)
    requires SlotsOk(s) && TargetOk(s) && Enabled(s, Reserve(c))
    ensures TargetOk(Apply(s, Reserve(c)))
  {
    FlatSnoc(s.requests, Request(s.calls[c].data, s.offset));
    forall k | 0 <= k < |s.ran| ensures s.ran[k] < |s.requests| {
      CountZero(s.ran, Is(s.ran[k]));
      assert Holders(s, s.ran[k]) != 0;
    }
  }

  /** Storing the front of a request's bytes at its offset keeps every byte right. */
  lemma StoreKeepsRight(requests: seq<Request>, total: nat, target: map<nat, Byte>, slot: nat, count: nat)
    requires Tiles(requests, total) && BytesRight(requests, target) && slot < |requests|
             && count <= |requests[slot].data|
    ensures BytesRight(requests, StoreAt(target, requests[slot].data, requests[slot].offset, count))
  {
    var r := requests[slot];
    RangeInFlat(requests, total, slot);
    var range := Flat(requests)[r.offset..r.offset + |r.data|];
    assert forall p :: r.offset <= p < r.offset + count ==> Flat(requests)[p] == range[p - r.offset];
  }

  lemma RanStored(s: State, w: nat)
    requires Tiles(s.requests, s.offset) && TargetOk(s) && Enabled(s, RunOk(w))
    ensures TargetOk(Apply(s, RunOk(w)))
  {
    var slot := s.workers[w].slot;
    var t := Apply(s, RunOk(w));
    StoreKeepsRight(s.requests, s.offset, s.target, slot, |s.requests[slot].data|);
    forall k | 0 <= k < |t.ran| && t.ran[k] < |t.requests| ensures RangeStored(t.requests[t.ran[k]], t.target) {
      if k < |s.ran| { assert RangeStored(s.requests[s.ran[k]], s.target); }
    }
  }

  lemma SpoiledStored(s: State, w: nat, err: Error, partial: nat)
    requires Tiles(s.requests, s.offset) && TargetOk(s) && Enabled(s, RunFail(w, err, partial))
    ensures TargetOk(Apply(s, RunFail(w, err, partial)))
  {
    var slot := s.workers[w].slot;
    var t := Apply(s, RunFail(w, err, partial));
    StoreKeepsRight(s.requests, s.offset, s.target, slot, partial);
    forall k | 0 <= k < |t.ran| && t.ran[k] < |t.requests| ensures RangeStored(t.requests[t.ran[k]], t.target) {
      assert RangeStored(s.requests[s.ran[k]], s.target);
    }
  }

  /** A call that has returned an error stays as it is. */
  lemma FailedCallsStay(s: State, step: Step)
    requires SomeCallFailed(s) && Enabled(s, step)
    ensures SomeCallFailed(Apply(s, step))
  {
    var c :| 0 <= c < |s.calls| && s.calls[c].Returned? && s.calls[c].err.Some?;
    assert Apply(s, step).calls[c] == s.calls[c];
  }

  /** A step that takes an error, or gives up, makes a call or Close fail. */
  lemma TakingFails(s: State, step: Step)
    requires Enabled(s, step)
    requires (step.Check? && s.errs != []) || step.GiveUpCancelled? || step.GiveUpError?
    ensures SomeCallFailed(Apply(s, step))
  {
    assert Apply(s, step).calls[step.c].Returned? && Apply(s, step).calls[step.c].err.Some?;
  }

  /** The traces of errors stay. */
  lemma FailuresStick(s: State, step: Step)
    requires TracesOk(s) && |s.workers| == s.parallelism && Enabled(s, step)
    ensures TracesOk(Apply(s, step))
  {
    if SomeCallFailed(s) { FailedCallsStay(s, step); }
    if (step.Check? && s.errs != []) || step.GiveUpCancelled? || step.GiveUpError? { TakingFails(s, step); }
  }

  lemma PoolKept(s: State, step: Step)
    requires PoolOk(s) && Enabled(s, step)
    ensures PoolOk(Apply(s, step))
  {
  }

  lemma TilesKept(s: State, step: Step)
    requires Tiles(s.requests, s.offset) && Enabled(s, step)
    ensures Tiles(Apply(s, step).requests, Apply(s, step).offset)
  {
    if step.Reserve? { TilesSnoc(s.requests, s.offset, s.calls[step.c].data); }
  }

  lemma EachKept(s: State, step: Step)
    requires EachOk(s) && SlotsDistinct(s) && Enabled(s, step)
    ensures EachOk(Apply(s, step))
  {
    var t := Apply(s, step);
    forall c | 0 <= c < |t.calls| ensures CallOk(t, t.calls[c]) {
      if c < |s.calls| {
        assert CallOk(s, s.calls[c]);
        if !Acts(step, c) { OthersKept(s, step, c); }
      }
    }
  }

  /** A Write on whose behalf nothing happens stays all right. */
  lemma OthersKept(s: State, step: Step, c: nat)
    requires SlotsDistinct(s) && Enabled(s, step) && c < |s.calls| && CallOk(s, s.calls[c]) && !Acts(step, c)
    ensures c < |Apply(s, step).calls| && Apply(s, step).calls[c] == s.calls[c]
    ensures CallOk(Apply(s, step), s.calls[c])
  {
    var t := Apply(s, step);
    if step.GiveUpCancelled? || step.GiveUpError? {
      assert SlotOf(s.calls[step.c]) == Some(s.calls[step.c].slot);
      assert SlotOf(s.calls[c]) != SlotOf(s.calls[step.c]);
    }
  }

  /** The step is one of the Write call `c`. */
  predicate Acts(step: Step, c: nat) {
    match step
    case Check(d) => c == d
    case Reserve(d) => c == d
    case Send(d) => c == d
    case GiveUpCancelled(d) => c == d
    case GiveUpError(d) => c == d
    case _ => false
  }

  /** A reservation keeps its owner; only Reserve makes a new one. */
  lemma SlotsStay(s: State, step: Step, c: nat)
    requires Enabled(s, step) && c < |s.calls|
    ensures c < |Apply(s, step).calls|
    ensures SlotOf(Apply(s, step).calls[c]) ==
            if step == Reserve(c) then Some(|s.requests|) else SlotOf(s.calls[c])
  {
  }

  lemma OwnersKept(s: State, step: Step, slot: nat)
    requires Enabled(s, step) && slot < |Apply(s, step).requests|
    requires slot < |s.requests| ==> Owned(s, slot)
    requires step.Reserve? ==> SlotOf(s.calls[step.c]).None?
    ensures Owned(Apply(s, step), slot)
  {
    if slot < |s.requests| {
      var c :| 0 <= c < |s.calls| && SlotOf(s.calls[c]) == Some(slot);
      SlotsStay(s, step, c);
    } else {
      SlotsStay(s, step, step.c);
    }
  }

  lemma DistinctKept(s: State, step: Step)
    requires EachOk(s) && SlotsDistinct(s) && Enabled(s, step)
    ensures SlotsDistinct(Apply(s, step))
  {
    var t := Apply(s, step);
    forall i, j | 0 <= i < j < |t.calls| && SlotOf(t.calls[i]).Some? ensures SlotOf(t.calls[i]) != SlotOf(t.calls[j]) {
      if j < |s.calls| {
        SlotsStay(s, step, i);
        SlotsStay(s, step, j);
        assert CallOk(s, s.calls[i]) && CallOk(s, s.calls[j]);
      }
    }
  }

  lemma CallsKept(s: State, step: Step)
    requires CallsOk(s) && Enabled(s, step)
    ensures CallsOk(Apply(s, step))
  {
    EachKept(s, step);
    DistinctKept(s, step);
    forall slot: nat | slot < |Apply(s, step).requests| ensures Owned(Apply(s, step), slot) {
      OwnersKept(s, step, slot);
    }
  }

  lemma StepInv(s: State, step: Step)
    requires Inv(s) && Enabled(s, step)
    ensures Inv(Apply(s, step))
  {
    CallsKept(s, step);
    TilesKept(s, step);
    LedgersKept(s, step);
    FailuresStick(s, step);
    PoolKept(s, step);
    TargetKept(s, step);
  }

  lemma ReachableInv(parallelism: nat, steps: seq<Step>, t: State)
    requires Schedule(parallelism, steps, t)
    ensures Inv(t)
  {
    InitInv(parallelism);
    forall s, step | Inv(s) && Next(s, step).Some? ensures Inv(Next(s, step).value) { StepInv(s, step); }
    RunKeeps(Next, Inv, Init(parallelism), steps, t);
  }

  // ---------------------------------------------------------------- main theorems

  /** Close has returned and no Write is still in progress. */
  ghost predicate Quiescent(s: State) {
    s.closing.Closed? && forall c :: 0 <= c < |s.calls| ==> s.calls[c].Returned?
  }

  /** Nothing went wrong that a caller could see: no call reported an error. */
  ghost predicate NoErrorReported(s: State) { !SomeCallFailed(s) && !CloseFailed(s) }

  /**
   * No lost error: whatever the schedule, and although workers drop errors when errChan is full,
   * once Close has returned, a failed writeFunc has made some Write or Close report an error.
   */
  lemma NoLostError(parallelism: nat, steps: seq<Step>, t: State)
    requires Schedule(parallelism, steps, t) && t.closing.Closed? && t.faults != []
    ensures SomeCallFailed(t) || CloseFailed(t)
  {
    ReachableInv(parallelism, steps, t);
    var e := t.faults[0];
    CountZero(t.faults, Is(e));
    assert Copies(t, e) > 0;
    CountZero(t.workers, WorkerReports(e));
    assert t.taken != [] || t.errs != [] || t.dropped != [];
  }

  /**
   * No invented error: an error taken by a Write or by Close was returned by a writeFunc, and the
   * ledger balances - each fault is taken, still in errChan, about to be sent, or dropped.
   */
  lemma NoInventedError(parallelism: nat, steps: seq<Step>, t: State, e: Error)
    requires Schedule(parallelism, steps, t)
    ensures Copies(t, e) == Count(t.faults, Is(e))
    ensures e in t.taken ==> e in t.faults
  {
    ReachableInv(parallelism, steps, t);
    CountZero(t.taken, Is(e));
    CountZero(t.faults, Is(e));
  }

  /** At every moment of every schedule, what has been stored agrees with the reservation order. */
  lemma StoredBytesAreRight(parallelism: nat, steps: seq<Step>, t: State, p: nat)
    requires Schedule(parallelism, steps, t) && p in t.target
    ensures p < |Flat(t.requests)| && t.target[p] == Flat(t.requests)[p]
  {
    ReachableInv(parallelism, steps, t);
  }

  /** With no error reported, each reservation has been run exactly once when Close has returned. */
  lemma EveryRequestRanOnce(parallelism: nat, steps: seq<Step>, t: State, slot: nat)
    requires Schedule(parallelism, steps, t) && Quiescent(t) && NoErrorReported(t)
    ensures Count(t.ran, Is(slot)) == if slot < |t.requests| then 1 else 0
    ensures t.queue == [] && t.faults == []
  {
    ReachableInv(parallelism, steps, t);
    if t.faults != [] { NoLostError(parallelism, steps, t); }
    CountZero(t.calls, CallHolds(slot));
    CountZero(t.workers, WorkerHolds(slot));
    assert t.queue == [];
    assert Holders(t, slot) == Count(t.ran, Is(slot));
  }

  /**
   * Schedule independence: for every interleaving and any number of workers, if no call reported
   * an error then the reserved ranges tile [0, total) and the target is exactly the writes
   * concatenated in reservation order - nothing of the schedule is left in it.
   */
  lemma ScheduleIndependence(parallelism: nat, steps: seq<Step>, t: State)
    requires Schedule(parallelism, steps, t) && Quiescent(t) && NoErrorReported(t)
    ensures Tiles(t.requests, t.offset)
    ensures forall p: nat :: p in t.target <==> p < |Flat(t.requests)|
    ensures forall p: nat :: p in t.target ==> t.target[p] == Flat(t.requests)[p]
  {
    ReachableInv(parallelism, steps, t);
    forall p: nat | p < |Flat(t.requests)| ensures p in t.target {
      var slot := RangesCover(t.requests, t.offset, p);
      EveryRequestRanOnce(parallelism, steps, t, slot);
      CountZero(t.ran, Is(slot));
      var k :| 0 <= k < |t.ran| && t.ran[k] == slot;
      assert RangeStored(t.requests[t.ran[k]], t.target);
    }
  }

  /** Two error-free runs that reserved the same writes in the same order store the same bytes. */
  lemma SameReservationsSameTarget(p1: nat, steps1: seq<Step>, t1: State, p2: nat, steps2: seq<Step>, t2: State)
    requires Schedule(p1, steps1, t1) && Quiescent(t1) && NoErrorReported(t1)
    requires Schedule(p2, steps2, t2) && Quiescent(t2) && NoErrorReported(t2)
    requires Datas(t1.requests) == Datas(t2.requests)
    ensures t1.target == t2.target
  {
    ScheduleIndependence(p1, steps1, t1);
    ScheduleIndependence(p2, steps2, t2);
  }

  // ---------------------------------------------------------------- what each call answers

  /**
   * What a Write answers, on every schedule: all of its bytes and no error, once what it was given is reserved; or no
   * bytes and an error, which a writeFunc returned, or which is the cancelled context's.
   */
  lemma WriteAnswers(parallelism: nat, steps: seq<Step>, t: State, c: nat)
    requires Schedule(parallelism, steps, t) && c < |t.calls| && t.calls[c].Returned?
    ensures t.calls[c].err.None? ==>
              t.calls[c].count == |t.calls[c].data| && t.calls[c].reserved.Some?
              && t.calls[c].reserved.value < |t.requests|
              && t.requests[t.calls[c].reserved.value].data == t.calls[c].data
    ensures t.calls[c].err.Some? ==>
              t.calls[c].count == 0
              && (t.calls[c].err.value in t.faults || (t.calls[c].err.value == CTX_ERR && t.cancelled))
  {
    ReachableInv(parallelism, steps, t);
    assert CallOk(t, t.calls[c]);
    if t.calls[c].err.Some? { NoInventedError(parallelism, steps, t, t.calls[c].err.value); }
  }

  /** Reservations and the Writes that made them belong together one to one. */
  lemma OneReservationEach(parallelism: nat, steps: seq<Step>, t: State)
    requires Schedule(parallelism, steps, t)
    ensures SlotsDistinct(t)
    ensures forall slot: nat :: slot < |t.requests| <==> Owned(t, slot)
  {
    ReachableInv(parallelism, steps, t);
    forall slot: nat | Owned(t, slot) ensures slot < |t.requests| {
      var c :| 0 <= c < |t.calls| && SlotOf(t.calls[c]) == Some(slot);
      assert CallOk(t, t.calls[c]);
    }
  }

  /** The call's bytes are all stored, where its reservation says. */
  ghost predicate StoredWhole(s: State, c: Call) {
    && SlotOf(c).Some? && SlotOf(c).value < |s.requests|
    && forall k: nat :: k < |c.data| ==>
         var p := s.requests[SlotOf(c).value].offset + k;
         p in s.target && s.target[p] == c.data[k]
  }

  /** Once Close has returned, a Write that answered success has run: well, or its failure was returned. */
  lemma AcknowledgedRan(t: State, c: nat)
    requires Inv(t) && t.closing.Closed? && c < |t.calls| && t.calls[c].Returned? && t.calls[c].err.None?
    ensures SlotOf(t.calls[c]).value in t.ran || SlotOf(t.calls[c]).value in t.spoiled
  {
    assert CallOk(t, t.calls[c]);
    var slot := t.calls[c].reserved.value;
    forall d | 0 <= d < |t.calls| ensures !CallHolds(slot)(t.calls[d]) {
      assert d != c ==> SlotOf(t.calls[d]) != SlotOf(t.calls[c]);
    }
    CountZero(t.calls, CallHolds(slot));
    CountZero(t.workers, WorkerHolds(slot));
    assert t.queue == [];
    CountZero(t.abandoned, Is(slot));
    CountZero(t.ran, Is(slot));
    CountZero(t.spoiled, Is(slot));
    assert Holders(t, slot) == 1;
  }

  /** A request that ran well has its bytes in the target. */
  lemma RanIsStored(t: State, c: nat)
    requires Inv(t) && c < |t.calls| && SlotOf(t.calls[c]).Some? && SlotOf(t.calls[c]).value in t.ran
    ensures StoredWhole(t, t.calls[c])
  {
    assert CallOk(t, t.calls[c]);
    var slot := SlotOf(t.calls[c]).value;
    var r := t.requests[slot];
    var i :| 0 <= i < |t.ran| && t.ran[i] == slot;
    assert RangeStored(t.requests[t.ran[i]], t.target);
    RangeInFlat(t.requests, t.offset, slot);
    var range := Flat(t.requests)[r.offset..r.offset + |r.data|];
    forall k: nat | k < |r.data| ensures r.offset + k in t.target && t.target[r.offset + k] == r.data[k] {
      assert range[k] == Flat(t.requests)[r.offset + k];
    }
  }

  /**
   * No acknowledged byte is lost: once Close has returned, every Write that answered success has all its bytes in the
   * target where it reserved them, or else some Write or Close has reported an error.
   */
  lemma AcknowledgedIsStored(parallelism: nat, steps: seq<Step>, t: State, c: nat)
    requires Schedule(parallelism, steps, t) && t.closing.Closed?
    requires c < |t.calls| && t.calls[c].Returned? && t.calls[c].err.None?
    ensures StoredWhole(t, t.calls[c]) || SomeCallFailed(t) || CloseFailed(t)
  {
    ReachableInv(parallelism, steps, t);
    AcknowledgedRan(t, c);
    if SlotOf(t.calls[c]).value in t.ran {
      assert CallOk(t, t.calls[c]);
      RanIsStored(t, c);
    } else {
      NoLostError(parallelism, steps, t);
    }
  }

  /** Without cancellation, errors are reported by the time Close has returned exactly when a writeFunc failed. */
  lemma ReportsExactly(parallelism: nat, steps: seq<Step>, t: State)
    requires Schedule(parallelism, steps, t) && t.closing.Closed? && !t.cancelled
    ensures SomeCallFailed(t) || CloseFailed(t) <==> t.faults != []
  {
    if t.faults != [] {
      NoLostError(parallelism, steps, t);
    } else if SomeCallFailed(t) {
      var c :| 0 <= c < |t.calls| && t.calls[c].Returned? && t.calls[c].err.Some?;
      WriteAnswers(parallelism, steps, t, c);
    } else if CloseFailed(t) {
      ReachableInv(parallelism, steps, t);
      NoInventedError(parallelism, steps, t, t.closing.result.value);
    }
  }

  /** An error waiting in errChan ends the next Write that looks: it answers that error, and reserves nothing. */
  lemma WaitingErrorEndsWrite(parallelism: nat, steps: seq<Step>, s: State, c: nat)
    requires Schedule(parallelism, steps, s) && Enabled(s, Check(c)) && s.errs != []
    ensures Apply(s, Check(c)).calls[c] == Returned(s.calls[c].data, None, 0, Some(s.errs[0]))
    ensures s.errs[0] in s.faults && Apply(s, Check(c)).errs == s.errs[1..]
    ensures Apply(s, Check(c)).requests == s.requests && Apply(s, Check(c)).offset == s.offset
  {
    ReachableInv(parallelism, steps, s);
    CountZero(s.errs, Is(s.errs[0]));
    CountZero(s.faults, Is(s.errs[0]));
  }

  // ---------------------------------------------------------------- one Write after the other

  /** The pool used as an io.Writer: the next Write is called when the ones before it have returned. */
  ghost function NextInTurn(s: State, step: Step): Option<State> {
    if step.Begin? && exists c :: 0 <= c < |s.calls| && !s.calls[c].Returned? then None else Next(s, step)
  }

  /** Only the last call can still be in progress; unless one failed, the n-th call has the n-th reservation. */
  ghost predicate InTurn(s: State) {
    && (forall c :: 0 <= c < |s.calls| - 1 ==> s.calls[c].Returned?)
    && (SomeCallFailed(s) || Numbered(s))
  }

  ghost predicate Numbered(s: State) {
    && (forall c :: 0 <= c < |s.calls| && SlotOf(s.calls[c]).Some? ==> SlotOf(s.calls[c]) == Some(c))
    && |s.requests| == Expected(s.calls)
  }

  lemma TurnKept(s: State, step: Step)
    requires InTurn(s) && NextInTurn(s, step).Some?
    ensures forall c :: 0 <= c < |Apply(s, step).calls| - 1 ==> Apply(s, step).calls[c].Returned?
  {
  }

  /** No call gives up in this step. */
  predicate GoesWell(s: State, step: Step) {
    !((step.Check? && s.errs != []) || step.GiveUpCancelled? || step.GiveUpError?)
  }

  lemma NumbersKept(s: State, step: Step)
    requires InTurn(s) && Numbered(s) && EachOk(s) && NextInTurn(s, step).Some?
    ensures forall c :: 0 <= c < |Apply(s, step).calls| && SlotOf(Apply(s, step).calls[c]).Some? ==>
              SlotOf(Apply(s, step).calls[c]) == Some(c)
  {
    var t := Apply(s, step);
    forall c | 0 <= c < |t.calls| && SlotOf(t.calls[c]).Some? ensures SlotOf(t.calls[c]) == Some(c) {
      if c < |s.calls| { SlotsStay(s, step, c); }
    }
  }

  /** How many reservations there are when the n-th call has the n-th. */
  function Expected(calls: seq<Call>): int {
    |calls| - if calls != [] && SlotOf(calls[|calls| - 1]).None? then 1 else 0
  }

  lemma ExpectedKept(s: State, step: Step)
    requires InTurn(s) && |s.requests| == Expected(s.calls) && EachOk(s) && !SomeCallFailed(s)
    requires NextInTurn(s, step).Some? && GoesWell(s, step)
    ensures |Apply(s, step).requests| == Expected(Apply(s, step).calls)
  {
    if s.calls != [] {
      assert CallOk(s, s.calls[|s.calls| - 1]);
      SlotsStay(s, step, |s.calls| - 1);
    }
  }

  lemma InTurnKept(s: State, step: Step)
    requires InTurn(s) && CallsOk(s) && NextInTurn(s, step).Some?
    ensures InTurn(Apply(s, step))
  {
    TurnKept(s, step);
    if SomeCallFailed(s) {
      FailedCallsStay(s, step);
    } else if !GoesWell(s, step) {
      TakingFails(s, step);
    } else {
      NumbersKept(s, step);
      ExpectedKept(s, step);
    }
  }

  lemma InTurnAlways(parallelism: nat, steps: seq<Step>, t: State)
    requires Reaches(NextInTurn, Init(parallelism), steps, t)
    ensures InTurn(t) && Inv(t)
  {
    var inv := (s: State) => InTurn(s) && Inv(s);
    InitInv(parallelism);
    forall s, step | inv(s) && NextInTurn(s, step).Some? ensures inv(NextInTurn(s, step).value) {
      InTurnKept(s, step);
      StepInv(s, step);
    }
    RunKeeps(NextInTurn, inv, Init(parallelism), steps, t);
  }

  lemma {:induction false} InTurnIsSchedule(parallelism: nat, steps: seq<Step>, t: State)
    requires Reaches(NextInTurn, Init(parallelism), steps, t)
    ensures Schedule(parallelism, steps, t)
  {
    if steps != [] {
      var front := steps[..|steps| - 1];
      InTurnIsSchedule(parallelism, front, Run(NextInTurn, Init(parallelism), front).value);
    }
  }

  /** What the Writes were given, in the order they were called. */
  function Written(calls: seq<Call>): seq<Bytes> {
    seq(|calls|, i requires 0 <= i < |calls| => calls[i].data)
  }

  /**
   * Used as an io.Writer, with any number of workers running behind it: when no Write and not Close reported an error,
   * what was stored is everything written, in the order of the Writes.
   */
  lemma WritesInTurnConcatenate(parallelism: nat, steps: seq<Step>, t: State)
    requires Reaches(NextInTurn, Init(parallelism), steps, t) && Quiescent(t) && NoErrorReported(t)
    ensures forall p: nat :: p in t.target <==> p < |Concat(Written(t.calls))|
    ensures forall p: nat :: p in t.target ==> t.target[p] == Concat(Written(t.calls))[p]
  {
    InTurnAlways(parallelism, steps, t);
    InTurnIsSchedule(parallelism, steps, t);
    ScheduleIndependence(parallelism, steps, t);
    forall c | 0 <= c < |t.calls| ensures SlotOf(t.calls[c]).Some? { assert CallOk(t, t.calls[c]); }
    forall c | 0 <= c < |t.calls| ensures c < |t.requests| && t.requests[c].data == t.calls[c].data {
      assert CallOk(t, t.calls[c]);
    }
    assert Datas(t.requests) == Written(t.calls);
  }

  // ---------------------------------------------------------------- Close returns

  predicate WorkerStep(step: Step) { step.Take? || step.RunOk? || step.RunFail? || step.Report? || step.Exit? }

  function Load(w: Worker): nat { match w case Idle => 1 case Running(_) => 3 case Reporting(_) => 2 case Exited => 0 }

  function TotalLoad(workers: seq<Worker>): nat {
    if workers == [] then 0 else TotalLoad(workers[..|workers| - 1]) + Load(workers[|workers| - 1])
  }

  /** How many worker steps can still happen once the queue is closed. */
  function Work(s: State): nat { 3 * |s.queue| + TotalLoad(s.workers) }

  lemma {:induction false} LoadUpdate(workers: seq<Worker>, i: nat, w: Worker)
    requires i < |workers|
    ensures TotalLoad(workers[i := w]) + Load(workers[i]) == TotalLoad(workers) + Load(w)
  {
    var n := |workers| - 1;
    if i == n {
      assert workers[i := w][..n] == workers[..n];
    } else {
      assert workers[i := w][..n] == workers[..n][i := w];
      LoadUpdate(workers[..n], i, w);
    }
  }

  /** After Close has closed the queue, every worker step uses up work and nothing adds any. */
  lemma WorkRunsOut(s: State, step: Step)
    requires Enabled(s, step) && !s.closing.NotClosed?
    ensures if WorkerStep(step) then Work(Apply(s, step)) < Work(s) else Work(Apply(s, step)) == Work(s)
  {
    if WorkerStep(step) { LoadUpdate(s.workers, step.w, Apply(s, step).workers[step.w]); }
  }

  /**
   * Close is never stuck: while it waits, either it can return or some worker can take a step - and by WorkRunsOut
   * there are finitely many of those.
   */
  lemma CloseNeverStuck(parallelism: nat, steps: seq<Step>, t: State)
    requires Schedule(parallelism, steps, t) && t.closing.Waiting? && !t.panicked
    ensures Enabled(t, CloseReturn) || exists step :: WorkerStep(step) && Enabled(t, step)
  {
    ReachableInv(parallelism, steps, t);
    if !Enabled(t, CloseReturn) {
      var w :| 0 <= w < |t.workers| && !t.workers[w].Exited?;
      match t.workers[w]
      case Idle => assert Enabled(t, if t.queue == [] then Exit(w) else Take(w));
      case Running(slot) =>
        CountZero(t.workers, WorkerHolds(slot));
        assert Holders(t, slot) != 0;
        assert Enabled(t, RunOk(w));
      case Reporting(_) => assert Enabled(t, Report(w));
    }
  }
}
