// The prefetching reader of internal/storage/stream.go (StreamReader): a producer goroutine that
// cuts the source into chunks and a consumer that calls Read, joined by a bounded channel.
// Every interleaving of the two, of cancellation and of Close is a run of this step system.
module StreamReader {
  import opened Core
  import opened Runs

  type Error = int

  const CTX_ERR: Error := -1

  /** The wrapped reader: its bytes, and what comes after them - end of file or an error. */
  datatype Source = Source(data: Bytes, fault: Option<Fault>)

  datatype ReadErr = EndOfFile | Failed(e: Error)

  /** What a finished Read returned. */
  datatype Outcome = Outcome(count: nat, err: Option<ReadErr>)

  datatype Producer =
    | Polling
    | Sending(chunk: Bytes, last: bool)
    | Finishing                            // running the deferred close(sr.buffer)
    | Stopped

  datatype Consumer =
    | Resting(outcome: Option<Outcome>)
    | Receiving(want: nat, got: Bytes)
    | PuttingBack(want: nat, got: Bytes, remainder: Bytes)

  datatype State = State(
    chunkSize: nat,
    capacity: nat,            // prefetchSize
    source: Source,
    pos: nat,                 // bytes taken from the source
    channel: seq<Bytes>,      // sr.buffer
    channelClosed: bool,
    stored: Option<Error>,    // sr.err
    producer: Producer,
    consumer: Consumer,
    delivered: Bytes,         // everything finished Reads have handed out, in order
    done: bool,               // Close was called
    cancelled: bool,          // ctx.Done()
    panicked: bool)           // send on a closed channel

  function Init(chunkSize: nat, capacity: nat, source: Source): State {
    State(chunkSize, capacity, source, 0, [], false, None, Polling, Resting(None), [], false, false, false)
  }

  datatype Step =
    | PollCancelled | PollDone | ReadChunk
    | SendChunk | SendCancelled | SendDone | CloseChannel
    | StartRead(n: nat) | Receive | Rendezvous | PutBack | ReceiveClosed | ReceiveCancelled
    | CloseReader | Cancel

  predicate Enabled(s: State, step: Step) {
    && !s.panicked
    && match step
       case PollCancelled => s.producer.Polling? && s.cancelled
       case PollDone => s.producer.Polling? && s.done
       case ReadChunk => s.producer.Polling? && !s.cancelled && !s.done && s.pos <= |s.source.data|
       case SendChunk => s.producer.Sending? && |s.channel| < s.capacity
       case SendCancelled => s.producer.Sending? && s.cancelled
       case SendDone => s.producer.Sending? && s.done
       case CloseChannel => s.producer.Finishing?
       case StartRead(_) => s.consumer.Resting?
       case Receive => s.consumer.Receiving? && |s.consumer.got| <= s.consumer.want && s.channel != []
       case Rendezvous =>
         s.consumer.Receiving? && |s.consumer.got| <= s.consumer.want && s.channel == [] && s.producer.Sending?
       case PutBack => s.consumer.PuttingBack?
       case ReceiveClosed => s.consumer.Receiving? && s.channel == [] && s.channelClosed
       case ReceiveCancelled => s.consumer.Receiving? && s.cancelled
       case CloseReader => !s.done
       case Cancel => true
  }

  /** io.ReadFull of one chunk and what prefetch does with its result. */
  function TakeChunk(s: State): State
    requires s.pos <= |s.source.data|
  {
    var rest := s.source.data[s.pos..];
    if |rest| >= s.chunkSize then
      s.(producer := Sending(rest[..s.chunkSize], false), pos := s.pos + s.chunkSize)
    else if Noticed(s.source.fault) then
      s.(producer := Finishing, pos := |s.source.data|, stored := Some(s.source.fault.value.code))
    else if rest != [] then
      s.(producer := Sending(rest, true), pos := |s.source.data|)
    else
      s.(producer := Finishing)
  }

  function AfterSend(p: Producer): Producer
    requires p.Sending?
  {
    if p.last then Finishing else Polling
  }

  /** Read returns, handing `got` to its caller. */
  function Return(s: State, got: Bytes, err: Option<ReadErr>): State {
    s.(consumer := Resting(Some(Outcome(|got|, err))), delivered := s.delivered + got)
  }

  /** The head of the loop in Read: stop when the caller's buffer is full. */
  function Continue(s: State, want: nat, got: Bytes): State {
    if |got| < want then s.(consumer := Receiving(want, got)) else Return(s, got, None)
  }

  /** Copying one received chunk into what is left of the caller's buffer. */
  function Copy(s: State, chunk: Bytes): State
    requires s.consumer.Receiving? && |s.consumer.got| <= s.consumer.want
  {
    var want, got := s.consumer.want, s.consumer.got;
    var room := want - |got|;
    if |chunk| <= room then Continue(s, want, got + chunk)
    else s.(consumer := PuttingBack(want, got + chunk[..room], chunk[room..]))
  }

  function Apply(s: State, step: Step): State
    requires Enabled(s, step)
  {
    match step
    case PollCancelled => s.(stored := Some(CTX_ERR), producer := Finishing)
    case PollDone => s.(producer := Finishing)
    case ReadChunk => TakeChunk(s)
    case SendChunk => s.(channel := s.channel + [s.producer.chunk], producer := AfterSend(s.producer))
    case SendCancelled => s.(stored := Some(CTX_ERR), producer := Finishing)
    case SendDone => s.(producer := Finishing)
    case CloseChannel => s.(channelClosed := true, producer := Stopped)
    case StartRead(n) =>
      if s.stored.Some? then Return(s, [], Some(Failed(s.stored.value))) else Continue(s, n, [])
    case Receive => Copy(s.(channel := s.channel[1..]), s.channel[0])
    case Rendezvous => Copy(s.(producer := AfterSend(s.producer)), s.producer.chunk)
    case PutBack =>
      if s.channelClosed then s.(panicked := true)
      else if |s.channel| < s.capacity then
        Continue(s.(channel := s.channel + [s.consumer.remainder]), s.consumer.want, s.consumer.got)
      else Continue(s, s.consumer.want, s.consumer.got)
    case ReceiveClosed =>
      if s.stored.Some? then Return(s, s.consumer.got, Some(Failed(s.stored.value)))
      else if s.consumer.got != [] then Return(s, s.consumer.got, None)
      else Return(s, [], Some(EndOfFile))
    case ReceiveCancelled => Return(s, s.consumer.got, Some(Failed(CTX_ERR)))
    case CloseReader => s.(done := true)
    case Cancel => s.(cancelled := true)
  }

  ghost function Next(s: State, step: Step): Option<State> {
    if Enabled(s, step) then Some(Apply(s, step)) else None
  }

  /** The same system when every Read asks for a whole number of chunks. */
  ghost function NextAligned(s: State, step: Step): Option<State> {
    if step.StartRead? && !Multiple(step.n, s.chunkSize) then None else Next(s, step)
  }

  /** Everything the consumer has been given so far, including by a Read still in progress. */
  function Handed(s: State): Bytes {
    s.delivered + if s.consumer.Resting? then [] else s.consumer.got
  }

  // ---------------------------------------------------------------- whole numbers of chunks

  /** `n` is a whole number of `c`s. */
  predicate Multiple(n: nat, c: nat)
    decreases n
  {
    n == 0 || (0 < c <= n && Multiple(n - c, c))
  }

  lemma {:induction false} MultipleIsMod(n: nat, c: nat)
    requires c > 0
    ensures Multiple(n, c) <==> n % c == 0
  {
    if n >= c {
      MultipleIsMod(n - c, c);
      assert n % c == (n - c) % c by {
        var q := (n - c) / c;
        assert n == c * (q + 1) + (n - c) % c;
        DivUnique(n, c, q + 1, (n - c) % c);
      }
    }
  }

  /** Two different whole numbers of chunks are at least a chunk apart. */
  lemma {:induction false} MultiplesApart(a: nat, b: nat, c: nat)
    requires c > 0 && Multiple(a, c) && Multiple(b, c) && a < b
    ensures a + c <= b && Multiple(a + c, c)
  {
    if a > 0 { MultiplesApart(a - c, b - c, c); }
  }

  // ---------------------------------------------------------------- the invariant

  predicate Ended(p: Producer) { p.Finishing? || p.Stopped? }

  /** Bytes that have left the producer's hands or are in them, in order. */
  function Taken(s: State): Bytes {
    Handed(s) + Concat(s.channel) + if s.producer.Sending? then s.producer.chunk else []
  }

  ghost predicate OrderOk(s: State) {
    && s.pos <= |s.source.data|
    && Taken(s) <= s.source.data
    && (!Ended(s.producer) ==> Taken(s) == s.source.data[..s.pos])
    && (s.producer.Sending? && s.producer.last ==> s.pos == |s.source.data| && !Noticed(s.source.fault))
    && (Ended(s.producer) && s.stored.None? && !s.done ==> Taken(s) == s.source.data && !Noticed(s.source.fault))
  }

  ghost predicate ShapeOk(s: State) {
    && s.chunkSize > 0
    && (s.producer.Sending? ==>
          if s.producer.last then |s.producer.chunk| <= s.chunkSize else |s.producer.chunk| == s.chunkSize)
    && (forall i :: 0 <= i < |s.channel| ==> |s.channel[i]| <= s.chunkSize)
    && (forall i :: 0 <= i < |s.channel| && (!Ended(s.producer) || i < |s.channel| - 1) ==>
        |s.channel[i]| == s.chunkSize)
    && (s.channelClosed ==> s.producer.Stopped?)
  }

  ghost predicate ReadOk(s: State) {
    && !s.consumer.PuttingBack?
    && (s.consumer.Receiving? ==>
          && |s.consumer.got| < s.consumer.want && Multiple(s.consumer.want, s.chunkSize)
          && (!Ended(s.producer) || s.channel != [] ==> Multiple(|s.consumer.got|, s.chunkSize)))
    && (s.consumer.Resting? && s.consumer.outcome.Some? && s.consumer.outcome.value.err == Some(EndOfFile)
        && !s.done ==>
          s.delivered == s.source.data && !Noticed(s.source.fault))
  }

  ghost predicate Inv(s: State) { !s.panicked && OrderOk(s) && ShapeOk(s) && ReadOk(s) }

  lemma StepInv(s: State, step: Step)
    requires Inv(s) && NextAligned(s, step).Some?
    ensures Inv(Apply(s, step))
  {
    match step
    case PollCancelled => ProducerInv(s, step);
    case PollDone => ProducerInv(s, step);
    case ReadChunk => ReadChunkInv(s);
    case SendChunk => SendChunkInv(s);
    case SendCancelled => ProducerInv(s, step);
    case SendDone => ProducerInv(s, step);
    case CloseChannel => ProducerInv(s, step);
    case StartRead(n) => ConsumerInv(s, step);
    case Receive => ReceiveInv(s);
    case Rendezvous => RendezvousInv(s);
    case ReceiveClosed => ConsumerInv(s, step);
    case ReceiveCancelled => ConsumerInv(s, step);
    case _ =>
  }

  lemma SettingsFixed(s: State, step: Step)
    requires Enabled(s, step)
    ensures Apply(s, step).source == s.source && Apply(s, step).chunkSize == s.chunkSize
  {
  }

  lemma ProducerInv(s: State, step: Step)
    requires Inv(s) && Enabled(s, step)
    requires step.PollCancelled? || step.PollDone? || step.SendCancelled? || step.SendDone? || step.CloseChannel?
    ensures Inv(Apply(s, step))
  {
    OrderCarriesOver(s, Apply(s, step));
  }

  lemma ConsumerInv(s: State, step: Step)
    requires Inv(s) && NextAligned(s, step).Some?
    requires step.StartRead? || step.ReceiveClosed? || step.ReceiveCancelled?
    ensures Inv(Apply(s, step))
  {
    var t := Apply(s, step);
    assert t == s.(consumer := t.consumer, delivered := t.delivered);
    QuietConsumer(s, t) by { assert Handed(t) == Handed(s); }
    ReadAfterReturn(s, step);
  }

  lemma QuietConsumer(s: State, t: State)
    requires OrderOk(s) && ShapeOk(s) && t == s.(consumer := t.consumer, delivered := t.delivered)
             && Handed(t) == Handed(s)
    ensures OrderOk(t) && ShapeOk(t)
  {
    OrderCarriesOver(s, t);
  }

  lemma ReadAfterReturn(s: State, step: Step)
    requires Inv(s) && NextAligned(s, step).Some?
    requires step.StartRead? || step.ReceiveClosed? || step.ReceiveCancelled?
    ensures ReadOk(Apply(s, step))
  {
    if step.ReceiveClosed? && s.consumer.got == [] {
      assert s.delivered == Taken(s);
      assert s.delivered + [] == s.delivered;
    }
  }

  /** Steps that move no bytes keep the order; a producer that gives up only drops its own chunk. */
  lemma OrderCarriesOver(s: State, t: State)
    requires OrderOk(s) && Handed(t) == Handed(s) && t.channel == s.channel && t.source == s.source && t.pos == s.pos
    requires t.producer == s.producer || (Ended(t.producer) && (t.stored.Some? || t.done || Ended(s.producer)))
    requires (s.stored.Some? ==> t.stored.Some?) && (s.done ==> t.done)
    ensures OrderOk(t)
  {
    assert Taken(t) <= Taken(s);
  }

  lemma ReadChunkInv(s: State)
    requires Inv(s) && Enabled(s, ReadChunk)
    ensures Inv(Apply(s, ReadChunk))
  {
    var t := Apply(s, ReadChunk);
    assert OrderOk(t) by { ReadChunkOrder(s, t); }
    assert ShapeOk(t);
  }

  lemma ReadChunkOrder(s: State, t: State)
    requires OrderOk(s) && Enabled(s, ReadChunk) && t == TakeChunk(s)
    ensures OrderOk(t)
  {
    var front := Handed(s) + Concat(s.channel);
    assert front == s.source.data[..s.pos];
    if t.producer.Sending? {
      assert front + t.producer.chunk == s.source.data[..t.pos];
    }
  }

  /** Steps that hand bytes on from one place to the next keep the order. */
  lemma OrderMovesOn(s: State, t: State)
    requires OrderOk(s) && Taken(t) == Taken(s) && t.source == s.source && t.pos == s.pos
    requires t.stored == s.stored && t.done == s.done
    requires t.producer == s.producer || (s.producer.Sending? && t.producer == AfterSend(s.producer))
    ensures OrderOk(t)
  {
  }

  lemma SendChunkInv(s: State)
    requires Inv(s) && Enabled(s, SendChunk)
    ensures Inv(Apply(s, SendChunk))
  {
    var t := Apply(s, SendChunk);
    OrderMovesOn(s, t) by { SendMoves(s, t); }
    assert ShapeOk(t);
  }

  /** Sending a chunk moves it from the producer to the channel and nothing else. */
  lemma SendMoves(s: State, t: State)
    requires s.producer.Sending? && t.channel == s.channel + [s.producer.chunk] && !t.producer.Sending?
    requires Handed(t) == Handed(s)
    ensures Taken(t) == Taken(s)
  {
    ConcatSnoc(s.channel, s.producer.chunk);
  }

  lemma ConcatTail(chunks: seq<Bytes>)
    requires chunks != []
    ensures Concat(chunks) == chunks[0] + Concat(chunks[1..])
  {
    assert chunks == [chunks[0]] + chunks[1..];
    ConcatAppend([chunks[0]], chunks[1..]);
    ConcatSnoc([], chunks[0]);
  }

  /** An aligned Read always has room for the next chunk, so no remainder is ever put back. */
  lemma Fits(s: State, chunk: Bytes)
    requires ReadOk(s) && s.chunkSize > 0 && s.consumer.Receiving? && |chunk| <= s.chunkSize
    requires Multiple(|s.consumer.got|, s.chunkSize)
    ensures |chunk| <= s.consumer.want - |s.consumer.got|
    ensures |chunk| == s.chunkSize ==> Multiple(|s.consumer.got + chunk|, s.chunkSize)
  {
    MultiplesApart(|s.consumer.got|, s.consumer.want, s.chunkSize);
  }

  lemma ReceiveInv(s: State)
    requires Inv(s) && Enabled(s, Receive)
    ensures Inv(Apply(s, Receive))
  {
    var t := ReceiveFits(s);
    OrderMovesOn(s, t) by { ReceiveMoves(s, t); }
    assert ShapeOk(t) by { ShapeAfterReceive(s, t); }
  }

  lemma ReceiveFits(s: State) returns (t: State)
    requires ShapeOk(s) && ReadOk(s) && Enabled(s, Receive)
    ensures t == Apply(s, Receive)
            && t == Continue(s.(channel := s.channel[1..]), s.consumer.want, s.consumer.got + s.channel[0])
    ensures ReadOk(t)
  {
    Fits(s, s.channel[0]);
    t := Apply(s, Receive);
  }

  lemma ShapeAfterReceive(s: State, t: State)
    requires ShapeOk(s) && s.channel != []
             && t == s.(channel := s.channel[1..], consumer := t.consumer, delivered := t.delivered)
    ensures ShapeOk(t)
  {
    assert forall i :: 0 <= i < |t.channel| ==> t.channel[i] == s.channel[i + 1];
  }

  /** Receiving a chunk moves it from the channel to the consumer and nothing else. */
  lemma ReceiveMoves(s: State, t: State)
    requires s.channel != [] && t.channel == s.channel[1..] && t.producer == s.producer
    requires Handed(t) == Handed(s) + s.channel[0]
    ensures Taken(t) == Taken(s)
  {
    ConcatTail(s.channel);
  }

  lemma RendezvousInv(s: State)
    requires Inv(s) && Enabled(s, Rendezvous)
    ensures Inv(Apply(s, Rendezvous))
  {
    var t := RendezvousFits(s);
    OrderMovesOn(s, t) by { assert Handed(t) == Handed(s) + s.producer.chunk; }
    assert ShapeOk(t);
  }

  lemma RendezvousFits(s: State) returns (t: State)
    requires ShapeOk(s) && ReadOk(s) && Enabled(s, Rendezvous)
    ensures t == Apply(s, Rendezvous)
    ensures t == Continue(s.(producer := AfterSend(s.producer)), s.consumer.want, s.consumer.got + s.producer.chunk)
    ensures ReadOk(t)
  {
    Fits(s, s.producer.chunk);
    t := Apply(s, Rendezvous);
  }

  lemma AlignedInv(init: State, steps: seq<Step>, t: State)
    requires Inv(init) && Reaches(NextAligned, init, steps, t)
    ensures Inv(t) && t.source == init.source
  {
    var inv := (s: State) => Inv(s) && s.source == init.source;
    forall s, step | inv(s) && NextAligned(s, step).Some? ensures inv(NextAligned(s, step).value) {
      StepInv(s, step);
      SettingsFixed(s, step);
    }
    RunKeeps(NextAligned, inv, init, steps, t);
  }

  // ---------------------------------------------------------------- main theorems

  /**
   * In-order delivery: when every Read asks for a whole number of chunks, then at every step of every
   * interleaving - whatever the source does, and across cancellation and Close - the consumer has
   * been handed a prefix of the source, no remainder was re-queued, and nothing panicked.
   */
  lemma InOrderDelivery(chunkSize: nat, capacity: nat, source: Source, steps: seq<Step>, t: State)
    requires chunkSize > 0 && Reaches(NextAligned, Init(chunkSize, capacity, source), steps, t)
    ensures Handed(t) <= source.data && !t.panicked && !t.consumer.PuttingBack?
  {
    AlignedInv(Init(chunkSize, capacity, source), steps, t);
    assert Handed(t) <= Taken(t);
  }

  /**
   * ... and a Read that answered end-of-file before Close means that everything the source gave was delivered, and that
   * it did not fail - unless with io.ErrUnexpectedEOF, which prefetch takes for the end.
   */
  lemma CleanEndOfFile(chunkSize: nat, capacity: nat, source: Source, steps: seq<Step>, t: State, count: nat)
    requires chunkSize > 0 && Reaches(NextAligned, Init(chunkSize, capacity, source), steps, t)
    requires t.consumer == Resting(Some(Outcome(count, Some(EndOfFile)))) && !t.done
    ensures t.delivered == source.data && !Noticed(source.fault)
  {
    AlignedInv(Init(chunkSize, capacity, source), steps, t);
  }

  // ---------------------------------------------------------------- what each Read answers

  /** The step ends a Read: one that was in progress, or one that returns as soon as it is called. */
  predicate Finishes(s: State, step: Step)
    requires Enabled(s, step)
  {
    Apply(s, step).consumer.Resting? && (step.StartRead? || !s.consumer.Resting?)
  }

  /** The length of the buffer the Read was called with. */
  function Wanted(s: State, step: Step): nat
    requires Enabled(s, step) && Finishes(s, step)
  {
    if step.StartRead? then step.n else s.consumer.want
  }

  /** What has been copied into the caller's buffer before the step. */
  function InHand(s: State): Bytes { if s.consumer.Resting? then [] else s.consumer.got }

  /** What the step tells the caller of the Read that it ends. */
  function Answer(s: State, step: Step): seq<Outcome>
    requires Enabled(s, step)
  {
    var t := Apply(s, step);
    if Finishes(s, step) && t.consumer.outcome.Some? then [t.consumer.outcome.value] else []
  }

  /** What the Reads that ended during a run told their callers, in order. */
  ghost function Answers(init: State, steps: seq<Step>): seq<Outcome> {
    if steps == [] then []
    else
      var front, step := steps[..|steps| - 1], steps[|steps| - 1];
      var before := Run(Next, init, front);
      Answers(init, front) +
      if before.Some? && Enabled(before.value, step) then Answer(before.value, step) else []
  }

  /** The counts of the answers, added up. */
  function Total(answers: seq<Outcome>): nat {
    if answers == [] then 0 else Total(answers[..|answers| - 1]) + answers[|answers| - 1].count
  }

  /** An error of the context, reported because it was cancelled, or the source's own. */
  predicate Genuine(s: State, e: Error) {
    (e == CTX_ERR && s.cancelled) || s.source.fault == Some(Other(e))
  }

  /** A Read in progress still has room, unless it has a remainder to put back. */
  predicate RoomLeft(s: State) {
    && (s.consumer.Receiving? ==> |s.consumer.got| < s.consumer.want)
    && (s.consumer.PuttingBack? ==> |s.consumer.got| == s.consumer.want)
  }

  /** ... and a stored error is genuine. */
  predicate CallOk(s: State) { RoomLeft(s) && (s.stored.Some? ==> Genuine(s, s.stored.value)) }

  lemma StepRoom(s: State, step: Step)
    requires RoomLeft(s) && Enabled(s, step)
    ensures RoomLeft(Apply(s, step))
  {
  }

  lemma StepCall(s: State, step: Step)
    requires CallOk(s) && Enabled(s, step)
    ensures CallOk(Apply(s, step))
  {
    StepRoom(s, step);
    SettingsFixed(s, step);
    assert s.cancelled ==> Apply(s, step).cancelled;
  }

  lemma CallAlways(init: State, steps: seq<Step>, t: State)
    requires CallOk(init) && Reaches(Next, init, steps, t)
    ensures CallOk(t) && t.source == init.source
  {
    var inv := (s: State) => CallOk(s) && s.source == init.source;
    forall s, step | inv(s) && Next(s, step).Some? ensures inv(Next(s, step).value) {
      StepCall(s, step);
      SettingsFixed(s, step);
    }
    RunKeeps(Next, inv, init, steps, t);
  }

  /** The bytes a step hands out, and what the Read that it ends tells of them. */
  lemma StepAnswers(s: State, step: Step) returns (read: Bytes)
    requires CallOk(s) && Enabled(s, step)
    ensures Apply(s, step).delivered == s.delivered + read
    ensures !Finishes(s, step) ==> read == []
    ensures step.ReceiveClosed? || step.ReceiveCancelled? || (step.StartRead? && (s.stored.Some? || step.n == 0)) ==>
              Finishes(s, step)
    ensures Finishes(s, step) ==> AnswerOk(s, step, read, Apply(s, step).consumer.outcome)
  {
    var t := Apply(s, step);
    match step
    case StartRead(n) =>
      read := [];
    case Receive => read := ReceiveAnswers(s, s.(channel := s.channel[1..]), s.channel[0]);
    case Rendezvous =>
      read := ReceiveAnswers(s, s.(producer := AfterSend(s.producer)), s.producer.chunk);
    case PutBack =>
      read := if t.consumer.Resting? then s.consumer.got else [];
    case ReceiveClosed => read := s.consumer.got;
    case ReceiveCancelled => read := s.consumer.got;
    case _ => read := [];
  }

  lemma ReceiveAnswers(s: State, mid: State, chunk: Bytes) returns (read: Bytes)
    requires s.consumer.Receiving? && |s.consumer.got| < s.consumer.want
    requires mid.consumer == s.consumer && mid.delivered == s.delivered
    ensures Copy(mid, chunk).delivered == s.delivered + read
    ensures Copy(mid, chunk).consumer.Resting? ==>
              s.consumer.got <= read && |read| == s.consumer.want
              && Copy(mid, chunk).consumer == Resting(Some(Outcome(s.consumer.want, None)))
    ensures !Copy(mid, chunk).consumer.Resting? ==> read == []
  {
    read := if Copy(mid, chunk).consumer.Resting? then s.consumer.got + chunk else [];
  }

  /**
   * What a Read that ends with `read` in its caller's buffer may answer. The count is what was put in the buffer, never
   * more than fits. A Read called after the prefetcher failed answers that failure and nothing else. Without an error
   * the buffer is full, unless the closed channel ran dry after some bytes. End-of-file is said only with no bytes, of
   * a channel closed and dry with no failure behind it. Every failure answered is the source's own, or the context's
   * when it has been cancelled.
   */
  ghost predicate AnswerOk(s: State, step: Step, read: Bytes, answer: Option<Outcome>)
    requires Enabled(s, step) && Finishes(s, step)
  {
    && answer.Some?
    && var o, want := answer.value, Wanted(s, step);
    && InHand(s) <= read && |read| == o.count <= want
    && (step.StartRead? && s.stored.Some? ==> o == Outcome(0, Some(Failed(s.stored.value))))
    && (o.err.None? && o.count < want ==> o.count > 0 && s.channelClosed && s.channel == [] && s.stored.None?)
    && (o.err == Some(EndOfFile) ==> o.count == 0 < want && s.channelClosed && s.channel == [] && s.stored.None?)
    && (o.err.Some? && o.err.value.Failed? ==> Genuine(s, o.err.value.e))
  }

  /** On every schedule and for all buffer lengths, a Read that ends answers what it should. */
  lemma ReadAnswers(chunkSize: nat, capacity: nat, source: Source, steps: seq<Step>, s: State, step: Step)
      returns (read: Bytes)
    requires Reaches(Next, Init(chunkSize, capacity, source), steps, s) && Enabled(s, step)
    ensures s.source == source && Apply(s, step).delivered == s.delivered + read
    ensures !Finishes(s, step) ==> read == []
    ensures step.ReceiveClosed? || step.ReceiveCancelled? || (step.StartRead? && (s.stored.Some? || step.n == 0)) ==>
              Finishes(s, step)
    ensures Finishes(s, step) ==> AnswerOk(s, step, read, Apply(s, step).consumer.outcome)
  {
    CallAlways(Init(chunkSize, capacity, source), steps, s);
    read := StepAnswers(s, step);
  }

  lemma AnswerCounts(s: State, step: Step)
    requires CallOk(s) && Enabled(s, step)
    ensures |Apply(s, step).delivered| == |s.delivered| + Total(Answer(s, step))
  {
    var read := StepAnswers(s, step);
    assert Answer(s, step) != [] ==> Answer(s, step)[..0] == [];
  }

  lemma {:induction false} TotalAppend(a: seq<Outcome>, b: seq<Outcome>)
    ensures Total(a + b) == Total(a) + Total(b)
  {
    if b == [] {
      assert a + b == a;
    } else {
      TotalAppend(a, b[..|b| - 1]);
      assert (a + b)[..|a + b| - 1] == a + b[..|b| - 1];
    }
  }

  /**
   * Read's answers add up, whatever buffer lengths the callers use and under every schedule: the counts told by the
   * Reads that have ended are the bytes that have been handed out, no more and no fewer.
   */
  lemma {:induction false} CountsAddUp(chunkSize: nat, capacity: nat, source: Source, steps: seq<Step>, t: State)
    requires Reaches(Next, Init(chunkSize, capacity, source), steps, t)
    ensures Total(Answers(Init(chunkSize, capacity, source), steps)) == |t.delivered|
  {
    var init := Init(chunkSize, capacity, source);
    if steps != [] {
      var front, step := steps[..|steps| - 1], steps[|steps| - 1];
      var s := Run(Next, init, front).value;
      CountsAddUp(chunkSize, capacity, source, front, s);
      CallAlways(init, front, s);
      AnswerCounts(s, step);
      TotalAppend(Answers(init, front), Answer(s, step));
    }
  }

  // ---------------------------------------------------------------- the exact condition on faults

  /** No schedule of aligned reads answers end-of-file before Close. */
  ghost predicate NeverEnds(chunkSize: nat, capacity: nat, source: Source) {
    forall steps, t, count :: Reaches(NextAligned, Init(chunkSize, capacity, source), steps, t) && !t.done ==>
      t.consumer != Resting(Some(Outcome(count, Some(EndOfFile))))
  }

  /** In the middle of a Read of `n` bytes that has received the source's first `j` chunks. */
  function Pulled(c: nat, capacity: nat, source: Source, n: nat, j: nat): State
    requires j * c <= |source.data|
  {
    Init(c, capacity, source).(pos := j * c, consumer := Receiving(n, source.data[..j * c]))
  }

  /** One more chunk goes from the source through the producer's hands to the consumer. */
  lemma PullStep(c: nat, capacity: nat, source: Source, n: nat, j: nat) returns (mid: State)
    requires c > 0 && j > 0 && j * c <= |source.data| < n
    ensures (j - 1) * c + c == j * c
    ensures NextAligned(Pulled(c, capacity, source, n, j - 1), ReadChunk) == Some(mid)
    ensures NextAligned(mid, Rendezvous) == Some(Pulled(c, capacity, source, n, j))
  {
    var s := Pulled(c, capacity, source, n, j - 1);
    assert (j - 1) * c + c == j * c;
    var chunk := source.data[s.pos..][..c];
    assert source.data[..s.pos] + chunk == source.data[..j * c];
    mid := s.(producer := Sending(chunk, false), pos := j * c);
  }

  lemma {:induction false} Pulls(c: nat, capacity: nat, source: Source, n: nat, j: nat) returns (steps: seq<Step>)
    requires c > 0 && j * c <= |source.data| < n && Multiple(n, c)
    ensures Reaches(NextAligned, Init(c, capacity, source), steps, Pulled(c, capacity, source, n, j))
  {
    var init := Init(c, capacity, source);
    if j == 0 {
      assert 0 * c == 0 && source.data[..0] == [];
      ReachesSnoc(NextAligned, init, [], init, StartRead(n), Pulled(c, capacity, source, n, 0));
      steps := [] + [StartRead(n)];
    } else {
      var mid := PullStep(c, capacity, source, n, j);
      steps := Pulls(c, capacity, source, n, j - 1);
      ReachesTwo(NextAligned, init, steps, Pulled(c, capacity, source, n, j - 1), ReadChunk, mid, Rendezvous,
          Pulled(c, capacity, source, n, j));
      steps := steps + [ReadChunk] + [Rendezvous];
    }
  }

  /** The Read has received the whole source; the producer stands at `p`, having closed the channel if it stopped. */
  function Emptied(c: nat, capacity: nat, source: Source, n: nat, p: Producer): State {
    Init(c, capacity, source).(pos := |source.data|, consumer := Receiving(n, source.data), producer := p,
        channelClosed := p.Stopped?)
  }

  /** The producer hands on a last, short chunk. */
  lemma LastChunk(c: nat, capacity: nat, source: Source, n: nat, j: nat) returns (mid: State)
    requires j * c < |source.data| < n && |source.data| < j * c + c && !Noticed(source.fault)
    ensures NextAligned(Pulled(c, capacity, source, n, j), ReadChunk) == Some(mid)
    ensures NextAligned(mid, Rendezvous) == Some(Emptied(c, capacity, source, n, Finishing))
  {
    var s := Pulled(c, capacity, source, n, j);
    var rest := source.data[s.pos..];
    assert source.data[..s.pos] + rest == source.data;
    mid := s.(producer := Sending(rest, true), pos := |source.data|);
  }

  /** The producer takes what is left of the source, hands it on, and closes the channel. */
  lemma LastPull(c: nat, capacity: nat, source: Source, n: nat, j: nat) returns (steps: seq<Step>)
    requires c > 0 && j * c <= |source.data| < n && |source.data| < j * c + c && Multiple(n, c)
             && !Noticed(source.fault)
    ensures Reaches(NextAligned, Init(c, capacity, source), steps, Emptied(c, capacity, source, n, Stopped))
  {
    var init, s, t := Init(c, capacity, source), Pulled(c, capacity, source, n, j),
        Emptied(c, capacity, source, n, Finishing);
    steps := Pulls(c, capacity, source, n, j);
    if j * c == |source.data| {
      assert source.data[..j * c] == source.data;
      ReachesSnoc(NextAligned, init, steps, s, ReadChunk, t);
      steps := steps + [ReadChunk];
    } else {
      var mid := LastChunk(c, capacity, source, n, j);
      ReachesTwo(NextAligned, init, steps, s, ReadChunk, mid, Rendezvous, t);
      steps := steps + [ReadChunk] + [Rendezvous];
    }
    ReachesSnoc(NextAligned, init, steps, t, CloseChannel, Emptied(c, capacity, source, n, Stopped));
    steps := steps + [CloseChannel];
  }

  /** Reads on a closed, empty channel: the first one returns what it has, the next one says end-of-file. */
  lemma SaysEnd(c: nat, capacity: nat, source: Source, n: nat, init: State, before: seq<Step>)
      returns (steps: seq<Step>, t: State)
    requires n > 0 && Multiple(n, c) && Reaches(NextAligned, init, before, Emptied(c, capacity, source, n, Stopped))
    ensures Reaches(NextAligned, init, steps, t) && !t.done && t.consumer == Resting(Some(Outcome(0, Some(EndOfFile))))
  {
    var s := Emptied(c, capacity, source, n, Stopped);
    steps := before;
    if source.data != [] {
      var back := Return(s, source.data, None);
      var again := back.(consumer := Receiving(n, []));
      ReachesTwo(NextAligned, init, steps, s, ReceiveClosed, back, StartRead(n), again);
      steps, s := steps + [ReceiveClosed] + [StartRead(n)], again;
    }
    t := Return(s, [], Some(EndOfFile));
    ReachesSnoc(NextAligned, init, steps, s, ReceiveClosed, t);
    steps := steps + [ReceiveClosed];
  }

  /** A source whose fault goes unnoticed has a schedule that delivers what it gave and then says end-of-file. */
  lemma Ends(c: nat, capacity: nat, source: Source) returns (steps: seq<Step>, t: State)
    requires c > 0 && !Noticed(source.fault)
    ensures Reaches(NextAligned, Init(c, capacity, source), steps, t) && !t.done
    ensures t.consumer == Resting(Some(Outcome(0, Some(EndOfFile))))
  {
    var j := |source.data| / c;
    var n := (j + 1) * c;
    assert n == j * c + c;
    MultipleIsMod(n, c);
    DivUnique(n, c, j + 1, 0);
    steps := LastPull(c, capacity, source, n, j);
    steps, t := SaysEnd(c, capacity, source, n, Init(c, capacity, source), steps);
  }

  /**
   * A failing source, exactly: no schedule lets it pass for one that ended if and only if it fails with another error
   * than io.ErrUnexpectedEOF.
   */
  lemma FaultSurfacesExactly(chunkSize: nat, capacity: nat, source: Source)
    requires chunkSize > 0 && source.fault.Some?
    ensures NeverEnds(chunkSize, capacity, source) <==> source.fault.value != UnexpectedEof
  {
    if Noticed(source.fault) {
      forall steps, t, count | Reaches(NextAligned, Init(chunkSize, capacity, source), steps, t) && !t.done
        ensures t.consumer != Resting(Some(Outcome(count, Some(EndOfFile))))
      {
        AlignedInv(Init(chunkSize, capacity, source), steps, t);
      }
    } else {
      var steps, t := Ends(chunkSize, capacity, source);
    }
  }

  // ---------------------------------------------------------------- the exact condition on Read sizes

  /** The system driven by a caller that always reads into a buffer of length `n`. */
  ghost function NextReading(n: nat): (State, Step) -> Option<State> {
    (s: State, step: Step) => if step.StartRead? && step.n != n then None else Next(s, step)
  }

  /** Whatever the source, the prefetch size and the schedule, such a caller sees a prefix of the source. */
  ghost predicate AlwaysInOrder(chunkSize: nat, n: nat) {
    forall capacity: nat, source, steps, t :: Reaches(NextReading(n), Init(chunkSize, capacity, source), steps, t) ==>
      Handed(t) <= source.data && !t.panicked
  }

  lemma ReadingInv(n: nat, init: State, steps: seq<Step>, t: State)
    requires Inv(init) && Multiple(n, init.chunkSize) && Reaches(NextReading(n), init, steps, t)
    ensures Inv(t) && t.source == init.source
  {
    var next := NextReading(n);
    var inv := (s: State) => Inv(s) && s.source == init.source && s.chunkSize == init.chunkSize;
    forall s, step | inv(s) && next(s, step).Some? ensures inv(next(s, step).value) {
      assert next(s, step) == NextAligned(s, step);
      StepInv(s, step);
      SettingsFixed(s, step);
    }
    RunKeeps(next, inv, init, steps, t);
  }

  lemma AlignedIsInOrder(chunkSize: nat, n: nat)
    requires chunkSize > 0 && Multiple(n, chunkSize)
    ensures AlwaysInOrder(chunkSize, n)
  {
    forall capacity: nat, source, steps, t | Reaches(NextReading(n), Init(chunkSize, capacity, source), steps, t)
      ensures Handed(t) <= source.data && !t.panicked
    {
      ReadingInv(n, Init(chunkSize, capacity, source), steps, t);
      assert Handed(t) <= Taken(t);
    }
  }

  // A schedule that breaks every other buffer length: the producer fills the channel with `full` chunks
  // of zeros and one of ones, then two Reads of length n follow.

  /** `full` chunks of zeros and a chunk of ones. */
  function Pieces(c: nat, full: nat): seq<Bytes> { seq(full, _ => Zeros(c)) + [Ones(c)] }

  /** The source of that schedule. */
  function Tape(c: nat, full: nat): Source { Source(Zeros(full * c) + Ones(c), None) }

  /** The state with the first `k` chunks waiting in the channel. */
  function Filled(c: nat, full: nat, k: nat): State
    requires k <= full + 1
  {
    Init(c, full + 1, Tape(c, full)).(pos := k * c, channel := Pieces(c, full)[..k])
  }

  /** The tape's next chunk when `k - 1` have been read. */
  lemma TapeChunk(c: nat, full: nat, k: nat)
    requires c > 0 && 0 < k <= full + 1
    ensures (k - 1) * c + c == k * c <= |Tape(c, full).data|
    ensures Tape(c, full).data[(k - 1) * c..k * c] == Pieces(c, full)[k - 1]
  {
    assert (k - 1) * c <= full * c;
    assert k <= full ==> k * c <= full * c;
  }

  /** Reading and sending one chunk. */
  lemma FillStep(c: nat, full: nat, n: nat, k: nat) returns (mid: State)
    requires c > 0 && 0 < k <= full + 1
    ensures NextReading(n)(Filled(c, full, k - 1), ReadChunk) == Some(mid)
    ensures NextReading(n)(mid, SendChunk) == Some(Filled(c, full, k))
  {
    var s := Filled(c, full, k - 1);
    var chunk := Pieces(c, full)[k - 1];
    TapeChunk(c, full, k);
    assert s.source.data[s.pos..][..c] == s.source.data[s.pos..s.pos + c];
    mid := s.(producer := Sending(chunk, false), pos := s.pos + c);
    assert Pieces(c, full)[..k] == Pieces(c, full)[..k - 1] + [chunk];
  }

  lemma {:induction false} Prefetches(c: nat, full: nat, n: nat, k: nat) returns (steps: seq<Step>)
    requires c > 0 && k <= full + 1
    ensures Reaches(NextReading(n), Init(c, full + 1, Tape(c, full)), steps, Filled(c, full, k))
  {
    var init := Init(c, full + 1, Tape(c, full));
    if k == 0 {
      steps := [];
      assert 0 * c == 0;
    } else {
      var before := Prefetches(c, full, n, k - 1);
      var mid := FillStep(c, full, n, k);
      ReachesSnoc(NextReading(n), init, before, Filled(c, full, k - 1), ReadChunk, mid);
      steps := before + [ReadChunk];
      ReachesSnoc(NextReading(n), init, steps, mid, SendChunk, Filled(c, full, k));
      steps := steps + [SendChunk];
    }
  }

  /** After `j` chunks have been received by the first Read. */
  function Draining(c: nat, full: nat, n: nat, j: nat): State
    requires j <= full
  {
    Filled(c, full, full + 1).(channel := Pieces(c, full)[j..], consumer := Receiving(n, Zeros(j * c)))
  }

  lemma DrainStep(c: nat, full: nat, n: nat, j: nat)
    requires c > 0 && 0 < j < full && j * c < n
    ensures (j - 1) * c < j * c
    ensures NextReading(n)(Draining(c, full, n, j - 1), Receive) == Some(Draining(c, full, n, j))
  {
    var s := Draining(c, full, n, j - 1);
    assert j * c == (j - 1) * c + c;
    assert Zeros((j - 1) * c) + Zeros(c) == Zeros(j * c);
    assert s.channel[0] == Zeros(c) && s.channel[1..] == Pieces(c, full)[j..];
  }

  lemma DrainStart(c: nat, full: nat, n: nat)
    requires c > 0 && n > 0
    ensures NextReading(n)(Filled(c, full, full + 1), StartRead(n)) == Some(Draining(c, full, n, 0))
  {
    assert Pieces(c, full)[..full + 1] == Pieces(c, full)[0..];
    assert 0 * c == 0 && Zeros(0) == [];
  }

  lemma {:induction false} Drains(c: nat, full: nat, n: nat, j: nat) returns (steps: seq<Step>)
    requires c > 0 && j < full && j * c < n
    ensures Reaches(NextReading(n), Init(c, full + 1, Tape(c, full)), steps, Draining(c, full, n, j))
  {
    var init := Init(c, full + 1, Tape(c, full));
    if j == 0 {
      steps := Prefetches(c, full, n, full + 1);
      DrainStart(c, full, n);
      ReachesSnoc(NextReading(n), init, steps, Filled(c, full, full + 1), StartRead(n), Draining(c, full, n, 0));
      steps := steps + [StartRead(n)];
    } else {
      DrainStep(c, full, n, j);
      steps := Drains(c, full, n, j - 1);
      ReachesSnoc(NextReading(n), init, steps, Draining(c, full, n, j - 1), Receive, Draining(c, full, n, j));
      steps := steps + [Receive];
    }
  }

  /** The first Read splits a chunk and re-queues its remainder behind the ones. */
  lemma SplitSteps(c: nat, n: nat, q: nat, r: nat) returns (s1: State, s2: State)
    requires n == q * c + r && 0 < r < c
    ensures NextReading(n)(Draining(c, q + 1, n, q), Receive) == Some(s1)
    ensures NextReading(n)(s1, PutBack) == Some(s2)
    ensures s2.consumer.Resting? && s2.delivered == Zeros(n) && s2.stored.None? && !s2.panicked
    ensures s2.channel == [Ones(c), Zeros(c)[r..]]
  {
    var s0 := Draining(c, q + 1, n, q);
    assert s0.channel == [Zeros(c), Ones(c)];
    assert Zeros(q * c) + Zeros(c)[..r] == Zeros(n);
    s1 := s0.(channel := [Ones(c)], consumer := PuttingBack(n, Zeros(n), Zeros(c)[r..]));
    assert s0.channel[1..] == s1.channel;
    s2 := Apply(s1, PutBack);
    assert [] + Zeros(n) == Zeros(n);
  }

  /** The second Read then takes the ones. */
  lemma WrongBytes(c: nat, n: nat, s2: State) returns (s3: State, s4: State)
    requires c > 0 && n > 0 && s2.consumer.Resting? && s2.stored.None? && !s2.panicked
    requires s2.channel != [] && s2.channel[0] == Ones(c)
    ensures NextReading(n)(s2, StartRead(n)) == Some(s3)
    ensures NextReading(n)(s3, Receive) == Some(s4)
    ensures |s2.delivered| < |Handed(s4)| && Handed(s4)[|s2.delivered|] == 1
  {
    s3 := s2.(consumer := Receiving(n, []));
    s4 := Apply(s3, Receive);
    assert Ones(c)[0] == 1;
    assert Handed(s4) == s2.delivered + Ones(c)[..if c <= n then c else n];
  }

  lemma SplitRun(c: nat, n: nat, q: nat, r: nat) returns (steps: seq<Step>, s2: State)
    requires n == q * c + r && 0 < r < c
    ensures Reaches(NextReading(n), Init(c, q + 2, Tape(c, q + 1)), steps, s2)
    ensures s2.consumer.Resting? && s2.delivered == Zeros(n) && s2.stored.None? && !s2.panicked
    ensures s2.channel != [] && s2.channel[0] == Ones(c)
  {
    steps := Drains(c, q + 1, n, q);
    var s1;
    s1, s2 := SplitSteps(c, n, q, r);
    ReachesTwo(NextReading(n), Init(c, q + 2, Tape(c, q + 1)), steps, Draining(c, q + 1, n, q), Receive, s1, PutBack,
        s2);
    steps := steps + [Receive] + [PutBack];
  }

  lemma OutOfOrderRun(c: nat, n: nat, q: nat, r: nat) returns (steps: seq<Step>, t: State)
    requires n == q * c + r && 0 < r < c
    ensures Reaches(NextReading(n), Init(c, q + 2, Tape(c, q + 1)), steps, t)
    ensures n < |Handed(t)| && Handed(t)[n] == 1
  {
    var s2, s3;
    steps, s2 := SplitRun(c, n, q, r);
    s3, t := WrongBytes(c, n, s2);
    ReachesTwo(NextReading(n), Init(c, q + 2, Tape(c, q + 1)), steps, s2, StartRead(n), s3, Receive, t);
    steps := steps + [StartRead(n)] + [Receive];
  }

  lemma TapeZero(c: nat, n: nat, q: nat, r: nat)
    requires n == q * c + r && r < c
    ensures n < |Tape(c, q + 1).data| && Tape(c, q + 1).data[n] == 0
  {
    assert (q + 1) * c == q * c + c;
  }

  lemma MisalignedBreaks(c: nat, n: nat, q: nat, r: nat)
    requires n == q * c + r && 0 < r < c
    ensures !AlwaysInOrder(c, n)
  {
    var steps, t := OutOfOrderRun(c, n, q, r);
    TapeZero(c, n, q, r);
    assert !(Handed(t) <= Tape(c, q + 1).data);
  }

  /**
   * The exact condition: a caller that always reads with a buffer of length n is served in order, on
   * every source and under every schedule, if and only if n is a multiple of the chunk size.
   */
  lemma ExactReadCondition(chunkSize: nat, n: nat)
    requires chunkSize > 0
    ensures AlwaysInOrder(chunkSize, n) <==> n % chunkSize == 0
  {
    MultipleIsMod(n, chunkSize);
    if n % chunkSize == 0 {
      AlignedIsInOrder(chunkSize, n);
    } else {
      MisalignedBreaks(chunkSize, n, n / chunkSize, n % chunkSize);
    }
  }
}
