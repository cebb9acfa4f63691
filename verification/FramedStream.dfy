// The streaming encryptor of internal/kms/envelope.go: writes are buffered, cut into 64 KiB chunks,
// and each chunk leaves as one frame - 4-byte big-endian length, nonce, ciphertext.
module FramedStream {
  import opened Core
  import opened Aead

  const CHUNK_SIZE := 64 * 1024
  const MAX_FRAME := 16 * 1024 * 1024

  datatype Error = NoEntropy | TooLarge | WriterFailed | CloserFailed

  datatype Frame = Frame(nonce: Bytes, ciphertext: Bytes)

  // ---------------------------------------------------------------- the wire format

  /** byte(n>>24), byte(n>>16), byte(n>>8), byte(n). */
  function Header(n: nat): Bytes {
    [(n / 0x1000000 % 256) as Byte, (n / 0x10000 % 256) as Byte, (n / 0x100 % 256) as Byte, (n % 256) as Byte]
  }

  function FrameLength(header: Bytes): nat
    requires |header| == 4
  {
    (header[0] as nat) * 0x1000000 + (header[1] as nat) * 0x10000 + (header[2] as nat) * 0x100 + (header[3] as nat)
  }

  function FrameBytes(f: Frame): Bytes { Header(|f.nonce| + |f.ciphertext|) + f.nonce + f.ciphertext }

  function Wire(frames: seq<Frame>): Bytes {
    if frames == [] then [] else FrameBytes(frames[0]) + Wire(frames[1..])
  }

  /** Reading frames back: length, then nonce, then the rest of the frame. */
  function Parse(wire: Bytes): Option<seq<Frame>>
    decreases |wire|
  {
    if wire == [] then Some([])
    else if |wire| < 4 then None
    else
      var n := FrameLength(wire[..4]);
      if n < NONCE_SIZE || |wire| < 4 + n then None
      else
        var rest := Parse(wire[4 + n..]);
        if rest.None? then None
        else Some([Frame(wire[4..4 + NONCE_SIZE], wire[4 + NONCE_SIZE..4 + n])] + rest.value)
  }

  predicate WellFormed(f: Frame) { |f.nonce| == NONCE_SIZE && |f.nonce| + |f.ciphertext| < 0x1_0000_0000 }

  lemma HeaderRoundTrip(n: nat)
    requires n < 0x1_0000_0000
    ensures FrameLength(Header(n)) == n
  {
    var a, b, c := n / 0x100, n / 0x10000, n / 0x1000000;
    assert n == a * 0x100 + n % 256;
    assert a == b * 0x100 + a % 256 && a / 0x100 == b;
    assert b == c * 0x100 + b % 256 && b / 0x100 == c;
  }

  /** A frame starts with its length, most significant byte first. */
  predicate StartsWithLength(wire: Bytes, n: nat) {
    |wire| >= 4
    && n == (wire[0] as nat) * 0x1000000 + (wire[1] as nat) * 0x10000 + (wire[2] as nat) * 0x100 + (wire[3] as nat)
  }

  lemma FrameLayout(f: Frame)
    requires |f.nonce| + |f.ciphertext| < 0x1_0000_0000
    ensures StartsWithLength(FrameBytes(f), |f.nonce| + |f.ciphertext|)
    ensures FrameBytes(f)[4..] == f.nonce + f.ciphertext
  {
    HeaderRoundTrip(|f.nonce| + |f.ciphertext|);
  }

  lemma LayoutBehind(before: Bytes, f: Frame, after: Bytes)
    requires after == before + FrameBytes(f) && |f.nonce| + |f.ciphertext| < 0x1_0000_0000
    ensures StartsWithLength(after[|before|..], |f.nonce| + |f.ciphertext|)
    ensures after[|before| + 4..] == f.nonce + f.ciphertext
  {
    FrameLayout(f);
    assert after[|before|..] == FrameBytes(f) && after[|before| + 4..] == FrameBytes(f)[4..];
  }

  lemma ParseFrame(f: Frame, rest: Bytes)
    requires WellFormed(f)
    ensures Parse(FrameBytes(f) + rest)
         == if Parse(rest).None? then None else Some([f] + Parse(rest).value)
  {
    var n := |f.nonce| + |f.ciphertext|;
    var wire := FrameBytes(f) + rest;
    HeaderRoundTrip(n);
    assert wire[..4] == Header(n);
    assert wire[4..4 + NONCE_SIZE] == f.nonce;
    assert wire[4 + NONCE_SIZE..4 + n] == f.ciphertext;
    assert wire[4 + n..] == rest;
  }

  /** Frames read back are the frames written. */
  lemma {:induction false} ParseWire(frames: seq<Frame>)
    requires forall i :: 0 <= i < |frames| ==> WellFormed(frames[i])
    ensures Parse(Wire(frames)) == Some(frames)
  {
    if frames != [] {
      ParseWire(frames[1..]);
      ParseFrame(frames[0], Wire(frames[1..]));
      assert [frames[0]] + frames[1..] == frames;
    }
  }

  /** ... so one wire has one reading. */
  lemma WireUnique(a: seq<Frame>, b: seq<Frame>)
    requires forall i :: 0 <= i < |a| ==> WellFormed(a[i])
    requires forall i :: 0 <= i < |b| ==> WellFormed(b[i])
    requires Wire(a) == Wire(b)
    ensures a == b
  {
    ParseWire(a);
    ParseWire(b);
  }

  lemma {:induction false} WireSnoc(frames: seq<Frame>, f: Frame)
    ensures Wire(frames + [f]) == Wire(frames) + FrameBytes(f)
  {
    if frames == [] {
      assert [] + [f] == [f];
      assert Wire([f][1..]) == [];
    } else {
      assert (frames + [f])[1..] == frames[1..] + [f];
      WireSnoc(frames[1..], f);
    }
  }

  // ---------------------------------------------------------------- chunking a buffer

  /** The whole chunks at the front of `data`. */
  function Whole(data: Bytes): seq<Bytes>
    decreases |data|
  {
    if |data| < CHUNK_SIZE then [] else [data[..CHUNK_SIZE]] + Whole(data[CHUNK_SIZE..])
  }

  /** What is left after them. */
  function Rest(data: Bytes): Bytes
    decreases |data|
  {
    if |data| < CHUNK_SIZE then data else Rest(data[CHUNK_SIZE..])
  }

  lemma {:induction false} WholeThenRest(data: Bytes)
    ensures Chunks(data, CHUNK_SIZE) == Whole(data) + if Rest(data) == [] then [] else [Rest(data)]
    decreases |data|
  {
    if |data| > CHUNK_SIZE {
      WholeThenRest(data[CHUNK_SIZE..]);
    } else if |data| == CHUNK_SIZE {
      assert data[..CHUNK_SIZE] == data && data[CHUNK_SIZE..] == [];
    }
  }

  lemma {:induction false} RestIsShort(data: Bytes)
    ensures |Rest(data)| < CHUNK_SIZE && Whole(Rest(data)) == [] && Rest(Rest(data)) == Rest(data)
    decreases |data|
  {
    if |data| >= CHUNK_SIZE { RestIsShort(data[CHUNK_SIZE..]); }
  }

  /** Buffering: cutting a buffer that already lost its whole chunks and then got more bytes. */
  lemma {:induction false} WholeAppend(a: Bytes, b: Bytes)
    ensures Whole(a + b) == Whole(a) + Whole(Rest(a) + b)
    ensures Rest(a + b) == Rest(Rest(a) + b)
    decreases |a|
  {
    if |a| >= CHUNK_SIZE {
      WholeAppend(a[CHUNK_SIZE..], b);
      assert (a + b)[..CHUNK_SIZE] == a[..CHUNK_SIZE];
      assert (a + b)[CHUNK_SIZE..] == a[CHUNK_SIZE..] + b;
    }
  }

  /** What a Write does to the chunks sent and the bytes kept, and a sequence of them. */
  datatype Progress = Progress(sent: seq<Bytes>, kept: Bytes)

  function AfterWrite(s: Progress, p: Bytes): Progress { Progress(s.sent + Whole(s.kept + p), Rest(s.kept + p)) }

  function AfterWrites(writes: seq<Bytes>): Progress {
    if writes == [] then Progress([], []) else AfterWrite(AfterWrites(writes[..|writes| - 1]), writes[|writes| - 1])
  }

  function AfterClose(s: Progress): seq<Bytes> { s.sent + if s.kept == [] then [] else [s.kept] }

  lemma {:induction false} WritesSplit(writes: seq<Bytes>)
    ensures AfterWrites(writes) == Progress(Whole(Concat(writes)), Rest(Concat(writes)))
  {
    if writes != [] {
      var n := |writes| - 1;
      WritesSplit(writes[..n]);
      WholeAppend(Concat(writes[..n]), writes[n]);
    }
  }

  /**
   * The chunks depend only on what was written, not on how it was split into Writes: they are the 64 KiB
   * chunking of the concatenation, every chunk but the last exactly 64 KiB.
   */
  lemma ChunkingIgnoresSplits(writes: seq<Bytes>)
    ensures AfterClose(AfterWrites(writes)) == Chunks(Concat(writes), CHUNK_SIZE)
    ensures IsChunking(AfterClose(AfterWrites(writes)), Concat(writes), CHUNK_SIZE)
  {
    WritesSplit(writes);
    WholeThenRest(Concat(writes));
    ChunksIsChunking(Concat(writes), CHUNK_SIZE);
  }

  // ---------------------------------------------------------------- sealing and opening

  function SealAll(a: Scheme, key: Bytes, nonces: seq<Bytes>, chunks: seq<Bytes>): seq<Frame>
    requires |nonces| == |chunks|
  {
    seq(|chunks|, i requires 0 <= i < |chunks| => Frame(nonces[i], a.seal(key, nonces[i], chunks[i])))
  }

  /** Opening every frame in order. */
  function OpenAll(a: Scheme, key: Bytes, frames: seq<Frame>): Option<seq<Bytes>> {
    if frames == [] then Some([])
    else
      var front := OpenAll(a, key, frames[..|frames| - 1]);
      var last := a.open(key, frames[|frames| - 1].nonce, frames[|frames| - 1].ciphertext);
      if front.None? || last.None? then None else Some(front.value + [last.value])
  }

  lemma {:induction false} OpenSealAll(a: Scheme, key: Bytes, nonces: seq<Bytes>, chunks: seq<Bytes>)
    requires Lawful(a) && |nonces| == |chunks|
    ensures OpenAll(a, key, SealAll(a, key, nonces, chunks)) == Some(chunks)
  {
    if chunks != [] {
      var n := |chunks| - 1;
      assert SealAll(a, key, nonces, chunks)[..n] == SealAll(a, key, nonces[..n], chunks[..n]);
      OpenSealAll(a, key, nonces[..n], chunks[..n]);
      assert SealAll(a, key, nonces, chunks)[n] == Frame(nonces[n], a.seal(key, nonces[n], chunks[n]));
      assert chunks[..n] + [chunks[n]] == chunks;
    }
  }

  predicate NoncesOk(nonces: seq<Bytes>) { forall i :: 0 <= i < |nonces| ==> |nonces[i]| == NONCE_SIZE }

  /** The frame of this chunk passes the 16 MiB guard. */
  predicate Passes(chunk: Bytes) { NONCE_SIZE + |chunk| + TAG_SIZE <= MAX_FRAME }

  predicate AllPass(chunks: seq<Bytes>) { forall i :: 0 <= i < |chunks| ==> Passes(chunks[i]) }

  /** Chunks that passed the guard, sealed under proper nonces, come back from the wire one by one. */
  lemma WireOpens(a: Scheme, key: Bytes, nonces: seq<Bytes>, chunks: seq<Bytes>)
    requires Lawful(a) && |nonces| == |chunks| && NoncesOk(nonces) && AllPass(chunks)
    ensures var wire := Wire(SealAll(a, key, nonces, chunks));
            Parse(wire).Some? && OpenAll(a, key, Parse(wire).value) == Some(chunks)
  {
    var frames := SealAll(a, key, nonces, chunks);
    forall i | 0 <= i < |frames| ensures WellFormed(frames[i]) {
      assert Passes(chunks[i]) && |frames[i].ciphertext| == |chunks[i]| + TAG_SIZE;
    }
    ParseWire(frames);
    OpenSealAll(a, key, nonces, chunks);
  }

  /**
   * Round trip: for every sequence of successful Writes followed by Close, no chunk trips the 16 MiB guard and the
   * output parses as frames whose opened chunks are the 64 KiB chunks of everything written.
   */
  lemma StreamRoundTrip(a: Scheme, key: Bytes, nonces: seq<Bytes>, writes: seq<Bytes>)
    requires Lawful(a) && NoncesOk(nonces) && |nonces| == |AfterClose(AfterWrites(writes))|
    ensures var chunks := AfterClose(AfterWrites(writes));
            var wire := Wire(SealAll(a, key, nonces, chunks));
            && AllPass(chunks) && Parse(wire).Some? && OpenAll(a, key, Parse(wire).value) == Some(chunks)
            && Concat(chunks) == Concat(writes)
  {
    ChunkingIgnoresSplits(writes);
    WireOpens(a, key, nonces, AfterClose(AfterWrites(writes)));
  }

  /** Every chunk is exactly 64 KiB. */
  ghost predicate FullChunks(chunks: seq<Bytes>) { forall i :: 0 <= i < |chunks| ==> |chunks[i]| == CHUNK_SIZE }

  /**
   * Closing after a Write that failed frames everything kept as one chunk: what was sent stays a 64 KiB chunking if and
   * only if no more than one chunk was kept, and the guard stops it if and only if more than 16 MiB - 28 bytes were.
   */
  lemma CloseAfterFailure(s: Progress)
    requires FullChunks(s.sent)
    ensures Concat(AfterClose(s)) == Concat(s.sent) + s.kept
    ensures IsChunking(AfterClose(s), Concat(s.sent) + s.kept, CHUNK_SIZE) <==> |s.kept| <= CHUNK_SIZE
    ensures AllPass(AfterClose(s)) <==> |s.kept| <= MAX_FRAME - NONCE_SIZE - TAG_SIZE
  {
    var all := AfterClose(s);
    if s.kept == [] {
      assert all == s.sent && Concat(s.sent) + s.kept == Concat(s.sent);
    } else {
      ConcatSnoc(s.sent, s.kept);
      assert all[|s.sent|] == s.kept;
      assert forall i :: 0 <= i < |s.sent| ==> all[i] == s.sent[i];
    }
  }

  // ---------------------------------------------------------------- the encryptor

  /** An io.Writer that may start failing. */
  class Writer {
    var contents: Bytes
    var acceptsMore: nat   // how many more calls succeed

    method Write(p: Bytes) returns (ok: bool)
      modifies this
      ensures ok == (old(acceptsMore) > 0)
      ensures contents == if ok then old(contents) + p else old(contents)
      ensures acceptsMore == old(acceptsMore) - if ok then 1 else 0
    {
      ok := acceptsMore > 0;
      if ok { contents, acceptsMore := contents + p, acceptsMore - 1; }
    }
  }

  class StreamEncryptor {
    const writer: Writer
    const scheme: Scheme
    const key: Bytes                  // what the cipher was keyed with
    const plaintextKey: array<Byte>   // dataKey.PlaintextKey
    var buffer: Bytes
    var entropy: seq<Bytes>           // the nonces the random source will still give
    ghost var nonces: seq<Bytes>      // those that were framed
    ghost var sent: seq<Bytes>        // the chunks framed so far
    ghost var closed: bool            // Close has framed the rest

    /** Whatever failed so far. */
    ghost predicate Usable()
      reads this
    {
      && Lawful(scheme) && |nonces| == |sent| && NoncesOk(nonces) && NoncesOk(entropy) && AllPass(sent)
      && (!closed ==> FullChunks(sent))
    }

    /** No frame was torn: the output is exactly the frames of the chunks sent. */
    ghost predicate Valid()
      reads this, writer
    {
      Usable() && writer.contents == Wire(SealAll(scheme, key, nonces, sent))
    }

    ghost function State(): Progress
      reads this
    {
      Progress(sent, buffer)
    }

    constructor (writer: Writer, scheme: Scheme, plaintextKey: array<Byte>, entropy: seq<Bytes>)
      requires Lawful(scheme) && NoncesOk(entropy) && writer.contents == []
      ensures Valid() && !closed && State() == AfterWrites([]) && this.writer == writer
              && this.plaintextKey == plaintextKey
      ensures key == plaintextKey[..] && this.entropy == entropy
    {
      this.writer, this.scheme, this.plaintextKey, this.entropy := writer, scheme, plaintextKey, entropy;
      key := plaintextKey[..];
      buffer, nonces, sent, closed := [], [], [], false;
    }

    /** Header, nonce and ciphertext in three writes, any of which may fail and leave the front of the frame behind. */
    method WriteChunk(nonce: Bytes, ciphertext: Bytes) returns (err: Option<Error>)
      modifies writer
      ensures err == Some(TooLarge) <==> |nonce| + |ciphertext| > MAX_FRAME
      ensures err.None? ==> writer.contents == old(writer.contents) + FrameBytes(Frame(nonce, ciphertext))
      ensures err == Some(TooLarge) ==> writer.contents == old(writer.contents)
      ensures old(writer.contents) <= writer.contents <= old(writer.contents) + FrameBytes(Frame(nonce, ciphertext))
      ensures err.Some? ==> err.value == TooLarge || err.value == WriterFailed
      ensures err.None? <==> |nonce| + |ciphertext| <= MAX_FRAME && old(writer.acceptsMore) >= 3
      ensures err.None? ==>
                writer.acceptsMore == old(writer.acceptsMore) - 3
                && StartsWithLength(writer.contents[|old(writer.contents)|..], |nonce| + |ciphertext|)
                && writer.contents[|old(writer.contents)| + 4..] == nonce + ciphertext
    {
      var chunkLen := |nonce| + |ciphertext|;
      if chunkLen > MAX_FRAME { return Some(TooLarge); }
      ghost var before := writer.contents;
      ghost var header := Header(chunkLen);
      assert before + FrameBytes(Frame(nonce, ciphertext)) == before + header + nonce + ciphertext;
      var ok := writer.Write(Header(chunkLen));
      if !ok { return Some(WriterFailed); }
      ok := writer.Write(nonce);
      if !ok { return Some(WriterFailed); }
      ok := writer.Write(ciphertext);
      if !ok { return Some(WriterFailed); }
      err := None;
      LayoutBehind(before, Frame(nonce, ciphertext), writer.contents);
    }

    /**
     * One chunk, of any size, becomes one whole frame behind what was there; it is refused for its size exactly when
     * its frame exceeds 16 MiB, and then, or without a nonce, nothing is written.
     */
    method EncryptChunk(chunk: Bytes) returns (err: Option<Error>)
      requires Usable() && 0 < |chunk| && (closed || |chunk| == CHUNK_SIZE)
      modifies writer, `entropy, `nonces, `sent
      ensures Usable() && (old(Valid()) && err != Some(WriterFailed) ==> Valid())
      ensures err.None? ==> sent == old(sent) + [chunk] && Passes(chunk) && |nonces| > 0
      ensures err.None? ==>
                writer.contents == old(writer.contents)
                    + FrameBytes(Frame(nonces[|nonces| - 1], scheme.seal(key, nonces[|nonces| - 1], chunk)))
      ensures err.Some? ==> sent == old(sent) && nonces == old(nonces)
      ensures err == Some(NoEntropy) <==> old(entropy) == []
      ensures err == Some(TooLarge) <==> old(entropy) != [] && !Passes(chunk)
      ensures err == Some(NoEntropy) || err == Some(TooLarge) ==> writer.contents == old(writer.contents)
      ensures err != Some(CloserFailed) && old(writer.contents) <= writer.contents
      ensures err.None? <==> old(entropy) != [] && Passes(chunk) && old(writer.acceptsMore) >= 3
      ensures err.None? ==>
                nonces == old(nonces) + [old(entropy)[0]] && entropy == old(entropy)[1..]
                && writer.acceptsMore == old(writer.acceptsMore) - 3
    {
      if entropy == [] { return Some(NoEntropy); }
      var nonce := entropy[0];
      entropy := entropy[1..];
      var ciphertext := scheme.seal(key, nonce, chunk);
      err := WriteChunk(nonce, ciphertext);
      if err.None? {
        ghost var before := SealAll(scheme, key, nonces, sent);
        nonces, sent := nonces + [nonce], sent + [chunk];
        assert SealAll(scheme, key, nonces, sent) == before + [Frame(nonce, ciphertext)];
        WireSnoc(before, Frame(nonce, ciphertext));
      }
    }

    /**
     * A successful Write sends exactly the chunks that AfterWrite says and keeps the rest, whatever earlier Writes left
     * behind; the size guard never fires.  A failing one reports the full length all the same and keeps the chunk it
     * could not send and what follows it.  An empty one does nothing.
     */
    method Write(p: Bytes) returns (n: nat, err: Option<Error>)
      requires Usable()
      modifies this, writer
      ensures Usable() && n == |p| && closed == old(closed) && old(writer.contents) <= writer.contents
      ensures p == [] ==> err.None? && State() == old(State()) && writer.contents == old(writer.contents)
      ensures err.None? && p != [] ==> State() == AfterWrite(old(State()), p)
      ensures old(|buffer|) < CHUNK_SIZE && err.None? ==>
              State() == AfterWrite(old(State()), p) && |buffer| < CHUNK_SIZE
      ensures err.Some? ==> (err.value == NoEntropy || err.value == WriterFailed) && |buffer| >= CHUNK_SIZE
      ensures err.Some? ==>
              sent + Whole(buffer) == old(sent) + Whole(old(buffer) + p) && Rest(buffer) == Rest(old(buffer) + p)
      ensures old(Valid()) && err != Some(WriterFailed) ==> Valid()
      ensures err.None? ==> Spent(|sent| - old(|sent|), old(|entropy|), old(writer.acceptsMore))
      ensures p != [] ==> (err.None? <==> Lasts(|Whole(old(buffer) + p)|, old(|entropy|), old(writer.acceptsMore)))
    {
      if |p| == 0 {
        assert buffer + p == buffer;
        return 0, None;
      }
      ghost var all := buffer + p;
      buffer := buffer + p;
      n, err := |p|, None;
      while |buffer| >= CHUNK_SIZE
        invariant Usable() && closed == old(closed) && old(writer.contents) <= writer.contents && n == |p| && err.None?
        invariant sent + Whole(buffer) == old(sent) + Whole(all) && Rest(buffer) == Rest(all)
        invariant old(Valid()) ==> Valid()
        invariant |sent| >= old(|sent|) && Spent(|sent| - old(|sent|), old(|entropy|), old(writer.acceptsMore))
        invariant |sent| + |Whole(buffer)| == old(|sent|) + |Whole(all)|
        decreases |buffer|
      {
        err := SendNext();
        if err.Some? { return; }
      }
      RestIsShort(all);
    }

    /** A frame takes a nonce and three writes: there are enough of both for `chunks` frames. */
    static predicate Lasts(chunks: nat, nonces: nat, accepts: nat) { chunks <= nonces && 3 * chunks <= accepts }

    /** ... and those for `chunks` frames have been used up. */
    ghost predicate Spent(chunks: int, nonces: nat, accepts: nat)
      reads this, writer
    {
      |entropy| == nonces - chunks && writer.acceptsMore == accepts - 3 * chunks
    }

    /** The body of that loop. */
    method SendNext() returns (err: Option<Error>)
      requires Usable() && |buffer| >= CHUNK_SIZE
      modifies writer, `entropy, `nonces, `sent, `buffer
      ensures Usable() && old(writer.contents) <= writer.contents
              && (old(Valid()) && err != Some(WriterFailed) ==> Valid())
      ensures sent + Whole(buffer) == old(sent + Whole(buffer)) && Rest(buffer) == old(Rest(buffer))
      ensures if err.None? then |buffer| == old(|buffer|) - CHUNK_SIZE
              else (err.value == NoEntropy || err.value == WriterFailed) && buffer == old(buffer)
      ensures err.None? <==> old(entropy) != [] && old(writer.acceptsMore) >= 3
      ensures err.None? ==> |sent| == old(|sent|) + 1 && Spent(1, old(|entropy|), old(writer.acceptsMore))
    {
      var chunk := buffer[..CHUNK_SIZE];
      err := EncryptChunk(chunk);
      if err.Some? { return; }
      buffer := buffer[CHUNK_SIZE..];
      assert old(sent) + ([chunk] + Whole(buffer)) == sent + Whole(buffer);
    }

    /** clearSensitiveData on the plaintext key. */
    method Wipe()
      modifies plaintextKey
      ensures forall i :: 0 <= i < plaintextKey.Length ==> plaintextKey[i] == 0
    {
      for i := 0 to plaintextKey.Length
        invariant forall j :: 0 <= j < i ==> plaintextKey[j] == 0
      {
        plaintextKey[i] := 0;
      }
    }

    /**
     * Close sends whatever was kept as one chunk, wipes the plaintext key and closes the writer. When that chunk cannot
     * be sent - because its frame exceeds 16 MiB, say, after a Write that failed - it returns before wiping.
     */
    method Close(closerFails: bool) returns (err: Option<Error>)
      requires Usable()
      modifies this, writer, plaintextKey
      ensures Usable() && old(writer.contents) <= writer.contents
              && (old(Valid()) && err != Some(WriterFailed) ==> Valid())
      ensures var done := err.None? || err == Some(CloserFailed);
              && closed == (old(closed) || done)
              && (done ==> sent == AfterClose(old(State())) && buffer == [])
              && (done ==> forall i :: 0 <= i < plaintextKey.Length ==> plaintextKey[i] == 0)
              && (!done ==> State() == old(State()) && plaintextKey[..] == old(plaintextKey[..]))
      ensures (err.None? || err == Some(CloserFailed)) && !old(closed) ==>
                && Concat(sent) == Concat(old(sent)) + old(buffer)
                && (IsChunking(sent, Concat(sent), CHUNK_SIZE) <==> old(|buffer|) <= CHUNK_SIZE)
      ensures err == Some(TooLarge) <==> old(entropy) != [] && !Passes(old(buffer))
      ensures err == Some(NoEntropy) <==> old(buffer) != [] && old(entropy) == []
      ensures err == Some(CloserFailed) ==> closerFails
      ensures err.None? <==>
                !closerFails
                && (old(buffer) != [] ==> old(entropy) != [] && Passes(old(buffer)) && old(writer.acceptsMore) >= 3)
    {
      if !closed { CloseAfterFailure(State()); }
      ghost var wasClosed := closed;
      closed := true;
      if |buffer| > 0 {
        err := EncryptChunk(buffer);
        if err.Some? {
          closed := wasClosed;
          return;
        }
        buffer := [];
      }
      Wipe();
      err := if closerFails then Some(CloserFailed) else None;
    }
  }

  /** No Write has sent more chunks than there are in the end. */
  lemma SentSoFar(writes: seq<Bytes>, i: nat)
    requires i <= |writes|
    ensures |AfterWrites(writes[..i]).sent| <= |Chunks(Concat(writes), CHUNK_SIZE)|
  {
    assert writes == writes[..i] + writes[i..];
    ConcatAppend(writes[..i], writes[i..]);
    WholeAppend(Concat(writes[..i]), Concat(writes[i..]));
    WritesSplit(writes[..i]);
    WholeThenRest(Concat(writes));
  }

  /**
   * Any split of the data into Writes: after Close the output is the wire of the sealed 64 KiB chunks of the
   * concatenation, and reading it back gives the concatenation. It succeeds exactly when there is a nonce, and the
   * writer accepts three writes, for each of those chunks.
   */
  method EncryptStream(e: StreamEncryptor, writes: seq<Bytes>) returns (ok: bool)
    requires e.Valid() && e.State() == AfterWrites([])
    modifies e, e.writer, e.plaintextKey
    ensures ok <==>
            var chunks := |Chunks(Concat(writes), CHUNK_SIZE)|;
            chunks <= old(|e.entropy|) && 3 * chunks <= old(e.writer.acceptsMore)
    ensures ok ==> e.Valid() && e.sent == Chunks(Concat(writes), CHUNK_SIZE)
    ensures ok ==> Parse(e.writer.contents).Some?
    ensures ok ==> OpenAll(e.scheme, e.key, Parse(e.writer.contents).value) == Some(Chunks(Concat(writes), CHUNK_SIZE))
  {
    for i := 0 to |writes|
      invariant e.Valid() && e.State() == AfterWrites(writes[..i]) && |e.buffer| < CHUNK_SIZE
      invariant e.Spent(|e.sent|, old(|e.entropy|), old(e.writer.acceptsMore))
    {
      assert writes[..i + 1][..i] == writes[..i];
      SentSoFar(writes, i + 1);
      ghost var sofar := e.buffer;
      var n, err := e.Write(writes[i]);
      if err.Some? {
        assert |AfterWrites(writes[..i + 1]).sent| == |AfterWrites(writes[..i]).sent| + |Whole(sofar + writes[i])|;
        return false;
      }
    }
    assert writes[..|writes|] == writes;
    ChunkingIgnoresSplits(writes);
    ghost var kept := e.buffer;
    assert |Chunks(Concat(writes), CHUNK_SIZE)| == |e.sent| + if kept == [] then 0 else 1;
    var err := e.Close(false);
    ok := err.None?;
    if ok { WireOpens(e.scheme, e.key, e.nonces, e.sent); }
  }
}
