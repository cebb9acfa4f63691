// The unframed chunk cipher of internal/encryption/stream/aes_gcm.go: a reader that seals whatever each
// underlying read gives under a nonce derived from the chunk number, and a reader that opens it again.
module ChunkedAead {
  import opened Core
  import opened Runs
  import opened Aead

  const CHUNK_SIZE := 4 * 1024 * 1024

  // ---------------------------------------------------------------- nonces

  /** Bitwise exclusive or of the low `bits` bits. */
  function Xor(a: nat, b: nat, bits: nat): nat {
    if bits == 0 then 0 else (if a % 2 == b % 2 then 0 else 1) + 2 * Xor(a / 2, b / 2, bits - 1)
  }

  lemma {:induction false} XorFits(a: nat, b: nat, bits: nat)
    ensures Xor(a, b, bits) < Pow(2, bits)
  {
    if bits > 0 { XorFits(a / 2, b / 2, bits - 1); }
  }

  function Pow(base: nat, e: nat): nat { if e == 0 then 1 else base * Pow(base, e - 1) }

  /** Exclusive or with a fixed value loses nothing. */
  lemma {:induction false} XorInjective(a: nat, x: nat, y: nat, bits: nat)
    requires Xor(a, x, bits) == Xor(a, y, bits) && x < Pow(2, bits) && y < Pow(2, bits)
    ensures x == y
  {
    if bits > 0 {
      assert x % 2 == y % 2;
      XorInjective(a / 2, x / 2, y / 2, bits - 1);
    }
  }

  /** byte(n >> (8*i)). */
  function Digit(n: nat, i: nat): nat
    ensures Digit(n, i) < 256
  {
    if i == 0 then n % 256 else Digit(n / 256, i - 1)
  }

  lemma {:induction false} DigitsDetermine(m: nat, n: nat, k: nat)
    requires m < Pow(256, k) && n < Pow(256, k)
    requires forall i :: 0 <= i < k ==> Digit(m, i) == Digit(n, i)
    ensures m == n
  {
    if k > 0 {
      assert Digit(m, 0) == Digit(n, 0);
      forall i | 0 <= i < k - 1 ensures Digit(m / 256, i) == Digit(n / 256, i) {
        assert Digit(m, i + 1) == Digit(n, i + 1);
      }
      DigitsDetermine(m / 256, n / 256, k - 1);
    }
  }

  function XorByte(b: Byte, d: nat): Byte
  {
    XorFits(b as nat, d, 8);
    assert Pow(2, 8) == 256 by { PowTwoEight(); }
    Xor(b as nat, d, 8) as Byte
  }

  lemma PowTwoEight()
    ensures Pow(2, 8) == 256
  {
    assert Pow(2, 4) == 16;
  }

  /** The nonce of chunk `n`: its number, least significant byte first, XORed into the first 8 bytes. */
  function ChunkNonce(nonce: Bytes, n: nat): Bytes {
    seq(|nonce|, i requires 0 <= i < |nonce| => if i < 8 then XorByte(nonce[i], Digit(n, i)) else nonce[i])
  }

  /** The loop that derives it, in place on a copy. */
  method DeriveNonce(nonce: Bytes, chunkNum: nat) returns (chunkNonce: array<Byte>)
    ensures fresh(chunkNonce) && chunkNonce[..] == ChunkNonce(nonce, chunkNum)
  {
    chunkNonce := new Byte[|nonce|](i requires 0 <= i < |nonce| => nonce[i]);
    var i := 0;
    while i < 8 && i < chunkNonce.Length
      invariant 0 <= i <= 8 && i <= |nonce|
      invariant forall j :: 0 <= j < |nonce| ==>
        chunkNonce[j] == if j < i then XorByte(nonce[j], Digit(chunkNum, j)) else nonce[j]
    {
      chunkNonce[i] := XorByte(chunkNonce[i], Digit(chunkNum, i));
      i := i + 1;
    }
  }

  /** Bit `k` of a number. */
  function Bit(n: nat, k: nat): nat { if k == 0 then n % 2 else Bit(n / 2, k - 1) }

  lemma {:induction false} XorBit(a: nat, b: nat, bits: nat, k: nat)
    requires k < bits
    ensures Bit(Xor(a, b, bits), k) == (Bit(a, k) + Bit(b, k)) % 2
  {
    var x := Xor(a / 2, b / 2, bits - 1);
    assert Xor(a, b, bits) / 2 == x && Xor(a, b, bits) % 2 == (a % 2 + b % 2) % 2;
    if k > 0 { XorBit(a / 2, b / 2, bits - 1, k - 1); }
  }

  lemma {:induction false} PowPositive(base: nat, e: nat)
    requires base > 0
    ensures Pow(base, e) > 0
  {
    if e > 0 { PowPositive(base, e - 1); }
  }

  /** Byte `i` of a number, counted from the least significant: what is left after shifting and truncating. */
  lemma {:induction false} DigitIsByte(n: nat, i: nat)
    ensures Pow(256, i) > 0 && Digit(n, i) == n / Pow(256, i) % 256
  {
    PowPositive(256, i);
    if i > 0 {
      DigitIsByte(n / 256, i - 1);
      DivideTwice(n, Pow(256, i - 1));
    }
  }

  lemma DivideTwice(n: nat, d: nat)
    requires d > 0
    ensures n / (256 * d) == n / 256 / d
  {
    var m := n / 256;
    var q, r := m / d, m % d;
    TimesScaled(d, q);
    DivUnique(n, 256 * d, q, 256 * r + n % 256);
  }

  lemma {:induction false} TimesScaled(d: nat, q: nat)
    ensures (256 * d) * q == 256 * (d * q)
  {
    if q > 0 {
      TimesScaled(d, q - 1);
      TimesSucc(d, q);
      TimesSucc(256 * d, q);
    }
  }

  lemma TimesSucc(d: nat, q: nat)
    requires q > 0
    ensures d * q == d * (q - 1) + d
  {
  }

  /** The nonce of chunk `n`, bit by bit: byte i < 8 is XORed with byte i of the number, the others stay. */
  lemma ChunkNonceBits(nonce: Bytes, n: nat, i: nat, k: nat)
    requires i < |nonce| && k < 8
    ensures |ChunkNonce(nonce, n)| == |nonce| && Pow(256, i) > 0
    ensures i >= 8 ==> ChunkNonce(nonce, n)[i] == nonce[i]
    ensures i < 8 ==> Bit(ChunkNonce(nonce, n)[i] as nat, k)
                      == (Bit(nonce[i] as nat, k) + Bit(n / Pow(256, i) % 256, k)) % 2
  {
    PowTwoEight();
    DigitIsByte(n, i);
    XorBit(nonce[i] as nat, Digit(n, i), 8, k);
  }

  /** Chunk numbers below 2^64 - all an int can hold - get pairwise distinct nonces. */
  lemma NoncesDistinct(nonce: Bytes, m: nat, n: nat)
    requires |nonce| >= 8 && m < Pow(256, 8) && n < Pow(256, 8)
    requires ChunkNonce(nonce, m) == ChunkNonce(nonce, n)
    ensures m == n
  {
    PowTwoEight();
    forall i | 0 <= i < 8 ensures Digit(m, i) == Digit(n, i) {
      assert ChunkNonce(nonce, m)[i] == ChunkNonce(nonce, n)[i];
      XorInjective(nonce[i] as nat, Digit(m, i), Digit(n, i), 8);
    }
    DigitsDetermine(m, n, 8);
  }

  // ---------------------------------------------------------------- sealing

  datatype Session = Session(scheme: Scheme, key: Bytes, nonce: Bytes)

  datatype Error = EndOfFile | BufferTooSmall | ShortBuffer | SourceFailed | OpenFailed

  function SealChunk(s: Session, i: nat, piece: Bytes): Bytes { s.scheme.seal(s.key, ChunkNonce(s.nonce, i), piece) }

  function SealPieces(s: Session, pieces: seq<Bytes>): seq<Bytes> {
    seq(|pieces|, i requires 0 <= i < |pieces| => SealChunk(s, i, pieces[i]))
  }

  lemma SealSnoc(s: Session, pieces: seq<Bytes>, piece: Bytes)
    ensures Concat(SealPieces(s, pieces + [piece])) == Concat(SealPieces(s, pieces)) + SealChunk(s, |pieces|, piece)
  {
    assert SealPieces(s, pieces + [piece]) == SealPieces(s, pieces) + [SealChunk(s, |pieces|, piece)];
    ConcatSnoc(SealPieces(s, pieces), SealChunk(s, |pieces|, piece));
  }

  /** What the underlying reader reports besides its bytes; CutShort is io.ErrUnexpectedEOF itself. */
  datatype Status = Fine | AtEnd | CutShort | Fault

  /** The encrypting reader: how far the source has been read, and the reader's own fields. */
  datatype Enc = Enc(pos: nat, chunkNum: nat, eof: bool)

  function Least(a: int, b: int): int { if a <= b then a else b }

  /** A Read with a buffer of `room` bytes whose underlying read gives `got` bytes. */
  datatype EncOp = EncOp(room: nat, got: nat, status: Status)

  /** An honest underlying reader: it fits the request, and end of file comes at the end. */
  predicate HonestRead(data: Bytes, s: Enc, op: EncOp) {
    && s.pos + op.got <= |data| && op.got <= Least(op.room - TAG_SIZE, CHUNK_SIZE)
    && (op.status.AtEnd? ==> s.pos + op.got == |data|)
  }

  predicate SourceFails(status: Status) { status.CutShort? || status.Fault? }

  /** One Read: the new fields, and what the caller gets. */
  function EncRead(session: Session, data: Bytes, s: Enc, op: EncOp): (Enc, Result<Bytes, Error>)
    requires !s.eof && op.room > TAG_SIZE ==> HonestRead(data, s, op)
  {
    if s.eof then (s, Err(EndOfFile))
    else if op.room <= TAG_SIZE then (s, Err(BufferTooSmall))
    else if SourceFails(op.status) then (s.(pos := s.pos + op.got), Err(SourceFailed))
    else if op.got == 0 then (s.(eof := true), Err(EndOfFile))
    else
      (Enc(s.pos + op.got, s.chunkNum + 1, op.status.AtEnd?),
       Ok(SealChunk(session, s.chunkNum, data[s.pos..s.pos + op.got])))
  }

  /** A byte source with a position. */
  class Source {
    const data: Bytes
    var pos: nat

    constructor (data: Bytes)
      ensures this.data == data && pos == 0
    {
      this.data, pos := data, 0;
    }

    method Read(got: nat) returns (bytes: Bytes)
      requires pos + got <= |data|
      modifies this
      ensures pos == old(pos) + got && bytes == data[old(pos)..pos]
    {
      bytes, pos := data[pos..pos + got], pos + got;
    }
  }

  class EncryptingReader {
    const session: Session
    const reader: Source
    var chunkNum: nat
    var eof: bool

    ghost function State(): Enc
      reads this, reader
    {
      Enc(reader.pos, chunkNum, eof)
    }

    constructor (session: Session, reader: Source)
      requires reader.pos == 0
      ensures State() == Enc(0, 0, false) && this.session == session && this.reader == reader
    {
      this.session, this.reader, chunkNum, eof := session, reader, 0, false;
    }

    /**
     * A Read answers the bytes the source has just given, sealed under the nonce of this chunk number - which always
     * fit - or an error, each for exactly one reason; the chunk number counts the answers.
     */
    method Read(op: EncOp) returns (r: Result<Bytes, Error>)
      requires Lawful(session.scheme)
      requires !eof && op.room > TAG_SIZE ==> HonestRead(reader.data, State(), op)
      modifies this, reader
      ensures (State(), r) == EncRead(session, reader.data, old(State()), op)
      ensures r.Ok? ==> |r.value| <= op.room
      ensures r.Ok? ==> op.got > 0 && reader.pos == old(reader.pos) + op.got <= |reader.data|
      ensures r.Ok? ==> r.value == session.scheme.seal(session.key, ChunkNonce(session.nonce, old(chunkNum)),
                                                       reader.data[old(reader.pos)..reader.pos])
      ensures chunkNum == old(chunkNum) + if r.Ok? then 1 else 0
      ensures var asks := !old(eof) && op.room > TAG_SIZE;
              var fails := op.status.CutShort? || op.status.Fault?;
              && (r.Ok? <==> asks && !fails && op.got > 0)
              && (r == Err(BufferTooSmall) <==> !old(eof) && op.room <= TAG_SIZE)
              && (r == Err(SourceFailed) <==> asks && fails)
              && (r == Err(EndOfFile) <==> old(eof) || (asks && !fails && op.got == 0))
      ensures eof <==> r == Err(EndOfFile) || (r.Ok? && op.status.AtEnd?)
    {
      if eof { return Err(EndOfFile); }
      var maxPlaintext := op.room - TAG_SIZE;
      if maxPlaintext <= 0 { return Err(BufferTooSmall); }
      var bytes := reader.Read(op.got);
      if SourceFails(op.status) { return Err(SourceFailed); }
      if |bytes| == 0 {
        eof := true;
        return Err(EndOfFile);
      }
      var nonce := DeriveNonce(session.nonce, chunkNum);
      chunkNum := chunkNum + 1;
      var sealed := session.scheme.seal(session.key, nonce[..], bytes);
      if op.status.AtEnd? { eof := true; }
      r := Ok(sealed);
    }
  }

  /** A run of Reads: the reader, the pieces of the source behind its answers, and the bytes of all answers so far. */
  datatype EncRun = EncRun(reader: Enc, pieces: seq<Bytes>, handed: Bytes)

  const ENC_START := EncRun(Enc(0, 0, false), [], [])

  /** One more Read; runs end when the source fails. */
  ghost function NextEnc(session: Session, data: Bytes): (EncRun, EncOp) -> Option<EncRun> {
    (e: EncRun, op: EncOp) =>
      if !e.reader.eof && op.room > TAG_SIZE && !HonestRead(data, e.reader, op) then None
      else
        var (t, r) := EncRead(session, data, e.reader, op);
        if r == Err(SourceFailed) then None
        else if r.Err? then Some(e.(reader := t))
        else if e.reader.pos <= t.pos <= |data| then
          Some(EncRun(t, e.pieces + [data[e.reader.pos..t.pos]], e.handed + r.value))
        else None
  }

  /** Pieces that a sealer makes: none is empty or longer than a chunk. */
  ghost predicate PiecesOk(pieces: seq<Bytes>) { forall i :: 0 <= i < |pieces| ==> 0 < |pieces[i]| <= CHUNK_SIZE }

  ghost predicate EncOk(session: Session, data: Bytes, e: EncRun) {
    && e.reader.pos <= |data| && e.reader.chunkNum == |e.pieces|
    && Concat(e.pieces) == data[..e.reader.pos]
    && PiecesOk(e.pieces)
    && e.handed == Concat(SealPieces(session, e.pieces))
  }

  lemma EncStep(session: Session, data: Bytes, e: EncRun, op: EncOp)
    requires EncOk(session, data, e) && NextEnc(session, data)(e, op).Some?
    ensures EncOk(session, data, NextEnc(session, data)(e, op).value)
  {
    if !e.reader.eof && op.room > TAG_SIZE && op.got > 0 { SealsOneMore(session, data, e, op.got, op.status.AtEnd?); }
  }

  lemma SealsOneMore(session: Session, data: Bytes, e: EncRun, got: nat, eof: bool)
    requires EncOk(session, data, e) && e.reader.pos + got <= |data| && 0 < got <= CHUNK_SIZE
    ensures var s := e.reader;
            var piece := data[s.pos..s.pos + got];
            EncOk(session, data, EncRun(Enc(s.pos + got, s.chunkNum + 1, eof), e.pieces + [piece],
                                        e.handed + SealChunk(session, s.chunkNum, piece)))
  {
    var s := e.reader;
    var piece := data[s.pos..s.pos + got];
    ConcatSnoc(e.pieces, piece);
    SealSnoc(session, e.pieces, piece);
    assert data[..s.pos] + piece == data[..s.pos + got];
  }

  /** Chunk `i` of a stream: the piece, sealed under the nonce of number `i`. */
  lemma SealedChunk(s: Session, pieces: seq<Bytes>, i: nat)
    requires i < |pieces|
    ensures SealPieces(s, pieces)[i] == s.scheme.seal(s.key, ChunkNonce(s.nonce, i), pieces[i])
  {
  }

  /**
   * As long as the source does not fail, and whatever sizes the reads have, the answers glued together are the sealed
   * pieces in order, one per chunk number, and the pieces are the source so far.
   */
  lemma SealedInOrder(session: Session, data: Bytes, ops: seq<EncOp>, e: EncRun)
    requires Reaches(NextEnc(session, data), ENC_START, ops, e)
    ensures e.reader.pos <= |data| && e.reader.chunkNum == |e.pieces|
    ensures Concat(e.pieces) == data[..e.reader.pos] && PiecesOk(e.pieces)
    ensures e.handed == Concat(SealPieces(session, e.pieces))
  {
    var next, inv := NextEnc(session, data), (e: EncRun) => EncOk(session, data, e);
    forall e, op | inv(e) && next(e, op).Some? ensures inv(next(e, op).value) { EncStep(session, data, e, op); }
    assert SealPieces(session, []) == [];
    RunKeeps(next, inv, ENC_START, ops, e);
  }

  /** Reaching the end is complete if and only if the last underlying read was not an empty one before the end. */
  lemma EndIsComplete(session: Session, data: Bytes, e: EncRun, op: EncOp)
    requires EncOk(session, data, e) && !e.reader.eof && op.room > TAG_SIZE
    requires NextEnc(session, data)(e, op).Some? && NextEnc(session, data)(e, op).value.reader.eof
    ensures Concat(NextEnc(session, data)(e, op).value.pieces) == data <==>
              op.status.AtEnd? || e.reader.pos == |data|
  {
    assert data[..|data|] == data;
    if op.got > 0 {
      SealsOneMore(session, data, e, op.got, true);
    } else if e.reader.pos < |data| {
      assert |Concat(e.pieces)| == e.reader.pos;
    }
  }

  // ---------------------------------------------------------------- opening

  /** The decrypting reader: how far the source has been read, and the reader's own fields. */
  datatype Dec = Dec(pos: nat, chunkNum: nat, eof: bool)

  /** A Read into `room` bytes for which io.ReadAtLeast gathers `got` bytes, the last of them with `status`. */
  datatype DecOp = DecOp(room: nat, got: nat, status: Status)

  /** io.ReadAtLeast stops at the buffer's end, or early at TAG_SIZE + 1 bytes, or at an error. */
  predicate Gathers(wire: Bytes, d: Dec, op: DecOp) {
    && d.pos + op.got <= |wire| && op.got <= Least(op.room, CHUNK_SIZE) + TAG_SIZE
    && (op.status.Fine? ==> op.got > TAG_SIZE)
    && (op.status.AtEnd? ==> d.pos + op.got == |wire|)
  }

  /** An error of the source counts only if too few bytes were gathered before it. */
  predicate GatherFails(op: DecOp) { op.status.Fault? && op.got <= TAG_SIZE }

  /** One Read: the new fields, and what the caller gets. */
  function DecRead(s: Session, wire: Bytes, d: Dec, op: DecOp): (Dec, Result<Bytes, Error>)
    requires !d.eof && op.room > 0 ==> Gathers(wire, d, op)
  {
    if d.eof then (d, Err(EndOfFile))
    else if op.room == 0 then (d, Err(ShortBuffer))
    else if GatherFails(op) then (d.(pos := d.pos + op.got), Err(SourceFailed))
    else if op.got == 0 then (d.(eof := true), Err(EndOfFile))
    else
      var plain := s.scheme.open(s.key, ChunkNonce(s.nonce, d.chunkNum), wire[d.pos..d.pos + op.got]);
      (Dec(d.pos + op.got, d.chunkNum + 1, false), if plain.None? then Err(OpenFailed) else Ok(plain.value))
  }

  class DecryptingReader {
    const session: Session
    const reader: Source
    var chunkNum: nat
    var eof: bool

    ghost function State(): Dec
      reads this, reader
    {
      Dec(reader.pos, chunkNum, eof)
    }

    constructor (session: Session, reader: Source)
      requires reader.pos == 0
      ensures State() == Dec(0, 0, false) && this.session == session && this.reader == reader
    {
      this.session, this.reader, chunkNum, eof := session, reader, 0, false;
    }

    /**
     * A Read answers what the gathered bytes open to under the nonce of this chunk number - which always fits -, or an
     * error, each for exactly one reason.
     */
    method Read(op: DecOp) returns (r: Result<Bytes, Error>)
      requires Lawful(session.scheme)
      requires !eof && op.room > 0 ==> Gathers(reader.data, State(), op)
      modifies this, reader
      ensures (State(), r) == DecRead(session, reader.data, old(State()), op)
      ensures r.Ok? ==> |r.value| <= op.room
      ensures reader.pos == old(reader.pos) + if !old(eof) && op.room > 0 then op.got else 0
      ensures reader.pos <= |reader.data| || reader.pos == old(reader.pos)
      ensures var asks := !old(eof) && op.room > 0;
              var fails := op.status.Fault? && op.got <= TAG_SIZE;
              && (r == Err(ShortBuffer) <==> !old(eof) && op.room == 0)
              && (r == Err(SourceFailed) <==> asks && fails)
              && (r == Err(EndOfFile) <==> old(eof) || (asks && !fails && op.got == 0))
              && (asks && !fails && op.got > 0 ==>
                    var plain := session.scheme.open(session.key, ChunkNonce(session.nonce, old(chunkNum)),
                                                     reader.data[old(reader.pos)..reader.pos]);
                    r == if plain.Some? then Ok(plain.value) else Err(OpenFailed))
    {
      if eof { return Err(EndOfFile); }
      var maxEncrypted := Least(op.room + TAG_SIZE, CHUNK_SIZE + TAG_SIZE);
      if maxEncrypted < TAG_SIZE + 1 { return Err(ShortBuffer); }
      var bytes := reader.Read(op.got);
      if |bytes| < TAG_SIZE + 1 {
        if op.status.Fault? { return Err(SourceFailed); }
        if |bytes| == 0 {
          eof := true;
          return Err(EndOfFile);
        }
      }
      var nonce := DeriveNonce(session.nonce, chunkNum);
      chunkNum := chunkNum + 1;
      var plain := session.scheme.open(session.key, nonce[..], bytes);
      if plain.None? { return Err(OpenFailed); }
      r := Ok(plain.value);
    }
  }

  /** The sealed stream. */
  function Wire(s: Session, pieces: seq<Bytes>): Bytes { Concat(SealPieces(s, pieces)) }

  /**
   * A run of Reads: the reader, whether it took the source's own io.ErrUnexpectedEOF for the end, and the bytes of all
   * answers so far.
   */
  datatype DecRun = DecRun(reader: Dec, cut: bool, handed: Bytes)

  const DEC_START := DecRun(Dec(0, 0, false), false, [])

  /** One more Read; runs end at the first error, of which end of file is none. */
  ghost function NextDec(s: Session, wire: Bytes): (DecRun, DecOp) -> Option<DecRun> {
    (d: DecRun, op: DecOp) =>
      if !d.reader.eof && op.room > 0 && !Gathers(wire, d.reader, op) then None
      else
        var (t, r) := DecRead(s, wire, d.reader, op);
        if r.Ok? then Some(DecRun(t, d.cut, d.handed + r.value))
        else if r.error != EndOfFile then None
        else Some(DecRun(t, d.cut || (!d.reader.eof && op.status.CutShort?), d.handed))
  }

  /** The run after the first `k` chunks. */
  function After(s: Session, pieces: seq<Bytes>, k: nat): DecRun
    requires k <= |pieces|
  {
    DecRun(Dec(|Wire(s, pieces[..k])|, k, false), false, Concat(pieces[..k]))
  }

  /** Where the next chunk of the wire is. */
  lemma NextChunk(s: Session, pieces: seq<Bytes>, k: nat)
    requires k < |pieces|
    ensures var pos := |Wire(s, pieces[..k])|;
            var chunk := SealChunk(s, k, pieces[k]);
            && pos + |chunk| == |Wire(s, pieces[..k + 1])| <= |Wire(s, pieces)|
            && Wire(s, pieces)[pos..pos + |chunk|] == chunk
  {
    var all, front := SealPieces(s, pieces), SealPieces(s, pieces[..k]);
    var chunk := SealChunk(s, k, pieces[k]);
    assert SealPieces(s, pieces[..k + 1]) == front + [chunk];
    assert all == (front + [chunk]) + all[k + 1..];
    ConcatSnoc(front, chunk);
    ConcatAppend(front + [chunk], all[k + 1..]);
  }

  /** A Read that gathers exactly the chunk of `piece`. */
  predicate TakesChunk(piece: Bytes, op: DecOp) {
    0 < |piece| <= Least(op.room, CHUNK_SIZE) && op.got == |piece| + TAG_SIZE
  }

  lemma TakesNext(s: Session, pieces: seq<Bytes>, k: nat, op: DecOp)
    requires Lawful(s.scheme) && k < |pieces| && TakesChunk(pieces[k], op)
    requires op.status.AtEnd? ==> k == |pieces| - 1
    ensures NextDec(s, Wire(s, pieces))(After(s, pieces, k), op) == Some(After(s, pieces, k + 1))
  {
    NextChunk(s, pieces, k);
    assert pieces[..k + 1] == pieces[..k] + [pieces[k]];
    ConcatSnoc(pieces[..k], pieces[k]);
    if k == |pieces| - 1 { assert pieces[..k + 1] == pieces; }
  }

  /** One read per chunk, each gathering exactly its chunk. */
  ghost predicate Aligned(pieces: seq<Bytes>, ops: seq<DecOp>) {
    && |ops| == |pieces|
    && forall i :: 0 <= i < |ops| ==> TakesChunk(pieces[i], ops[i]) && (ops[i].status.AtEnd? ==> i == |ops| - 1)
  }

  lemma {:induction false} AlignedPrefix(s: Session, pieces: seq<Bytes>, ops: seq<DecOp>, k: nat)
    requires Lawful(s.scheme) && Aligned(pieces, ops) && k <= |ops|
    ensures Reaches(NextDec(s, Wire(s, pieces)), DEC_START, ops[..k], After(s, pieces, k))
  {
    if k == 0 {
      assert SealPieces(s, pieces[..0]) == [] && ops[..0] == [];
    } else {
      AlignedPrefix(s, pieces, ops, k - 1);
      TakesNext(s, pieces, k - 1, ops[k - 1]);
      ReachesSnoc(NextDec(s, Wire(s, pieces)), DEC_START, ops[..k - 1], After(s, pieces, k - 1), ops[k - 1],
          After(s, pieces, k));
      assert ops[..k] == ops[..k - 1] + [ops[k - 1]];
    }
  }

  /**
   * Aligned reads return the whole source without an error, and the read after them answers end of file.  Nothing but
   * the laws of the scheme is needed.
   */
  lemma AlignedReadsAll(s: Session, pieces: seq<Bytes>, ops: seq<DecOp>, room: nat)
    requires Lawful(s.scheme) && Aligned(pieces, ops) && room > 0
    ensures var wire := Wire(s, pieces);
            var all, ended := Dec(|wire|, |pieces|, false), Dec(|wire|, |pieces|, true);
            && Reaches(NextDec(s, wire), DEC_START, ops, DecRun(all, false, Concat(pieces)))
            && Reaches(NextDec(s, wire), DEC_START, ops + [DecOp(room, 0, AtEnd)], DecRun(ended, false, Concat(pieces)))
  {
    AlignedPrefix(s, pieces, ops, |ops|);
    assert ops[..|ops|] == ops && pieces[..|pieces|] == pieces;
    var d := After(s, pieces, |pieces|);
    ReachesSnoc(NextDec(s, Wire(s, pieces)), DEC_START, ops, d, DecOp(room, 0, AtEnd),
        d.(reader := d.reader.(eof := true)));
  }

  // ---------------------------------------------------------------- reads that are not aligned

  /** As many chunk numbers as an int can tell apart. */
  const CHUNK_NUMBERS := Pow(256, 8)

  /**
   * Unforgeability for this session: among the stretches of this wire, opening under the nonce of chunk `i`
   * succeeds only on what was sealed under it.
   */
  ghost predicate OnlySealedOpens(s: Session, pieces: seq<Bytes>) { Unforgeable(s, pieces, Wire(s, pieces)) }

  ghost predicate Unforgeable(s: Session, pieces: seq<Bytes>, wire: Bytes) {
    forall i: nat, lo, hi :: i < CHUNK_NUMBERS && 0 <= lo <= hi <= |wire| ==> NoForgery(s, pieces, i, wire[lo..hi])
  }

  ghost predicate NoForgery(s: Session, pieces: seq<Bytes>, i: nat, stretch: Bytes) {
    s.scheme.open(s.key, ChunkNonce(s.nonce, i), stretch).Some? ==>
        i < |pieces| && stretch == SealChunk(s, i, pieces[i])
  }

  /** A session and the pieces sealed in it, with chunk numbers that do not wrap around and no forgeries. */
  ghost predicate Sound(s: Session, pieces: seq<Bytes>) {
    Lawful(s.scheme) && PiecesOk(pieces) && |pieces| < CHUNK_NUMBERS && OnlySealedOpens(s, pieces)
  }

  /** In step with the sealer: exactly the first chunks have been consumed and their pieces returned. */
  ghost predicate InStep(s: Session, pieces: seq<Bytes>, d: DecRun) {
    && d.reader.chunkNum <= |pieces|
    && d.reader.pos == |Wire(s, pieces[..d.reader.chunkNum])| <= |Wire(s, pieces)|
    && d.handed == Concat(pieces[..d.reader.chunkNum])
    && (d.reader.eof && !d.cut ==> d.reader.chunkNum == |pieces|)
  }

  lemma WireEnds(s: Session, pieces: seq<Bytes>, k: nat)
    requires Lawful(s.scheme) && k <= |pieces|
    ensures |Wire(s, pieces[..k])| == |Wire(s, pieces)| <==> k == |pieces|
  {
    if k < |pieces| { NextChunk(s, pieces, k); } else { assert pieces[..k] == pieces; }
  }

  /** At the start of chunk k, a stretch of the wire opens under nonce k if and only if it is that chunk. */
  lemma OpensExactly(s: Session, pieces: seq<Bytes>, k: nat, pos: nat, got: nat)
    requires Sound(s, pieces) && k <= |pieces|
    requires pos == |Wire(s, pieces[..k])| && pos + got <= |Wire(s, pieces)|
    ensures s.scheme.open(s.key, ChunkNonce(s.nonce, k), Wire(s, pieces)[pos..pos + got])
         == if k < |pieces| && got == |pieces[k]| + TAG_SIZE then Some(pieces[k]) else None
  {
    var stretch := Wire(s, pieces)[pos..pos + got];
    assert NoForgery(s, pieces, k, stretch);
    if k < |pieces| && got == |pieces[k]| + TAG_SIZE { NextChunk(s, pieces, k); }
  }

  lemma StepsOn(s: Session, pieces: seq<Bytes>, d: DecRun)
    requires Lawful(s.scheme) && InStep(s, pieces, d) && d.reader.chunkNum < |pieces| && !d.reader.eof
    ensures var piece := pieces[d.reader.chunkNum];
            InStep(s, pieces, DecRun(Dec(d.reader.pos + |piece| + TAG_SIZE, d.reader.chunkNum + 1, false), d.cut,
                                     d.handed + piece))
  {
    var k := d.reader.chunkNum;
    NextChunk(s, pieces, k);
    ConcatSnoc(pieces[..k], pieces[k]);
    assert pieces[..k + 1] == pieces[..k] + [pieces[k]];
  }

  /**
   * In step, a Read succeeds if and only if it gathered exactly the next sealed chunk, and then it returns that
   * chunk's piece and stays in step.
   */
  lemma ReadExactly(s: Session, pieces: seq<Bytes>, d: DecRun, op: DecOp)
    requires Sound(s, pieces) && InStep(s, pieces, d)
    requires !d.reader.eof && op.room > 0 && Gathers(Wire(s, pieces), d.reader, op)
    ensures var (t, r) := DecRead(s, Wire(s, pieces), d.reader, op);
            var k := d.reader.chunkNum;
            && (r.Ok? <==> k < |pieces| && op.got == |pieces[k]| + TAG_SIZE)
            && (r.Ok? ==> r.value == pieces[k] && InStep(s, pieces, DecRun(t, d.cut, d.handed + r.value)))
  {
    OpensExactly(s, pieces, d.reader.chunkNum, d.reader.pos, op.got);
    if d.reader.chunkNum < |pieces| { StepsOn(s, pieces, d); }
  }

  lemma {:induction false} PiecesMissing(pieces: seq<Bytes>, k: nat)
    requires PiecesOk(pieces) && k <= |pieces|
    ensures Concat(pieces[..k]) <= Concat(pieces)
    ensures Concat(pieces[..k]) == Concat(pieces) <==> k == |pieces|
  {
    assert pieces == pieces[..k] + pieces[k..];
    ConcatAppend(pieces[..k], pieces[k..]);
    if k < |pieces| {
      var last := |pieces[k..]| - 1;
      assert |Concat(pieces[k..])| >= |pieces[k..][last]|;
    } else {
      assert pieces[..k] == pieces;
    }
  }

  /**
   * A failing source, exactly: its error surfaces as an error of the Read unless enough bytes came before it or it is
   * io.ErrUnexpectedEOF; and what is missing goes unnoticed if and only if the source fails with that error before the
   * end of the wire, having given nothing.
   */
  lemma SourceFaultExactly(s: Session, pieces: seq<Bytes>, d: DecRun, op: DecOp)
    requires Sound(s, pieces) && InStep(s, pieces, d)
    requires !d.reader.eof && op.room > 0 && Gathers(Wire(s, pieces), d.reader, op)
    ensures var r := DecRead(s, Wire(s, pieces), d.reader, op).1;
            && (r == Err(SourceFailed) <==> op.status.Fault? && op.got <= TAG_SIZE)
            && (r == Err(EndOfFile) && d.handed != Concat(pieces) <==>
                  op.status.CutShort? && op.got == 0 && d.reader.pos < |Wire(s, pieces)|)
  {
    WireEnds(s, pieces, d.reader.chunkNum);
    PiecesMissing(pieces, d.reader.chunkNum);
  }

  lemma DecStepInStep(s: Session, pieces: seq<Bytes>, d: DecRun, op: DecOp)
    requires Sound(s, pieces) && InStep(s, pieces, d) && NextDec(s, Wire(s, pieces))(d, op).Some?
    ensures InStep(s, pieces, NextDec(s, Wire(s, pieces))(d, op).value)
  {
    if !d.reader.eof && op.room > 0 {
      if op.got > 0 { ReadExactly(s, pieces, d, op); } else { WireEnds(s, pieces, d.reader.chunkNum); }
    }
  }

  /**
   * Chunked decryption is safe: over a wire sealed from `pieces`, for any buffer sizes, any short reads and any
   * failures of the source, the answers before the first error are a prefix of the source; and end of file
   * means all of it unless the source ended with io.ErrUnexpectedEOF.
   */
  lemma DecryptsAPrefix(s: Session, pieces: seq<Bytes>, ops: seq<DecOp>, d: DecRun)
    requires Sound(s, pieces) && Reaches(NextDec(s, Wire(s, pieces)), DEC_START, ops, d)
    ensures d.handed <= Concat(pieces)
    ensures d.reader.eof && !d.cut ==> d.handed == Concat(pieces)
  {
    var next, inv := NextDec(s, Wire(s, pieces)), (d: DecRun) => InStep(s, pieces, d);
    forall d, op | inv(d) && next(d, op).Some? ensures inv(next(d, op).value) { DecStepInStep(s, pieces, d, op); }
    assert SealPieces(s, pieces[..0]) == [];
    RunKeeps(next, inv, DEC_START, ops, d);
    PiecesMissing(pieces, d.reader.chunkNum);
  }

  /**
   * From one reader to the other: any run of reads over the answers of any run of the encrypting reader answers a
   * prefix of the source again, and all of what was sealed at a true end of file.
   */
  lemma SealThenOpen(s: Session, data: Bytes, encOps: seq<EncOp>, e: EncRun, decOps: seq<DecOp>, d: DecRun)
    requires Reaches(NextEnc(s, data), ENC_START, encOps, e) && Sound(s, e.pieces)
    requires Reaches(NextDec(s, e.handed), DEC_START, decOps, d)
    ensures e.reader.pos <= |data| && d.handed <= data[..e.reader.pos]
    ensures d.reader.eof && !d.cut ==> d.handed == data[..e.reader.pos]
  {
    SealedInOrder(s, data, encOps, e);
    DecryptsAPrefix(s, e.pieces, decOps, d);
  }

  // ---------------------------------------------------------------- the assumptions can be met

  /** A tag that holds the length of the plaintext and the nonce, and ends in 9. */
  function ToyTag(nonce: Bytes, length: nat): Bytes {
    [(length % 256) as Byte] + (if |nonce| == NONCE_SIZE then nonce else Zeros(NONCE_SIZE)) + [7, 8, 9]
  }

  function ToySeal(nonce: Bytes, p: Bytes): Bytes { p + ToyTag(nonce, |p|) }

  function ToyOpen(nonce: Bytes, c: Bytes): Option<Bytes> {
    if |c| >= TAG_SIZE && c[|c| - TAG_SIZE..] == ToyTag(nonce, |c| - TAG_SIZE) then Some(c[..|c| - TAG_SIZE]) else None
  }

  function ToyScheme(): Scheme { Scheme((k, n, p) => ToySeal(n, p), (k, n, c) => ToyOpen(n, c)) }

  lemma ToyOpensSealed(nonce: Bytes, p: Bytes)
    ensures ToyOpen(nonce, ToySeal(nonce, p)) == Some(p) && |ToySeal(nonce, p)| == |p| + TAG_SIZE
  {
    assert ToySeal(nonce, p)[..|p|] == p;
  }

  lemma ToySealsOpened(nonce: Bytes, c: Bytes)
    requires ToyOpen(nonce, c).Some?
    ensures c == ToySeal(nonce, ToyOpen(nonce, c).value)
  {
    assert c == c[..|c| - TAG_SIZE] + c[|c| - TAG_SIZE..];
  }

  lemma ToyLawful()
    ensures Lawful(ToyScheme())
  {
    forall k: Bytes, n, p ensures ToyScheme().open(k, n, ToyScheme().seal(k, n, p)) == Some(p) { ToyOpensSealed(n, p); }
    forall k: Bytes, n, p ensures |ToyScheme().seal(k, n, p)| == |p| + TAG_SIZE { ToyOpensSealed(n, p); }
    forall k: Bytes, n, c | ToyScheme().open(k, n, c).Some?
      ensures c == ToyScheme().seal(k, n, ToyScheme().open(k, n, c).value)
    {
      ToySealsOpened(n, c);
    }
  }

  lemma {:induction false} XorZero(x: nat, bits: nat)
    requires x < Pow(2, bits)
    ensures Xor(0, x, bits) == x
  {
    if bits > 0 { XorZero(x / 2, bits - 1); }
  }

  lemma {:induction false} DigitSmall(n: nat, i: nat)
    requires n < 256
    ensures Digit(n, i) == if i == 0 then n else 0
  {
    if i > 0 { DigitSmall(n / 256, i - 1); }
  }

  /** The first nonces of a session that starts at zero. */
  lemma SmallNonce(n: nat)
    requires n < 256
    ensures ChunkNonce(Zeros(NONCE_SIZE), n) == [n as Byte] + Zeros(NONCE_SIZE - 1)
  {
    PowTwoEight();
    forall i | 0 <= i < NONCE_SIZE
      ensures ChunkNonce(Zeros(NONCE_SIZE), n)[i] == ([n as Byte] + Zeros(NONCE_SIZE - 1))[i]
    {
      if i < 8 {
        DigitSmall(n, i);
        XorZero(Digit(n, i), 8);
      }
    }
  }

  function ToySession(): Session { Session(ToyScheme(), [], Zeros(NONCE_SIZE)) }

  /** What sealing one byte under one of the first nonces gives. */
  function ToyChunk(b: Byte, n: Byte): Bytes { [b, 1, n] + Zeros(11) + [7, 8, 9] }

  lemma ToySeals(b: Byte, n: Byte)
    ensures SealChunk(ToySession(), n as nat, [b]) == ToyChunk(b, n)
  {
    SmallNonce(n as nat);
    var nonce := ChunkNonce(Zeros(NONCE_SIZE), n as nat);
    assert SealChunk(ToySession(), n as nat, [b]) == [b] + ToyTag(nonce, 1);
    assert [b] + ([1] + ([n] + Zeros(11)) + [7, 8, 9]) == [b, 1, n] + Zeros(11) + [7, 8, 9];
  }

  const TOY_PIECES: seq<Bytes> := [[1], [2]]

  function ToyBytes(): Bytes { ToyChunk(1, 0) + ToyChunk(2, 1) }

  lemma ToyWire()
    ensures Wire(ToySession(), TOY_PIECES) == ToyBytes()
  {
    var s := ToySession();
    ToySeals(1, 0);
    ToySeals(2, 1);
    assert SealPieces(s, TOY_PIECES) == [ToyChunk(1, 0)] + [ToyChunk(2, 1)];
    ConcatSnoc([ToyChunk(1, 0)], ToyChunk(2, 1));
    ConcatOne(ToyChunk(1, 0));
  }

  /** Where a tag can end. */
  lemma ToyEnds(hi: nat)
    requires 0 < hi <= |ToyBytes()| && ToyBytes()[hi - 1] == 9
    ensures hi == 17 || hi == 34
  {
  }

  /** A stretch that carries the tag of nonce `i` is one of the two chunks. */
  lemma ToyTagged(nonce: Bytes, lo: nat, hi: nat)
    requires |nonce| == NONCE_SIZE && lo + TAG_SIZE <= hi <= |ToyBytes()|
    requires ToyBytes()[hi - TAG_SIZE..hi] == ToyTag(nonce, hi - lo - TAG_SIZE)
    ensures (lo == 0 && hi == 17 && nonce == [0] + Zeros(11)) || (lo == 17 && hi == 34 && nonce == [1] + Zeros(11))
  {
    var wire, tag := ToyBytes(), ToyTag(nonce, hi - lo - TAG_SIZE);
    assert wire[hi - TAG_SIZE..hi][15] == tag[15] == 9;
    ToyEnds(hi);
    assert wire[hi - TAG_SIZE..hi][0] == tag[0] == 1;
    assert nonce == tag[1..13];
    if hi == 17 {
      assert wire[1..17] == ToyChunk(1, 0)[1..];
      ToyChunkNonce(1, 0);
    } else {
      assert wire[18..34] == ToyChunk(2, 1)[1..];
      ToyChunkNonce(2, 1);
    }
  }

  lemma ToyChunkNonce(b: Byte, n: Byte)
    ensures ToyChunk(b, n)[1..][1..13] == [n] + Zeros(11)
  {
    var nonce := [n] + Zeros(11);
    assert ToyChunk(b, n) == [b, 1] + nonce + [7, 8, 9];
    assert ToyChunk(b, n)[1..][1..13] == ToyChunk(b, n)[2..14] == nonce;
  }

  lemma ToyOpens(i: nat, lo: nat, hi: nat)
    requires i < CHUNK_NUMBERS && lo <= hi <= |ToyBytes()|
    requires ToyScheme().open([], ChunkNonce(Zeros(NONCE_SIZE), i), ToyBytes()[lo..hi]).Some?
    ensures (i == 0 && ToyBytes()[lo..hi] == ToyChunk(1, 0)) || (i == 1 && ToyBytes()[lo..hi] == ToyChunk(2, 1))
  {
    var nonce, stretch := ChunkNonce(Zeros(NONCE_SIZE), i), ToyBytes()[lo..hi];
    assert stretch[|stretch| - TAG_SIZE..] == ToyBytes()[hi - TAG_SIZE..hi];
    ToyTagged(nonce, lo, hi);
    var k := if hi == 17 then 0 else 1;
    SmallNonce(k);
    SmallNumber(k);
    NoncesDistinct(Zeros(NONCE_SIZE), i, k);
    assert stretch == if k == 0 then ToyChunk(1, 0) else ToyChunk(2, 1);
  }

  lemma SmallNumber(n: nat)
    requires n < 256
    ensures n < CHUNK_NUMBERS
  {
    PowAtLeast(8);
  }

  lemma {:induction false} PowAtLeast(e: nat)
    requires e > 0
    ensures Pow(256, e) >= 256
  {
    if e > 1 { PowAtLeast(e - 1); }
  }

  lemma ToyNoForgery(i: nat, lo: nat, hi: nat)
    requires i < CHUNK_NUMBERS && lo <= hi <= |ToyBytes()|
    ensures NoForgery(ToySession(), TOY_PIECES, i, ToyBytes()[lo..hi])
  {
    if ToyScheme().open([], ChunkNonce(Zeros(NONCE_SIZE), i), ToyBytes()[lo..hi]).Some? {
      ToyOpens(i, lo, hi);
      if i == 0 { ToySeals(1, 0); } else { ToySeals(2, 1); }
    }
  }

  lemma ToyUnforgeable()
    ensures Unforgeable(ToySession(), TOY_PIECES, ToyBytes())
  {
    forall i: nat, lo, hi | i < CHUNK_NUMBERS && 0 <= lo <= hi <= |ToyBytes()|
      ensures NoForgery(ToySession(), TOY_PIECES, i, ToyBytes()[lo..hi])
    {
      ToyNoForgery(i, lo, hi);
    }
  }

  /** There is a lawful scheme and a stream of two pieces that is sound. */
  lemma SoundStreamExists()
    ensures Sound(ToySession(), TOY_PIECES) && |TOY_PIECES| == 2
  {
    ToyLawful();
    SmallNumber(2);
    ToyUnforgeable();
    ToyWire();
  }
}
