// putObjectMultipart of internal/storage/s3.go: an input that cannot be rewound is uploaded in 5 MiB parts.
module MultipartSplit {
  import opened Core

  const PART_SIZE := 5 * 1024 * 1024

  /** An input: its bytes, and what follows them - end of file or a read error. */
  datatype Input = Input(data: Bytes, fault: Option<Fault>)

  datatype ReadErr = EndOfFile | Failed(fault: Fault)

  /** What io.ReadFull reports when `got` bytes did not fill the buffer. */
  function ShortRead(input: Input, got: Bytes): ReadErr {
    if input.fault.Some? then Failed(input.fault.value) else if got == [] then EndOfFile else Failed(UnexpectedEof)
  }

  /** The read errors that the upload does not take for the end of the input. */
  predicate Aborts(err: ReadErr) { err.Failed? && err.fault.Other? }

  class Reader {
    const input: Input
    var pos: nat

    ghost predicate Valid()
      reads this
    {
      pos <= |input.data|
    }

    constructor (input: Input)
      ensures Valid() && this.input == input && pos == 0
    {
      this.input, pos := input, 0;
    }

    /** io.ReadFull into a buffer of `size` bytes. */
    method ReadFull(size: nat) returns (bytes: Bytes, err: Option<ReadErr>)
      requires Valid() && size > 0
      modifies this
      ensures Valid() && old(pos) <= pos && bytes == input.data[old(pos)..pos]
      ensures if |input.data| - old(pos) >= size then |bytes| == size && err.None?
              else pos == |input.data|
      ensures |input.data| - old(pos) < size ==> err == Some(ShortRead(input, bytes))
    {
      if |input.data| - pos >= size {
        bytes, pos, err := input.data[pos..pos + size], pos + size, None;
      } else {
        bytes, pos := input.data[pos..], |input.data|;
        err := Some(ShortRead(input, bytes));
      }
    }
  }

  datatype UploadState = Open | Aborted | Completed

  /** The S3 side of one upload: which part uploads fail, and whether the completion and the abort do. */
  class Upload {
    const failing: set<nat>
    const completionFails: bool
    const abortFails: bool
    var parts: map<nat, Bytes>
    var state: UploadState
    var installed: Option<Bytes>

    constructor (failing: set<nat>, completionFails: bool, abortFails: bool)
      ensures parts == map[] && state == Open && installed.None?
      ensures this.failing == failing && this.completionFails == completionFails && this.abortFails == abortFails
    {
      this.failing, this.completionFails, this.abortFails := failing, completionFails, abortFails;
      parts, state, installed := map[], Open, None;
    }

    method UploadPart(number: nat, body: Bytes) returns (ok: bool)
      modifies this
      ensures ok == (number !in failing) && state == old(state) && installed == old(installed)
      ensures parts == if ok then old(parts)[number := body] else old(parts)
    {
      ok := number !in failing;
      if ok { parts := parts[number := body]; }
    }

    /** An abort that fails leaves the upload open. */
    method Abort()
      modifies this
      ensures state == (if abortFails then old(state) else Aborted) && installed == old(installed)
              && parts == old(parts)
    {
      if !abortFails { state := Aborted; }
    }

    /** The state of an upload that the code has tried to abort. */
    ghost predicate GivenUp()
      reads this
    {
      state == (if abortFails then Open else Aborted) && installed.None?
    }

    /** Installs the listed parts, in the listed order. */
    method Complete(numbers: seq<nat>) returns (ok: bool)
      requires forall i :: 0 <= i < |numbers| ==> numbers[i] in parts
      modifies this
      ensures ok == !completionFails && parts == old(parts)
      ensures state == if ok then Completed else old(state)
      ensures installed == if ok then Some(Assembled(parts, numbers)) else old(installed)
    {
      ok := !completionFails;
      if ok { state, installed := Completed, Some(Assembled(parts, numbers)); }
    }
  }

  // ---------------------------------------------------------------- the parts of an input

  /** The chunks under the part numbers 1..n. */
  function Numbered(chunks: seq<Bytes>): map<nat, Bytes> {
    if chunks == [] then map[] else Numbered(chunks[..|chunks| - 1])[|chunks| := chunks[|chunks| - 1]]
  }

  lemma {:induction false} NumberedAt(chunks: seq<Bytes>, i: nat)
    ensures i in Numbered(chunks) <==> 1 <= i <= |chunks|
    ensures 1 <= i <= |chunks| ==> Numbered(chunks)[i] == chunks[i - 1]
  {
    if chunks != [] { NumberedAt(chunks[..|chunks| - 1], i); }
  }

  function OneTo(n: nat): seq<nat> { if n == 0 then [] else OneTo(n - 1) + [n] }

  lemma {:induction false} OneToAt(n: nat, i: nat)
    requires i < n
    ensures |OneTo(n)| == n && OneTo(n)[i] == i + 1
  {
    if n > 1 { OneToAt(n - 1, if i < n - 1 then i else 0); }
  }

  lemma NumbersAssembled(chunks: seq<Bytes>, k: nat)
    requires k <= |chunks|
    ensures forall i :: 0 <= i < |OneTo(k)| ==> OneTo(k)[i] in Numbered(chunks)
  {
    forall i | 0 <= i < |OneTo(k)| ensures OneTo(k)[i] in Numbered(chunks) {
      if k > 0 { OneToAt(k, 0); }
      OneToAt(k, i);
      NumberedAt(chunks, i + 1);
    }
  }

  /** Cutting one more part off: the chunks done, the part, and the rest. */
  lemma NextPart(data: Bytes, pos: nat, part: Bytes, chunks: seq<Bytes>)
    requires pos + |part| <= |data| && part == data[pos..pos + |part|] && part != []
    requires Chunks(data, PART_SIZE) == chunks + Chunks(data[pos..], PART_SIZE)
    requires |part| == PART_SIZE || (|part| < PART_SIZE && pos + |part| == |data|)
    ensures Chunks(data, PART_SIZE) == chunks + [part] + Chunks(data[pos + |part|..], PART_SIZE)
  {
    var rest := data[pos + |part|..];
    assert data[pos..] == part + rest;
    if |part| == PART_SIZE {
      ChunksFront(part, rest, PART_SIZE);
    } else {
      assert rest == [] && data[pos..] == part;
    }
    assert chunks + ([part] + Chunks(rest, PART_SIZE)) == chunks + [part] + Chunks(rest, PART_SIZE);
  }

  lemma NumberedSnoc(chunks: seq<Bytes>, part: Bytes)
    ensures Numbered(chunks + [part]) == Numbered(chunks)[|chunks| + 1 := part]
  {
    var all := chunks + [part];
    assert all[..|all| - 1] == chunks;
  }

  /** Listing the first `k` numbers of the numbered chunks gives the first `k` chunks. */
  lemma {:induction false} ListedNumbered(chunks: seq<Bytes>, k: nat)
    requires k <= |chunks|
    ensures forall i :: 0 <= i < |OneTo(k)| ==> OneTo(k)[i] in Numbered(chunks)
    ensures Assembled(Numbered(chunks), OneTo(k)) == Concat(chunks[..k])
  {
    NumbersAssembled(chunks, k);
    if k > 0 {
      ListedNumbered(chunks, k - 1);
      NumberedAt(chunks, k);
      assert OneTo(k)[..|OneTo(k)| - 1] == OneTo(k - 1);
      assert chunks[..k] == chunks[..k - 1] + [chunks[k - 1]];
      ConcatSnoc(chunks[..k - 1], chunks[k - 1]);
    }
  }

  /** The parts themselves: consecutive, all but the last exactly 5 MiB, and together the input. */
  lemma PartsOfInput(data: Bytes)
    ensures var chunks := Chunks(data, PART_SIZE);
            && IsChunking(chunks, data, PART_SIZE)
            && (forall i :: 0 <= i < |OneTo(|chunks|)| ==> OneTo(|chunks|)[i] in Numbered(chunks))
            && Assembled(Numbered(chunks), OneTo(|chunks|)) == data
  {
    var chunks := Chunks(data, PART_SIZE);
    ChunksIsChunking(data, PART_SIZE);
    ListedNumbered(chunks, |chunks|);
    assert chunks[..|chunks|] == chunks;
  }

  /** There is an i-th part exactly when the parts before it do not reach the end. */
  lemma {:induction false} PartCount(data: Bytes, i: nat)
    requires i >= 1
    ensures i <= |Chunks(data, PART_SIZE)| <==> (i - 1) * 5242880 < |data|
    decreases |data|
  {
    if |data| > PART_SIZE && i > 1 { PartCount(data[PART_SIZE..], i - 1); }
  }

  // ---------------------------------------------------------------- the upload

  datatype Outcome = Stored | ReadFailed | PartFailed(number: nat) | CompletionFailed

  /** Every part of the input can be uploaded. */
  ghost predicate PartsAccepted(input: Input, failing: set<nat>) {
    forall i :: 1 <= i <= |Chunks(input.data, PART_SIZE)| ==> i !in failing
  }

  /** What an upload leaves installed. */
  ghost function Installed(input: Input, failing: set<nat>, completionFails: bool): Option<Bytes> {
    if !Noticed(input.fault) && PartsAccepted(input, failing) && !completionFails then Some(input.data) else None
  }

  /** The loop's progress: the chunks uploaded, and that the rest of the input is still to be cut. */
  ghost predicate Uploaded(reader: Reader, upload: Upload, chunks: seq<Bytes>)
    reads reader, upload
  {
    && reader.Valid() && upload.state == Open && upload.installed.None?
    && Chunks(reader.input.data, PART_SIZE) == chunks + Chunks(reader.input.data[reader.pos..], PART_SIZE)
    && upload.parts == Numbered(chunks)
    && forall i :: 1 <= i <= |chunks| ==> i !in upload.failing
  }

  /** How one turn of the loop ends. */
  datatype Turn = BadRead | Empty | BadPart | Sent(last: bool)

  /** One turn of the loop. */
  method UploadNext(reader: Reader, upload: Upload, partNumber: nat, ghost chunks: seq<Bytes>)
    returns (turn: Turn, ghost part: Bytes)
    requires Uploaded(reader, upload, chunks) && partNumber == |chunks| + 1
    modifies reader, upload
    ensures turn.Sent? ==> Uploaded(reader, upload, chunks + [part]) && old(reader.pos) < reader.pos
    ensures turn.Empty? ==> Uploaded(reader, upload, chunks)
    ensures turn.Empty? || turn == Sent(true) ==> reader.pos == |reader.input.data| && !Noticed(reader.input.fault)
    ensures turn.BadRead? ==> Noticed(reader.input.fault)
    ensures turn.BadPart? ==> partNumber in upload.failing && partNumber <= |Chunks(reader.input.data, PART_SIZE)|
    ensures turn.BadRead? || turn.BadPart? ==> upload.GivenUp()
  {
    ghost var pos := reader.pos;
    var body, readErr := reader.ReadFull(PART_SIZE);
    part := body;
    if readErr.Some? && Aborts(readErr.value) {
      upload.Abort();
      return BadRead, part;
    }
    if |body| == 0 { return Empty, part; }
    NextPart(reader.input.data, pos, body, chunks);
    NumberedSnoc(chunks, body);
    var ok := upload.UploadPart(partNumber, body);
    if !ok {
      upload.Abort();
      return BadPart, part;
    }
    turn := Sent(readErr.Some?);
  }

  /** The loop: it ends, and on success every chunk of the input is uploaded under its number. */
  method UploadParts(reader: Reader, upload: Upload) returns (failed: Option<Outcome>, parts: seq<nat>)
    requires reader.Valid() && reader.pos == 0
    requires upload.parts == map[] && upload.state == Open && upload.installed.None?
    modifies reader, upload
    ensures failed.None? ==> Uploaded(reader, upload, Chunks(reader.input.data, PART_SIZE))
    ensures failed.None? ==> parts == OneTo(|Chunks(reader.input.data, PART_SIZE)|) && !Noticed(reader.input.fault)
    ensures failed.Some? ==> upload.GivenUp()
    ensures failed.Some? ==> failed.value.ReadFailed? || failed.value.PartFailed?
    ensures failed == Some(ReadFailed) ==> Noticed(reader.input.fault)
    ensures failed.Some? && failed.value.PartFailed? ==>
              failed.value.number in upload.failing
                  && 1 <= failed.value.number <= |Chunks(reader.input.data, PART_SIZE)|
                  && forall j :: 1 <= j < failed.value.number ==> j !in upload.failing
  {
    ghost var chunks: seq<Bytes> := [];
    var partNumber := 1;
    parts := [];
    assert reader.input.data[0..] == reader.input.data;
    while true
      invariant Uploaded(reader, upload, chunks)
      invariant partNumber == |chunks| + 1 && parts == OneTo(|chunks|)
      decreases |reader.input.data| - reader.pos
    {
      var turn, part := UploadNext(reader, upload, partNumber, chunks);
      if turn.BadRead? { return Some(ReadFailed), parts; }
      if turn.BadPart? { return Some(PartFailed(partNumber)), parts; }
      if turn.Empty? { break; }
      chunks := chunks + [part];
      parts := parts + [partNumber];
      partNumber := partNumber + 1;
      if turn.last { break; }
    }
    assert reader.input.data[reader.pos..] == [];
    assert chunks == Chunks(reader.input.data, PART_SIZE);
    failed := None;
  }

  /**
   * The whole upload.  It installs the input exactly when no part and no completion fails and the input ends cleanly
   * or with io.ErrUnexpectedEOF; after another read error or a failing part the upload is aborted, or still open if the
   * abort fails too, which goes unreported; a failing completion leaves it open.
   */
  method PutObjectMultipart(reader: Reader, upload: Upload) returns (r: Outcome)
    requires reader.Valid() && reader.pos == 0
    requires upload.parts == map[] && upload.state == Open && upload.installed.None?
    modifies reader, upload
    ensures upload.installed == Installed(reader.input, upload.failing, upload.completionFails)
    ensures r == Stored <==> upload.installed.Some?
    ensures r == Stored ==> upload.state == Completed && upload.parts == Numbered(Chunks(reader.input.data, PART_SIZE))
    ensures Noticed(reader.input.fault) ==> r == ReadFailed || r.PartFailed?
    ensures r == ReadFailed ==> Noticed(reader.input.fault)
    ensures r == ReadFailed || r.PartFailed? ==> upload.GivenUp()
    ensures r.PartFailed? ==> r.number in upload.failing && 1 <= r.number <= |Chunks(reader.input.data, PART_SIZE)|
    ensures r.PartFailed? ==> forall j :: 1 <= j < r.number ==> j !in upload.failing
    ensures r == CompletionFailed ==> upload.completionFails && upload.state == Open
    ensures upload.installed.Some? ==> upload.installed.value == reader.input.data
    ensures upload.installed.Some? <==>
              && !(reader.input.fault.Some? && reader.input.fault.value.Other?) && !upload.completionFails
              && forall i: nat :: i in upload.failing ==> i == 0 || (i - 1) * 5242880 >= |reader.input.data|
  {
    forall i: nat | i in upload.failing && i >= 1
      ensures i <= |Chunks(reader.input.data, PART_SIZE)| <==> (i - 1) * 5242880 < |reader.input.data|
    {
      PartCount(reader.input.data, i);
    }
    var failed, parts := UploadParts(reader, upload);
    if failed.Some? { return failed.value; }
    PartsOfInput(reader.input.data);
    var ok := upload.Complete(parts);
    r := if ok then Stored else CompletionFailed;
  }

  /**
   * Read errors, exactly: an input that ends in an error is never installed, whatever happens to its parts, if and
   * only if that error is not io.ErrUnexpectedEOF.
   */
  lemma FaultStopsExactly(input: Input)
    requires input.fault.Some?
    ensures (forall failing, completionFails :: Installed(input, failing, completionFails).None?)
       <==> input.fault.value != UnexpectedEof
  {
    assert Installed(input, {}, false) == if Noticed(input.fault) then None else Some(input.data);
  }

  /** ... so a body cut short anywhere is installed, as if it were complete. */
  lemma CutShortIsInstalled(whole: Bytes, cut: nat)
    requires cut < |whole|
    ensures Installed(Input(whole[..cut], Some(UnexpectedEof)), {}, false) == Some(whole[..cut])
    ensures whole[..cut] != whole
  {
    assert |whole[..cut]| < |whole|;
  }
}
