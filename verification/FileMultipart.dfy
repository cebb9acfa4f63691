// Multipart uploads of internal/storage/filesystem.go: parts are files in a directory named by the upload id, and
// completing copies them, one by one, into the object's file.  Calls of different uploads interleave freely.
module FileMultipart {
  import opened Core
  import opened Runs
  import opened Decimal

  /** A path below the bucket, as its components. */
  type Path = seq<string>

  type Files = map<Path, Bytes>

  /** An upload id is "key-nanoseconds", so it has as many components as the key. */
  function UploadDir(id: Path): Path { [".uploads"] + id }

  function PartName(number: int): string { "part-" + FormatInt(number) }

  function PartPath(id: Path, number: int): Path { UploadDir(id) + [PartName(number)] }

  /** os.RemoveAll(dir): the directory's files and those below it go. */
  function RemoveAll(files: Files, dir: Path): Files { map p | p in files && !(dir <= p) :: files[p] }

  // ---------------------------------------------------------------- paths do not clash

  lemma FormatInjective(a: int, b: int)
    requires FormatInt(a) == FormatInt(b)
    ensures a == b
  {
    ValueDigits(if a < 0 then -a else a);
    ValueDigits(if b < 0 then -b else b);
    if a < 0 { assert FormatInt(a)[1..] == Digits(-a); } else { assert IsDigit(FormatInt(a)[0]); }
    if b < 0 { assert FormatInt(b)[1..] == Digits(-b); } else { assert IsDigit(FormatInt(b)[0]); }
  }

  lemma PartPathInjective(a: Path, m: int, b: Path, n: int)
    requires PartPath(a, m) == PartPath(b, n)
    ensures a == b && m == n
  {
    var p := PartPath(a, m);
    assert a == p[1..|p| - 1] && b == PartPath(b, n)[1..|p| - 1];
    assert PartName(m) == p[|p| - 1] == PartName(n);
    assert FormatInt(m) == PartName(m)[5..] && FormatInt(n) == PartName(n)[5..];
    FormatInjective(m, n);
  }

  /** Two uploads of which neither lies inside the other's directory. */
  predicate Apart(a: Path, b: Path) { !(a <= b) && !(b <= a) }

  /**
   * Removing one upload's directory spares another upload's parts if and only if the first id is neither a prefix
   * of the second nor the name of one of its part files.
   */
  lemma RemoveSparesExactly(a: Path, b: Path)
    ensures (forall n :: !(UploadDir(a) <= PartPath(b, n)))
       <==> !(a <= b) && forall n :: a != b + [PartName(n)]
  {
    forall n ensures UploadDir(a) <= PartPath(b, n) <==> a <= b || a == b + [PartName(n)] {
      var inner := b + [PartName(n)];
      assert PartPath(b, n) == [".uploads"] + inner;
      if UploadDir(a) <= PartPath(b, n) { assert a == PartPath(b, n)[1..|a| + 1] == inner[..|a|]; }
      if a <= inner { assert UploadDir(a) == PartPath(b, n)[..|a| + 1]; }
      assert a <= inner <==> a <= b || a == inner by {
        if a <= inner && |a| <= |b| { assert a == inner[..|a|] == b[..|a|]; }
      }
    }
    if a <= b { assert UploadDir(a) <= PartPath(b, 0); }
  }

  lemma ApartSpares(a: Path, b: Path, n: int)
    requires Apart(a, b)
    ensures !(UploadDir(a) <= PartPath(b, n))
  {
    RemoveSparesExactly(a, b);
    forall m ensures a != b + [PartName(m)] { assert b <= b + [PartName(m)]; }
  }

  /** An object's key lies outside the upload area. */
  predicate ObjectKey(key: Path) { key != [] && key[0] != ".uploads" }

  lemma ObjectsApart(key: Path, id: Path, n: int)
    requires ObjectKey(key)
    ensures key != PartPath(id, n) && !(UploadDir(id) <= key)
  {
    assert PartPath(id, n)[0] == ".uploads" && UploadDir(id)[0] == ".uploads";
  }

  // ---------------------------------------------------------------- the step system

  /** What was offered for a part, and how much of it reached the file: all of it, or less when the copy failed. */
  datatype Part = Part(data: Bytes, written: nat)

  function InFile(part: Part): Bytes { if part.written <= |part.data| then part.data[..part.written] else part.data }

  /**
   * A CompleteMultipartUpload in progress: `copied` holds the instants at which it copied its first parts, `offset` is
   * its place in the object's file, and `attached` says that this file still has the object's name.  One that has
   * returned keeps what it was asked for, what it had copied, when it answered and what.
   */
  datatype Call =
    | Completing(id: Path, key: Path, numbers: seq<int>, copied: seq<nat>, offset: nat, attached: bool)
    | Returned(id: Path, key: Path, numbers: seq<int>, copied: seq<nat>, at: nat, ok: bool)

  /** The files, and as history the uploads in existence with the latest upload of each part, and all ids ever used. */
  datatype State = State(files: Files, latest: map<Path, map<int, Part>>, used: set<Path>, calls: seq<Call>, clock: nat)

  const EMPTY := State(map[], map[], {}, [], 0)

  datatype Step =
    | Initiate(id: Path)
    | UploadPart(id: Path, number: int, data: Bytes, written: nat)   // a failing copy leaves the file cut short
    | BeginComplete(id: Path, key: Path, numbers: seq<int>)          // os.Create truncates the object
    | CopyPart(c: nat)
    | CopyFails(c: nat, count: nat)
    | MissingPart(c: nat)
    | FinishComplete(c: nat)
    | Abort(id: Path)
    | PutObject(key: Path, data: Bytes)
    | DeleteObject(key: Path)

  /** No completion in progress is writing this object. */
  predicate KeyQuiet(s: State, key: Path) {
    forall c :: 0 <= c < |s.calls| && s.calls[c].Completing? ==> s.calls[c].key != key
  }

  /** An id that was used, or one whose directory is apart from all that were. */
  predicate Separate(s: State, id: Path) { id in s.used || forall other :: other in s.used ==> Apart(id, other) }

  predicate Pending(s: State, c: nat) {
    c < |s.calls| && s.calls[c].Completing? && |s.calls[c].copied| <= |s.calls[c].numbers|
  }

  predicate HasNext(s: State, c: nat) { Pending(s, c) && |s.calls[c].copied| < |s.calls[c].numbers| }

  /** The file the next copy reads. */
  function NextPart(s: State, c: nat): Path
    requires HasNext(s, c)
  {
    PartPath(s.calls[c].id, s.calls[c].numbers[|s.calls[c].copied|])
  }

  /** `alone`: nobody else writes or deletes an object while a completion is writing it. */
  predicate Enabled(s: State, step: Step, alone: bool) {
    match step
    case Initiate(id) => id !in s.used && Separate(s, id)
    case UploadPart(id, _, data, written) => id in s.latest && written <= |data|
    case BeginComplete(id, key, _) => Separate(s, id) && ObjectKey(key) && (alone ==> KeyQuiet(s, key))
    case CopyPart(c) => HasNext(s, c) && NextPart(s, c) in s.files
    case CopyFails(c, count) => HasNext(s, c) && NextPart(s, c) in s.files && count <= |s.files[NextPart(s, c)]|
    case MissingPart(c) => HasNext(s, c) && NextPart(s, c) !in s.files
    case FinishComplete(c) => Pending(s, c) && |s.calls[c].copied| == |s.calls[c].numbers|
    case Abort(id) => Separate(s, id)
    case PutObject(key, _) => ObjectKey(key) && (alone ==> KeyQuiet(s, key))
    case DeleteObject(key) => ObjectKey(key) && (alone ==> KeyQuiet(s, key))
  }

  /** Writing at an offset: over what is there, behind zeros when the file is shorter. */
  function WriteAt(content: Bytes, offset: nat, piece: Bytes): Bytes {
    if piece == [] then content
    else if |content| <= offset then content + Zeros(offset - |content|) + piece
    else content[..offset] + piece + if offset + |piece| <= |content| then content[offset + |piece|..] else []
  }

  lemma WriteAtEnd(content: Bytes, piece: Bytes)
    ensures WriteAt(content, |content|, piece) == content + piece
  {
    assert Zeros(0) == [] && content + [] == content;
  }

  /** The files after a completion has written `piece`; a file that lost its name is out of sight. */
  function Written(files: Files, call: Call, piece: Bytes): Files
    requires call.Completing?
  {
    if call.attached && call.key in files then files[call.key := WriteAt(files[call.key], call.offset, piece)]
        else files
  }

  /** Deleting an object takes the name from the file that completions are writing. */
  function Detached(calls: seq<Call>, key: Path): seq<Call> {
    seq(|calls|, i requires 0 <= i < |calls| =>
      if calls[i].Completing? && calls[i].key == key then calls[i].(attached := false) else calls[i])
  }

  /** The completion returns. */
  function Answered(s: State, c: nat, ok: bool): Call
    requires c < |s.calls| && s.calls[c].Completing?
  {
    var call := s.calls[c];
    Returned(call.id, call.key, call.numbers, call.copied, s.clock, ok)
  }

  function Effect(s: State, step: Step, alone: bool): State
    requires Enabled(s, step, alone)
  {
    match step
    case Initiate(id) => s.(latest := s.latest[id := map[]], used := s.used + {id})
    case UploadPart(id, number, data, written) =>
      s.(files := s.files[PartPath(id, number) := data[..written]],
         latest := s.latest[id := s.latest[id][number := Part(data, written)]])
    case BeginComplete(id, key, numbers) =>
      s.(files := s.files[key := []], used := s.used + {id},
          calls := s.calls + [Completing(id, key, numbers, [], 0, true)])
    case CopyPart(c) =>
      var call, piece := s.calls[c], s.files[NextPart(s, c)];
      s.(files := Written(s.files, call, piece),
         calls := s.calls[c := call.(copied := call.copied + [s.clock], offset := call.offset + |piece|)])
    case CopyFails(c, count) =>
      s.(files := Written(s.files, s.calls[c], s.files[NextPart(s, c)][..count]),
          calls := s.calls[c := Answered(s, c, false)])
    case MissingPart(c) => s.(calls := s.calls[c := Answered(s, c, false)])
    case FinishComplete(c) =>
      var id := s.calls[c].id;
      s.(files := RemoveAll(s.files, UploadDir(id)), latest := s.latest - {id},
          calls := s.calls[c := Answered(s, c, true)])
    case Abort(id) =>
      s.(files := RemoveAll(s.files, UploadDir(id)), latest := s.latest - {id}, used := s.used + {id})
    case PutObject(key, data) => s.(files := s.files[key := data])
    case DeleteObject(key) => s.(files := s.files - {key}, calls := Detached(s.calls, key))
  }

  function Apply(s: State, step: Step, alone: bool): State
    requires Enabled(s, step, alone)
  {
    Effect(s, step, alone).(clock := s.clock + 1)
  }

  /** A run together with every state it went through; the history steers nothing. */
  datatype Traced = Traced(current: State, past: seq<State>)

  const START := Traced(EMPTY, [])

  ghost function Next(alone: bool): (Traced, Step) -> Option<Traced> {
    (t: Traced, step: Step) =>
      if Enabled(t.current, step, alone) then Some(Traced(Apply(t.current, step, alone), t.past + [t.current]))
          else None
  }

  // ---------------------------------------------------------------- the upload directories

  /** An upload's directory holds exactly its latest parts. */
  ghost predicate PartsOk(s: State) {
    forall id, n :: id in s.latest ==>
      && (PartPath(id, n) in s.files <==> n in s.latest[id])
      && (n in s.latest[id] ==> s.files[PartPath(id, n)] == InFile(s.latest[id][n]))
  }

  /** No part file outlives its upload. */
  ghost predicate NoStrays(s: State) { forall id, n :: PartPath(id, n) in s.files ==> id in s.latest }

  ghost predicate IdsOk(s: State) {
    && s.latest.Keys <= s.used
    && (forall a, b :: a in s.used && b in s.used && a != b ==> Apart(a, b))
    && (forall c :: 0 <= c < |s.calls| && s.calls[c].Completing? ==>
        s.calls[c].id in s.used && ObjectKey(s.calls[c].key))
  }

  ghost predicate DirsOk(s: State) { PartsOk(s) && NoStrays(s) && IdsOk(s) }

  lemma StepIds(s: State, step: Step, alone: bool)
    requires IdsOk(s) && Enabled(s, step, alone)
    ensures IdsOk(Apply(s, step, alone))
  {
  }

  /** One part's file after a step, as the invariant wants it. */
  ghost predicate PartOk(s: State, id: Path, n: int) {
    && (PartPath(id, n) in s.files ==> id in s.latest)
    && (id in s.latest ==>
          && (PartPath(id, n) in s.files <==> n in s.latest[id])
          && (n in s.latest[id] ==> s.files[PartPath(id, n)] == InFile(s.latest[id][n])))
  }

  lemma EachPartOk(s: State)
    requires forall id, n :: PartOk(s, id, n)
    ensures PartsOk(s) && NoStrays(s)
  {
    forall id, n
      ensures PartPath(id, n) in s.files ==> id in s.latest
      ensures id in s.latest ==> (PartPath(id, n) in s.files <==> n in s.latest[id])
      ensures id in s.latest && n in s.latest[id] ==> s.files[PartPath(id, n)] == InFile(s.latest[id][n])
    {
      assert PartOk(s, id, n);
    }
  }

  lemma StepPart(s: State, step: Step, alone: bool, id: Path, n: int)
    requires DirsOk(s) && Enabled(s, step, alone)
    ensures PartOk(Apply(s, step, alone), id, n)
  {
    assert PartOk(s, id, n);
    match step
    case Initiate(other) =>
    case UploadPart(other, m, data, written) =>
      if PartPath(id, n) == PartPath(other, m) { PartPathInjective(id, n, other, m); }
    case BeginComplete(_, key, _) => ObjectsApart(key, id, n);
    case CopyPart(c) => ObjectsApart(s.calls[c].key, id, n);
    case CopyFails(c, _) => ObjectsApart(s.calls[c].key, id, n);
    case MissingPart(_) =>
    case FinishComplete(c) => RemovedParts(s, s.calls[c].id, id, n);
    case Abort(other) => RemovedParts(s, other, id, n);
    case PutObject(key, _) => ObjectsApart(key, id, n);
    case DeleteObject(key) => ObjectsApart(key, id, n);
  }

  /**
   * Whatever is going on - completions of the same upload, failing copies, aborts, writers of the same object -, every
   * step leaves each upload's directory with exactly its latest parts.
   */
  lemma StepParts(s: State, step: Step, alone: bool)
    requires DirsOk(s) && Enabled(s, step, alone)
    ensures DirsOk(Apply(s, step, alone))
  {
    StepIds(s, step, alone);
    forall id, n ensures PartOk(Apply(s, step, alone), id, n) { StepPart(s, step, alone, id, n); }
    EachPartOk(Apply(s, step, alone));
  }

  /** Removing an upload's directory takes its own parts and no other upload's. */
  lemma RemovedParts(s: State, gone: Path, id: Path, n: int)
    requires IdsOk(s) && Separate(s, gone)
    ensures id == gone ==> PartPath(id, n) !in RemoveAll(s.files, UploadDir(gone))
    ensures id in s.used && id != gone ==>
              (PartPath(id, n) in RemoveAll(s.files, UploadDir(gone)) <==> PartPath(id, n) in s.files)
  {
    if id == gone { assert UploadDir(gone) == PartPath(id, n)[..|gone| + 1]; }
    if id in s.used && id != gone { ApartSpares(gone, id, n); }
  }

  // ---------------------------------------------------------------- a completion's object

  /** The latest upload of a part, if there is one. */
  function PartAt(s: State, id: Path, n: int): Part {
    if id in s.latest && n in s.latest[id] then s.latest[id][n] else Part([], 0)
  }

  predicate HasPart(s: State, id: Path, n: int) { id in s.latest && n in s.latest[id] }

  /** What the listed parts' files held at the instants `copied`, glued together in the requested order. */
  function Gathered(past: seq<State>, id: Path, numbers: seq<int>, copied: seq<nat>): Bytes
    requires |copied| <= |numbers| && forall i :: 0 <= i < |copied| ==> copied[i] < |past|
  {
    if copied == [] then []
    else
      var n := |copied| - 1;
      Gathered(past, id, numbers, copied[..n]) + InFile(PartAt(past[copied[n]], id, numbers[n]))
  }

  /** What had been offered for them. */
  function Offered(past: seq<State>, id: Path, numbers: seq<int>, copied: seq<nat>): Bytes
    requires |copied| <= |numbers| && forall i :: 0 <= i < |copied| ==> copied[i] < |past|
  {
    if copied == [] then []
    else
      var n := |copied| - 1;
      Offered(past, id, numbers, copied[..n]) + PartAt(past[copied[n]], id, numbers[n]).data
  }

  /** The instants lie in the past, one after the other, and at each of them the part was there. */
  ghost predicate Instants(past: seq<State>, id: Path, numbers: seq<int>, copied: seq<nat>) {
    && |copied| <= |numbers|
    && (forall i :: 0 <= i < |copied| ==> copied[i] < |past| && HasPart(past[copied[i]], id, numbers[i]))
    && (forall i, j :: 0 <= i < j < |copied| ==> copied[i] < copied[j])
  }

  /** The object held exactly what the call had copied. */
  ghost predicate Held(s: State, past: seq<State>, call: Call) {
    && Instants(past, call.id, call.numbers, call.copied)
    && call.key in s.files && s.files[call.key] == Gathered(past, call.id, call.numbers, call.copied)
  }

  /**
   * What a completion has written so far is what it has copied; one that has returned had then, and answered that it
   * had succeeded exactly if that was all.
   */
  ghost predicate CallOk(t: Traced, call: Call) {
    match call
    case Completing(_, key, _, _, offset, attached) =>
      attached && Held(t.current, t.past, call) && offset == |t.current.files[key]|
    case Returned(_, _, numbers, copied, at, ok) =>
      at < |t.past| && Held(t.past[at], t.past, call) && (ok <==> |copied| == |numbers|)
  }

  /** No two completions write one object. */
  ghost predicate KeysApart(calls: seq<Call>) {
    forall c, d :: 0 <= c < d < |calls| && calls[c].Completing? && calls[d].Completing? ==> calls[c].key != calls[d].key
  }

  ghost predicate CallsOk(t: Traced) {
    && t.current.clock == |t.past| && KeysApart(t.current.calls)
    && forall c :: 0 <= c < |t.current.calls| ==> CallOk(t, t.current.calls[c])
  }

  ghost predicate Inv(t: Traced) { DirsOk(t.current) && CallsOk(t) }

  lemma {:induction false} GatheredLater(past: seq<State>, now: State, id: Path, numbers: seq<int>, copied: seq<nat>)
    requires |copied| <= |numbers| && forall i :: 0 <= i < |copied| ==> copied[i] < |past|
    ensures Gathered(past + [now], id, numbers, copied) == Gathered(past, id, numbers, copied)
  {
    if copied != [] { GatheredLater(past, now, id, numbers, copied[..|copied| - 1]); }
  }

  lemma GatheredSnoc(past: seq<State>, id: Path, numbers: seq<int>, copied: seq<nat>, at: nat)
    requires |copied| < |numbers| && at < |past| && forall i :: 0 <= i < |copied| ==> copied[i] < |past|
    ensures Gathered(past, id, numbers, copied + [at])
         == Gathered(past, id, numbers, copied) + InFile(PartAt(past[at], id, numbers[|copied|]))
  {
    assert (copied + [at])[..|copied|] == copied;
  }

  /** A completion whose object's file a step leaves alone stays fine. */
  lemma CallOkLater(t: Traced, u: Traced, call: Call)
    requires CallOk(t, call) && u.past == t.past + [t.current]
    requires call.Completing? ==> call.key in u.current.files && u.current.files[call.key] == t.current.files[call.key]
    ensures CallOk(u, call)
  {
    GatheredLater(t.past, t.current, call.id, call.numbers, call.copied);
  }

  /** The files of other objects are left alone by every step. */
  lemma OtherFiles(s: State, step: Step, key: Path)
    requires IdsOk(s) && Enabled(s, step, true) && ObjectKey(key) && key in s.files
    requires step.BeginComplete? || step.PutObject? || step.DeleteObject? ==> step.key != key
    requires step.CopyPart? || step.CopyFails? ==> s.calls[step.c].key != key
    ensures key in Apply(s, step, true).files && Apply(s, step, true).files[key] == s.files[key]
  {
    match step
    case UploadPart(other, m, _, _) => ObjectsApart(key, other, m);
    case FinishComplete(d) => ObjectsApart(key, s.calls[d].id, 0);
    case Abort(other) => ObjectsApart(key, other, 0);
    case _ =>
  }

  lemma OtherKeys(s: State, step: Step, c: nat)
    requires KeysApart(s.calls) && Enabled(s, step, true) && c < |s.calls| && s.calls[c].Completing?
    requires Apply(s, step, true).calls[c] == s.calls[c]
    ensures step.BeginComplete? || step.PutObject? || step.DeleteObject? ==> step.key != s.calls[c].key
    ensures step.CopyPart? || step.CopyFails? ==> s.calls[step.c].key != s.calls[c].key
  {
    if step.CopyPart? || step.CopyFails? { assert step.c != c; }
  }

  /** The file that is copied next holds the latest upload of its part. */
  lemma NextPartHolds(s: State, c: nat)
    requires DirsOk(s) && HasNext(s, c) && NextPart(s, c) in s.files
    ensures var call := s.calls[c]; var n := call.numbers[|call.copied|];
            HasPart(s, call.id, n) && s.files[NextPart(s, c)] == InFile(PartAt(s, call.id, n))
  {
    assert PartOk(s, s.calls[c].id, s.calls[c].numbers[|s.calls[c].copied|]);
  }

  lemma InstantsSnoc(past: seq<State>, s: State, id: Path, numbers: seq<int>, copied: seq<nat>)
    requires Instants(past, id, numbers, copied) && |copied| < |numbers| && HasPart(s, id, numbers[|copied|])
    ensures Instants(past + [s], id, numbers, copied + [|past|])
  {
  }

  /** Copying appends the next part to what was gathered. */
  lemma CopyOk(t: Traced, c: nat)
    requires Inv(t) && Enabled(t.current, CopyPart(c), true)
    ensures CallOk(Next(true)(t, CopyPart(c)).value, Apply(t.current, CopyPart(c), true).calls[c])
  {
    var s, call := t.current, t.current.calls[c];
    assert CallOk(t, call);
    NextPartHolds(s, c);
    WriteAtEnd(s.files[call.key], s.files[NextPart(s, c)]);
    GatheredLater(t.past, s, call.id, call.numbers, call.copied);
    InstantsSnoc(t.past, s, call.id, call.numbers, call.copied);
    GatheredSnoc(t.past + [s], call.id, call.numbers, call.copied, |t.past|);
  }

  /** With one writer per object, no step disturbs a completion in progress. */
  lemma StepCalls(t: Traced, step: Step)
    requires Inv(t) && Enabled(t.current, step, true)
    ensures CallsOk(Next(true)(t, step).value)
  {
    var u := Next(true)(t, step).value;
    StepKeys(t.current, step);
    forall c | 0 <= c < |u.current.calls| ensures CallOk(u, u.current.calls[c]) {
      if c < |t.current.calls| && u.current.calls[c] == t.current.calls[c] {
        var call := t.current.calls[c];
        assert CallOk(t, call);
        if call.Completing? {
          OtherKeys(t.current, step, c);
          OtherFiles(t.current, step, call.key);
        }
        CallOkLater(t, u, call);
      } else if step.CopyPart? {
        CopyOk(t, step.c);
      } else if step.BeginComplete? {
        assert c == |t.current.calls| && u.current.files[step.key] == [];
      } else {
        ReturnOk(t, step, c);
      }
    }
  }

  /** A completion that returns has told the truth. */
  lemma ReturnOk(t: Traced, step: Step, c: nat)
    requires Inv(t) && Enabled(t.current, step, true) && (step.CopyFails? || step.MissingPart? || step.FinishComplete?)
    requires c == step.c
    ensures CallOk(Next(true)(t, step).value, Apply(t.current, step, true).calls[c])
  {
    var call := t.current.calls[c];
    assert CallOk(t, call);
    GatheredLater(t.past, t.current, call.id, call.numbers, call.copied);
  }

  lemma StepKeys(s: State, step: Step)
    requires KeysApart(s.calls) && Enabled(s, step, true)
    ensures KeysApart(Apply(s, step, true).calls)
  {
    if step.DeleteObject? { assert Detached(s.calls, step.key) == s.calls; }
  }

  lemma RunInv(steps: seq<Step>, t: Traced)
    requires Reaches(Next(true), START, steps, t)
    ensures Inv(t)
  {
    var next := Next(true);
    forall t, step | Inv(t) && next(t, step).Some? ensures Inv(next(t, step).value) {
      StepParts(t.current, step, true);
      StepCalls(t, step);
    }
    RunKeeps(next, Inv, START, steps, t);
  }

  // ---------------------------------------------------------------- main theorems

  /** The object of completion `c` holds exactly what its listed parts held when they were copied. */
  ghost predicate Assembles(t: Traced, c: nat)
    requires Pending(t.current, c)
  {
    var call := t.current.calls[c];
    && Instants(t.past, call.id, call.numbers, call.copied)
    && call.key in t.current.files && t.current.files[call.key] == Gathered(t.past, call.id, call.numbers, call.copied)
  }

  /**
   * Answers, exactly: over every run with one writer per object, a completion that has returned answered success if and
   * only if it had copied every listed part, and at the instant of its answer the object held exactly what the parts it
   * had copied held at the successive instants at which they were copied.
   */
  lemma AnswersExactly(steps: seq<Step>, t: Traced, c: nat)
    requires Reaches(Next(true), START, steps, t) && c < |t.current.calls| && t.current.calls[c].Returned?
    ensures var call := t.current.calls[c];
            && (call.ok <==> |call.copied| == |call.numbers|)
            && Instants(t.past, call.id, call.numbers, call.copied)
            && call.at < |t.past| && call.key in t.past[call.at].files
            && t.past[call.at].files[call.key] == Gathered(t.past, call.id, call.numbers, call.copied)
  {
    RunInv(steps, t);
    assert CallOk(t, t.current.calls[c]);
  }

  /** Whoever else writes, success is answered only by a completion that has copied every listed part. */
  ghost predicate Truthful(t: Traced) {
    forall c :: 0 <= c < |t.current.calls| ==>
      var call := t.current.calls[c];
      |call.copied| <= |call.numbers| && (call.Returned? ==> (call.ok <==> |call.copied| == |call.numbers|))
  }

  lemma AlwaysTruthful(alone: bool, steps: seq<Step>, t: Traced)
    requires Reaches(Next(alone), START, steps, t)
    ensures Truthful(t)
  {
    var next := Next(alone);
    forall t, step | Truthful(t) && next(t, step).Some? ensures Truthful(next(t, step).value) {
      StaysTruthful(alone, t, step);
    }
    RunKeeps(next, Truthful, START, steps, t);
  }

  lemma StaysTruthful(alone: bool, t: Traced, step: Step)
    requires Truthful(t) && Enabled(t.current, step, alone)
    ensures Truthful(Next(alone)(t, step).value)
  {
    var u := Next(alone)(t, step).value;
    forall c | 0 <= c < |u.current.calls|
      ensures var call := u.current.calls[c];
              |call.copied| <= |call.numbers| && (call.Returned? ==> (call.ok <==> |call.copied| == |call.numbers|))
    {
      if c < |t.current.calls| { assert |t.current.calls[c].copied| <= |t.current.calls[c].numbers|; }
    }
  }

  /** A missing part, and a copy that fails, are answered with an error. */
  lemma FailuresAreAnswered(s: State, step: Step, alone: bool)
    requires Enabled(s, step, alone) && (step.MissingPart? || step.CopyFails?)
    ensures var call := Apply(s, step, alone).calls[step.c];
            call.Returned? && !call.ok && call.id == s.calls[step.c].id && call.key == s.calls[step.c].key
  {
  }

  /** What the other steps do to files: uploading a part stores what was copied of it, and so on. */
  lemma StepsStore(s: State, step: Step, alone: bool)
    requires Enabled(s, step, alone)
    ensures step.UploadPart? ==>
              Apply(s, step, alone).files == s.files[PartPath(step.id, step.number) := step.data[..step.written]]
    ensures step.PutObject? ==> Apply(s, step, alone).files == s.files[step.key := step.data]
    ensures step.DeleteObject? ==> Apply(s, step, alone).files == s.files - {step.key}
    ensures step.BeginComplete? ==> Apply(s, step, alone).files == s.files[step.key := []]
    ensures step.Abort? ==> forall p :: p in Apply(s, step, alone).files <==> p in s.files && !(UploadDir(step.id) <= p)
  {
  }

  /**
   * Assembly: in every interleaving - with part uploads that fail half-way, part uploads, aborts and other completions
   * of the same upload while it is being completed -, as long as nobody else writes the object, a completion that
   * succeeds leaves there exactly what the listed parts held at the successive instants at which they were copied.
   */
  lemma CompleteAssembles(steps: seq<Step>, t: Traced, c: nat)
    requires Reaches(Next(true), START, steps, t) && Enabled(t.current, FinishComplete(c), true)
    ensures var call := t.current.calls[c];
            var after := Apply(t.current, FinishComplete(c), true);
            && Assembles(t, c) && |call.copied| == |call.numbers|
            && call.key in after.files && after.files[call.key] == t.current.files[call.key]
            && after.calls[c].Returned? && after.calls[c].ok
  {
    RunInv(steps, t);
    var call := t.current.calls[c];
    assert CallOk(t, call);
    ObjectsApart(call.key, call.id, 0);
  }

  /** When its parts have not been touched since, that is the concatenation of the latest parts. */
  lemma {:induction false} UntouchedPartsAssemble(past: seq<State>, s: State, id: Path, numbers: seq<int>,
      copied: seq<nat>, parts: map<int, Bytes>)
    requires |copied| <= |numbers| && forall i :: 0 <= i < |copied| ==> copied[i] < |past|
    requires forall i :: 0 <= i < |copied| ==>
             HasPart(s, id, numbers[i]) && PartAt(past[copied[i]], id, numbers[i]) == PartAt(s, id, numbers[i])
    requires forall n :: HasPart(s, id, n) ==> n in parts && parts[n] == InFile(PartAt(s, id, n))
    ensures Gathered(past, id, numbers, copied) == Assembled(parts, numbers[..|copied|])
  {
    if copied != [] {
      var n := |copied| - 1;
      UntouchedPartsAssemble(past, s, id, numbers, copied[..n], parts);
      assert numbers[..n + 1][..n] == numbers[..n];
    }
  }

  /**
   * Failed part uploads, exactly: a completion stores what was offered for its parts if and only if every part's copy
   * had been complete when the part was read.
   */
  lemma {:induction false} WholePartsExactly(past: seq<State>, id: Path, numbers: seq<int>, copied: seq<nat>)
    requires |copied| <= |numbers| && forall i :: 0 <= i < |copied| ==> copied[i] < |past|
    ensures |Gathered(past, id, numbers, copied)| <= |Offered(past, id, numbers, copied)|
    ensures Gathered(past, id, numbers, copied) == Offered(past, id, numbers, copied) <==>
              forall i :: 0 <= i < |copied| ==>
                PartAt(past[copied[i]], id, numbers[i]).written >= |PartAt(past[copied[i]], id, numbers[i]).data|
  {
    if copied != [] {
      var n := |copied| - 1;
      var part := PartAt(past[copied[n]], id, numbers[n]);
      var front, offered := Gathered(past, id, numbers, copied[..n]), Offered(past, id, numbers, copied[..n]);
      WholePartsExactly(past, id, numbers, copied[..n]);
      if part.written >= |part.data| {
        assert InFile(part) == part.data;
        assert front + part.data == offered + part.data ==> front == offered by {
          assert front == (front + part.data)[..|front + part.data| - |part.data|];
          assert offered == (offered + part.data)[..|offered + part.data| - |part.data|];
        }
      }
    }
  }

  /** ... and no step of a completion changes any other object or any part of any other upload. */
  lemma CompleteTouchesNothingElse(s: State, step: Step, c: nat)
    requires DirsOk(s) && Enabled(s, step, true)
    requires step == CopyPart(c) || (step.CopyFails? && step.c == c) || step == FinishComplete(c)
             || step == MissingPart(c)
    ensures forall key :: ObjectKey(key) && key != s.calls[c].key ==>
              (key in s.files <==> key in Apply(s, step, true).files)
                  && (key in s.files ==> Apply(s, step, true).files[key] == s.files[key])
    ensures forall id, n :: id in s.used && id != s.calls[c].id ==>
              && (PartPath(id, n) in s.files <==> PartPath(id, n) in Apply(s, step, true).files)
              && (PartPath(id, n) in s.files ==>
                  Apply(s, step, true).files[PartPath(id, n)] == s.files[PartPath(id, n)])
  {
    var call := s.calls[c];
    forall key | ObjectKey(key) ensures !(UploadDir(call.id) <= key) { ObjectsApart(key, call.id, 0); }
    forall id, n | id in s.used && id != call.id
      ensures PartPath(id, n) != call.key && !(UploadDir(call.id) <= PartPath(id, n))
    {
      ObjectsApart(call.key, id, n);
      ApartSpares(call.id, id, n);
    }
  }

  /**
   * A completion that finds a part missing fails after it has truncated the object: what is left there is what the
   * parts before the missing one held.
   */
  lemma FailedCompleteLeavesPrefix(steps: seq<Step>, t: Traced, c: nat)
    requires Reaches(Next(true), START, steps, t) && Enabled(t.current, MissingPart(c), true)
    ensures var call := t.current.calls[c];
            && !HasPart(t.current, call.id, call.numbers[|call.copied|]) && Assembles(t, c)
            && Apply(t.current, MissingPart(c), true).files == t.current.files
  {
    RunInv(steps, t);
    assert CallOk(t, t.current.calls[c]);
  }

  // ---------------------------------------------------------------- one writer per object

  /** A step of somebody else than completion `c`. */
  predicate Foreign(step: Step, c: nat) {
    !((step.CopyPart? || step.CopyFails? || step.MissingPart? || step.FinishComplete?) && step.c == c)
  }

  /** A step that writes or deletes this object, so that it no longer holds what it held. */
  predicate Disturbs(s: State, step: Step, key: Path)
    requires key in s.files
  {
    match step
    case BeginComplete(_, k, _) => k == key && s.files[key] != []
    case PutObject(k, data) => k == key && s.files[key] != data
    case DeleteObject(k) => k == key
    case _ => false
  }

  /** What a step that is not by the object's completion does to the object. */
  lemma ObjectAfter(s: State, step: Step, c: nat)
    requires IdsOk(s) && KeysApart(s.calls) && Enabled(s, step, false) && Foreign(step, c)
    requires Pending(s, c) && s.calls[c].key in s.files
    ensures var key, files := s.calls[c].key, Apply(s, step, false).files;
            (key in files && files[key] == s.files[key]) <==> !Disturbs(s, step, key)
  {
    var key := s.calls[c].key;
    match step
    case UploadPart(other, m, _, _) => ObjectsApart(key, other, m);
    case FinishComplete(d) => ObjectsApart(key, s.calls[d].id, 0);
    case Abort(other) => ObjectsApart(key, other, 0);
    case CopyPart(d) => assert s.calls[d].key != key;
    case CopyFails(d, _) => assert s.calls[d].key != key;
    case _ =>
  }

  lemma StillPending(s: State, step: Step, c: nat)
    requires Pending(s, c) && Enabled(s, step, false) && Foreign(step, c)
    ensures var t := Apply(s, step, false);
            Pending(t, c) && t.calls[c] == s.calls[c].(attached := t.calls[c].attached)
  {
  }

  lemma {:induction false} InstantsLater(past: seq<State>, s: State, id: Path, numbers: seq<int>, copied: seq<nat>)
    requires Instants(past, id, numbers, copied)
    ensures Instants(past + [s], id, numbers, copied)
  {
  }

  /**
   * One writer, exactly: wherever a run with one writer per object has led, after the next step of anybody else a
   * completion's object still is what it has copied so far if and only if that step did not truncate the object when
   * it held a byte, overwrite it with anything else, or delete it.
   */
  lemma OneWriterExactly(steps: seq<Step>, t: Traced, c: nat, step: Step)
    requires Reaches(Next(true), START, steps, t) && Pending(t.current, c)
    requires Enabled(t.current, step, false) && Foreign(step, c)
    ensures t.current.calls[c].key in t.current.files
    ensures Pending(Next(false)(t, step).value.current, c)
    ensures Assembles(Next(false)(t, step).value, c) <==> !Disturbs(t.current, step, t.current.calls[c].key)
  {
    RunInv(steps, t);
    var s, call := t.current, t.current.calls[c];
    assert CallOk(t, call);
    StillPending(s, step, c);
    ObjectAfter(s, step, c);
    GatheredLater(t.past, s, call.id, call.numbers, call.copied);
    InstantsLater(t.past, s, call.id, call.numbers, call.copied);
  }

  /**
   * A second completion of the same object breaks every completion that has written a byte; and one that had copied all
   * its parts still succeeds, leaving an empty object.
   */
  lemma SecondWriterBreaks(steps: seq<Step>, t: Traced, c: nat, numbers: seq<int>)
    requires Reaches(Next(true), START, steps, t) && Pending(t.current, c) && t.current.calls[c].offset > 0
    ensures var call := t.current.calls[c];
            var step := BeginComplete(call.id, call.key, numbers);
            && Enabled(t.current, step, false)
            && var u := Next(false)(t, step).value;
               && Pending(u.current, c) && !Assembles(u, c)
               && (Enabled(t.current, FinishComplete(c), true) ==>
                     && Enabled(u.current, FinishComplete(c), false)
                     && var after := Apply(u.current, FinishComplete(c), false);
                        && after.calls[c].Returned? && after.calls[c].ok
                        && call.key in after.files && after.files[call.key] == [])
  {
    RunInv(steps, t);
    var call := t.current.calls[c];
    assert CallOk(t, call);
    OneWriterExactly(steps, t, c, BeginComplete(call.id, call.key, numbers));
    ObjectsApart(call.key, call.id, 0);
  }

  const FIRST: Path := ["k-1"]
  const SECOND: Path := ["k-2"]
  const SHARED: Path := ["k"]

  function TwoUploads(clock: nat): State {
    State(map[PartPath(FIRST, 1) := [1, 1], PartPath(SECOND, 1) := [2]],
          map[FIRST := map[1 := Part([1, 1], 2)], SECOND := map[1 := Part([2], 1)]], {FIRST, SECOND}, [], clock)
  }

  lemma StepOn(steps: seq<Step>, t: Traced, step: Step) returns (u: Traced)
    requires Reaches(Next(false), START, steps, t) && Enabled(t.current, step, false)
    ensures u == Traced(Apply(t.current, step, false), t.past + [t.current])
    ensures Reaches(Next(false), START, steps + [step], u)
  {
    u := Traced(Apply(t.current, step, false), t.past + [t.current]);
    ReachesSnoc(Next(false), START, steps, t, step, u);
  }

  lemma PathsDiffer()
    ensures FIRST != SECOND && Apart(SECOND, FIRST) && PartPath(FIRST, 1) != PartPath(SECOND, 1)
    ensures SHARED != PartPath(FIRST, 1) && SHARED != PartPath(SECOND, 1) && ObjectKey(SHARED)
  {
    assert "k-1"[2] != "k-2"[2];
    assert FIRST[0] != SECOND[0];
    assert "k"[0] != ".uploads"[0];
    if PartPath(FIRST, 1) == PartPath(SECOND, 1) { PartPathInjective(FIRST, 1, SECOND, 1); }
  }

  lemma UploadOne() returns (steps: seq<Step>, t: Traced)
    ensures Reaches(Next(false), START, steps, t) && |t.past| == 2
    ensures t.current == State(map[PartPath(FIRST, 1) := [1, 1]], map[FIRST := map[1 := Part([1, 1], 2)]], {FIRST}, [],
            2)
  {
    t := StepOn([], START, Initiate(FIRST));
    steps := [] + [Initiate(FIRST)];
    t := StepOn(steps, t, UploadPart(FIRST, 1, [1, 1], 2));
    steps := steps + [UploadPart(FIRST, 1, [1, 1], 2)];
    assert [1, 1][..2] == [1 as Byte, 1];
  }

  lemma UploadTwo() returns (steps: seq<Step>, t: Traced)
    ensures Reaches(Next(false), START, steps, t) && t.current == TwoUploads(4) && |t.past| == 4
  {
    PathsDiffer();
    steps, t := UploadOne();
    t := StepOn(steps, t, Initiate(SECOND));
    steps := steps + [Initiate(SECOND)];
    t := StepOn(steps, t, UploadPart(SECOND, 1, [2], 1));
    steps := steps + [UploadPart(SECOND, 1, [2], 1)];
    assert [2][..1] == [2 as Byte];
  }

  /** Both are completed to the same key at the same time. */
  lemma BothBegin() returns (steps: seq<Step>, t: Traced)
    ensures Reaches(Next(false), START, steps, t) && |t.past| == 6
    ensures t.current == TwoUploads(6).(files := TwoUploads(6).files[SHARED := []],
              calls := [Completing(FIRST, SHARED, [1], [], 0, true), Completing(SECOND, SHARED, [1], [], 0, true)])
  {
    PathsDiffer();
    steps, t := UploadTwo();
    t := StepOn(steps, t, BeginComplete(FIRST, SHARED, [1]));
    steps := steps + [BeginComplete(FIRST, SHARED, [1])];
    t := StepOn(steps, t, BeginComplete(SECOND, SHARED, [1]));
    steps := steps + [BeginComplete(SECOND, SHARED, [1])];
  }

  lemma FirstCopies() returns (steps: seq<Step>, t: Traced)
    ensures Reaches(Next(false), START, steps, t) && |t.past| == 7 && t.past[6].latest == TwoUploads(6).latest
    ensures t.current == TwoUploads(7).(files := TwoUploads(7).files[SHARED := [1, 1]],
              calls := [Completing(FIRST, SHARED, [1], [6], 2, true), Completing(SECOND, SHARED, [1], [], 0, true)])
  {
    PathsDiffer();
    steps, t := BothBegin();
    WriteAtEnd([], [1, 1]);
    assert [] + [1, 1] == [1 as Byte, 1];
    t := StepOn(steps, t, CopyPart(0));
    steps := steps + [CopyPart(0)];
    assert t.current.files == TwoUploads(7).files[SHARED := [1, 1]];
    assert t.current.calls[0].copied == [6];
    assert t.current.calls
        == [Completing(FIRST, SHARED, [1], [6], 2, true), Completing(SECOND, SHARED, [1], [], 0, true)];
  }

  lemma Mixed() returns (steps: seq<Step>, t: Traced)
    ensures Reaches(Next(false), START, steps, t) && |t.past| == 8 && t.past[6].latest == TwoUploads(6).latest
    ensures SHARED in t.current.files && t.current.files[SHARED] == [2, 1]
    ensures t.current.calls
            == [Completing(FIRST, SHARED, [1], [6], 2, true), Completing(SECOND, SHARED, [1], [7], 1, true)]
  {
    PathsDiffer();
    steps, t := FirstCopies();
    assert WriteAt([1, 1], 0, [2]) == [2, 1];
    t := StepOn(steps, t, CopyPart(1));
    steps := steps + [CopyPart(1)];
    assert t.current.calls[1].copied == [7];
    assert t.current.calls
        == [Completing(FIRST, SHARED, [1], [6], 2, true), Completing(SECOND, SHARED, [1], [7], 1, true)];
  }

  /** Two completions with one key mix their parts, and both succeed. */
  lemma TwoWritersMix() returns (steps: seq<Step>, t: Traced)
    ensures Reaches(Next(false), START, steps, t)
    ensures Enabled(t.current, FinishComplete(0), false) && Enabled(t.current, FinishComplete(1), false)
    ensures SHARED in t.current.files && t.current.files[SHARED] == [2, 1] && !Assembles(t, 0)
  {
    steps, t := Mixed();
    assert PartAt(t.past[6], FIRST, 1) == Part([1, 1], 2);
    GatheredSnoc(t.past, FIRST, [1], [], 6);
    assert Gathered(t.past, FIRST, [1], [] + [6]) == [] + [1, 1];
    assert t.current.files[SHARED] != [1, 1];
  }
}
