// Vocabulary shared by every model: bytes, options, results, and the two ways the
// repository cuts byte strings up - concatenation of pieces and fixed-size chunking.
module Core {

  newtype Byte = x: int | 0 <= x < 256

  type Bytes = seq<Byte>

  datatype Option<+T> = None | Some(value: T)

  datatype Result<+T, +E> = Ok(value: T) | Err(error: E)

  /** What a reader can fail with; a request body cut before its declared length fails with io.ErrUnexpectedEOF. */
  datatype Fault = UnexpectedEof | Other(code: int)

  /** The faults noticed by code that takes io.EOF and io.ErrUnexpectedEOF alike for the end. */
  predicate Noticed(fault: Option<Fault>) { fault.Some? && fault.value.Other? }

  /** The pieces glued together in order. */
  function Concat<T>(pieces: seq<seq<T>>): seq<T> {
    if pieces == [] then [] else Concat(pieces[..|pieces| - 1]) + pieces[|pieces| - 1]
  }

  lemma ConcatSnoc<T>(pieces: seq<seq<T>>, last: seq<T>)
    ensures Concat(pieces + [last]) == Concat(pieces) + last
  {
    assert (pieces + [last])[..|pieces|] == pieces;
  }

  lemma {:induction false} ConcatAppend<T>(a: seq<seq<T>>, b: seq<seq<T>>)
    ensures Concat(a + b) == Concat(a) + Concat(b)
  {
    if b == [] {
      assert a + b == a;
    } else {
      var n := |b| - 1;
      assert a + b == (a + b[..n]) + [b[n]];
      ConcatSnoc(a + b[..n], b[n]);
      ConcatAppend(a, b[..n]);
    }
  }

  /** The parts listed in `order`, glued together in that order. */
  function Assembled<K>(parts: map<K, Bytes>, order: seq<K>): Bytes
    requires forall i :: 0 <= i < |order| ==> order[i] in parts
  {
    if order == [] then [] else Assembled(parts, order[..|order| - 1]) + parts[order[|order| - 1]]
  }

  function Zeros(n: nat): Bytes { seq(n, _ => 0) }

  function Ones(n: nat): Bytes { seq(n, _ => 1) }

  /** `data` cut into pieces of exactly `size`, with a shorter last piece if needed. */
  function Chunks<T>(data: seq<T>, size: nat): seq<seq<T>>
    requires size > 0
    decreases |data|
  {
    if data == [] then []
    else if |data| <= size then [data]
    else [data[..size]] + Chunks(data[size..], size)
  }

  /** What a fixed-size cut has to satisfy, said without saying how to cut. */
  ghost predicate IsChunking<T>(pieces: seq<seq<T>>, data: seq<T>, size: nat) {
    && Concat(pieces) == data
    && (forall i :: 0 <= i < |pieces| ==> 0 < |pieces[i]| <= size)
    && (forall i :: 0 <= i < |pieces| - 1 ==> |pieces[i]| == size)
  }

  lemma ConcatOne<T>(piece: seq<T>)
    ensures Concat([piece]) == piece
  {
    ConcatSnoc([], piece);
    assert [] + [piece] == [piece];
  }

  lemma ChunkingCons<T>(front: seq<T>, pieces: seq<seq<T>>, data: seq<T>, size: nat)
    requires |front| == size > 0 && IsChunking(pieces, data, size)
    ensures IsChunking([front] + pieces, front + data, size)
  {
    ConcatAppend([front], pieces);
    ConcatOne(front);
    assert forall i :: 0 < i < |pieces| + 1 ==> ([front] + pieces)[i] == pieces[i - 1];
  }

  lemma {:induction false} ChunksIsChunking<T>(data: seq<T>, size: nat)
    requires size > 0
    ensures IsChunking(Chunks(data, size), data, size)
    decreases |data|
  {
    if data == [] {
    } else if |data| <= size {
      ConcatOne(data);
    } else {
      var front, rest := data[..size], data[size..];
      assert data == front + rest;
      assert Chunks(data, size) == [front] + Chunks(rest, size);
      ChunksIsChunking(rest, size);
      ChunkingCons(front, Chunks(rest, size), rest, size);
    }
  }

  /** Cutting a full chunk off the front is the same as cutting the whole. */
  lemma ChunksFront<T>(front: seq<T>, rest: seq<T>, size: nat)
    requires |front| == size > 0
    ensures Chunks(front + rest, size) == [front] + Chunks(rest, size)
  {
    if rest == [] {
      assert front + rest == front;
    } else {
      assert (front + rest)[..size] == front && (front + rest)[size..] == rest;
    }
  }

  /** Quotient and remainder are unique. */
  lemma DivUnique(n: nat, c: nat, q: nat, r: nat)
    requires r < c && n == c * q + r
    ensures n % c == r && n / c == q
  {
    var d := n / c - q;
    assert c * d == r - n % c;
    assert d <= -1 ==> c * d <= c * -1;
    assert d >= 1 ==> c * d >= c * 1;
  }

  /** The elements of `s` that satisfy `p`, in order. */
  ghost function Filter<T(!new)>(s: seq<T>, p: T -> bool): seq<T> {
    if s == [] then [] else Filter(s[..|s| - 1], p) + if p(s[|s| - 1]) then [s[|s| - 1]] else []
  }

  lemma FilterSnoc<T(!new)>(s: seq<T>, x: T, p: T -> bool)
    ensures Filter(s + [x], p) == Filter(s, p) + if p(x) then [x] else []
  {
    assert (s + [x])[..|s|] == s;
  }

  lemma {:induction false} FilterMember<T(!new)>(s: seq<T>, x: T, p: T -> bool)
    ensures x in Filter(s, p) <==> x in s && p(x)
  {
    if s != [] { FilterMember(s[..|s| - 1], x, p); }
  }

  lemma {:induction false} FilterNone<T(!new)>(s: seq<T>, p: T -> bool)
    requires forall i :: 0 <= i < |s| ==> !p(s[i])
    ensures Filter(s, p) == []
  {
    if s != [] { FilterNone(s[..|s| - 1], p); }
  }

  /** When `p` holds exactly from index `m` on, filtering is dropping the first `m`. */
  lemma {:induction false} FilterSuffix<T(!new)>(s: seq<T>, p: T -> bool, m: nat)
    requires m <= |s| && forall i :: 0 <= i < |s| ==> (p(s[i]) <==> m <= i)
    ensures Filter(s, p) == s[m..]
  {
    if m == |s| {
      FilterNone(s, p);
    } else {
      var front, last := s[..|s| - 1], s[|s| - 1];
      FilterSuffix(front, p, m);
      assert s[m..] == front[m..] + [last];
    }
  }
}
