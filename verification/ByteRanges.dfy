// Range requests in pkg/s3/handler.go: parsing the Range header and slicing the object.
module ByteRanges {
  import opened Core
  import opened Decimal

  // ---------------------------------------------------------------- strings

  /** unicode.IsSpace. */
  predicate IsSpace(c: char) {
    || c == ' ' || '\t' <= c <= '\r' || c == '\U{85}' || c == '\U{A0}' || c == '\U{1680}'
    || '\U{2000}' <= c <= '\U{200A}' || c == '\U{2028}' || c == '\U{2029}' || c == '\U{202F}' || c == '\U{205F}'
        || c == '\U{3000}'
  }

  function TrimLeft(s: string): string { if s != "" && IsSpace(s[0]) then TrimLeft(s[1..]) else s }

  function TrimRight(s: string): string { if s != "" && IsSpace(s[|s| - 1]) then TrimRight(s[..|s| - 1]) else s }

  function TrimSpace(s: string): string { TrimRight(TrimLeft(s)) }

  /** strings.Split with a one-character separator. */
  function Split(s: string, sep: char): (parts: seq<string>)
    ensures parts != []
  {
    if s == "" then [""]
    else
      var rest := Split(s[1..], sep);
      if s[0] == sep then [""] + rest else [[s[0]] + rest[0]] + rest[1..]
  }

  function Join(parts: seq<string>, sep: char): string
    requires parts != []
  {
    if |parts| == 1 then parts[0] else parts[0] + [sep] + Join(parts[1..], sep)
  }

  function IndexOfChar(s: string, c: char): Option<nat> {
    if s == "" then None
    else if s[0] == c then Some(0)
    else
      var rest := IndexOfChar(s[1..], c);
      if rest.None? then None else Some(rest.value + 1)
  }

  lemma {:induction false} SplitFirst(part: string, rest: string, sep: char)
    requires sep !in part
    ensures Split(part + [sep] + rest, sep) == [part] + Split(rest, sep)
  {
    var s := part + [sep] + rest;
    if part == "" {
      assert s[1..] == rest;
    } else {
      SplitFirst(part[1..], rest, sep);
      assert s[1..] == part[1..] + [sep] + rest;
      assert [part[0]] + part[1..] == part;
    }
  }

  lemma {:induction false} SplitOnly(part: string, sep: char)
    requires sep !in part
    ensures Split(part, sep) == [part]
  {
    if part != "" {
      SplitOnly(part[1..], sep);
      assert [part[0]] + part[1..] == part;
    }
  }

  lemma {:induction false} SplitJoin(parts: seq<string>, sep: char)
    requires parts != [] && forall i :: 0 <= i < |parts| ==> sep !in parts[i]
    ensures Split(Join(parts, sep), sep) == parts
  {
    if |parts| == 1 {
      SplitOnly(parts[0], sep);
    } else {
      SplitJoin(parts[1..], sep);
      SplitFirst(parts[0], Join(parts[1..], sep), sep);
      assert [parts[0]] + parts[1..] == parts;
    }
  }

  predicate Blank(s: string) { forall i :: 0 <= i < |s| ==> IsSpace(s[i]) }

  lemma {:induction false} TrimLeftPadding(pad: string, s: string)
    requires Blank(pad) && s != "" && !IsSpace(s[0])
    ensures TrimLeft(pad + s) == s
  {
    if pad == "" { assert pad + s == s; } else { TrimLeftPadding(pad[1..], s); assert (pad + s)[1..] == pad[1..] + s; }
  }

  lemma {:induction false} TrimRightPadding(s: string, pad: string)
    requires Blank(pad) && s != "" && !IsSpace(s[|s| - 1])
    ensures TrimRight(s + pad) == s
  {
    if pad == "" {
      assert s + pad == s;
    } else {
      TrimRightPadding(s, pad[..|pad| - 1]);
      assert (s + pad)[..|s + pad| - 1] == s + pad[..|pad| - 1];
    }
  }

  lemma TrimPadded(left: string, s: string, right: string)
    requires Blank(left) && Blank(right) && s != "" && !IsSpace(s[0]) && !IsSpace(s[|s| - 1])
    ensures TrimSpace(left + s + right) == s
  {
    assert left + s + right == left + (s + right);
    TrimLeftPadding(left, s + right);
    TrimRightPadding(s, right);
  }

  // ---------------------------------------------------------------- the parser

  datatype ByteRange = ByteRange(start: int, end: int)

  /** One trimmed, non-empty element. */
  function ParsePart(part: string): Option<ByteRange>
    requires part != ""
  {
    if part[0] == '-' then
      var n := ParseInt(part[1..]);
      if n.None? then None else Some(ByteRange(-n.value, -1))
    else if part[|part| - 1] == '-' then
      var n := ParseInt(part[..|part| - 1]);
      if n.None? then None else Some(ByteRange(n.value, -1))
    else
      var idx := IndexOfChar(part, '-');
      if idx.None? || idx.value >= |part| then None
      else
        var start, end := ParseInt(part[..idx.value]), ParseInt(part[idx.value + 1..]);
        if start.None? || end.None? then None else Some(ByteRange(start.value, end.value))
  }

  /** What one element of the list adds: nothing if it is blank. */
  function ElementOf(element: string): Option<seq<ByteRange>> {
    var part := TrimSpace(element);
    if part == "" then Some([])
    else
      var r := ParsePart(part);
      if r.None? then None else Some([r.value])
  }

  /** What all elements add, unless one is refused. */
  function Each(read: string -> Option<seq<ByteRange>>, parts: seq<string>): Option<seq<ByteRange>> {
    if parts == [] then Some([])
    else
      var front, last := Each(read, parts[..|parts| - 1]), read(parts[|parts| - 1]);
      if front.None? || last.None? then None else Some(front.value + last.value)
  }

  function ParseParts(parts: seq<string>): Option<seq<ByteRange>> { Each(ElementOf, parts) }

  function ParseHeader(header: string): Option<seq<ByteRange>> {
    if !("bytes=" <= header) then None else ParseParts(Split(header[6..], ','))
  }

  lemma {:induction false} IndexOfCharInRange(s: string, c: char)
    ensures IndexOfChar(s, c).Some? ==> IndexOfChar(s, c).value < |s|
  {
    if s != "" { IndexOfCharInRange(s[1..], c); }
  }

  lemma EachSnoc(read: string -> Option<seq<ByteRange>>, parts: seq<string>, last: string)
    ensures Each(read, parts + [last]) ==
            if Each(read, parts).None? || read(last).None? then None
                else Some(Each(read, parts).value + read(last).value)
  {
    assert (parts + [last])[..|parts|] == parts;
  }

  /** One refused element refuses the whole list. */
  lemma {:induction false} EachFails(read: string -> Option<seq<ByteRange>>, parts: seq<string>, k: nat)
    requires k <= |parts| && Each(read, parts[..k]).None?
    ensures Each(read, parts).None?
    decreases |parts| - k
  {
    if k < |parts| {
      assert parts[..k + 1][..k] == parts[..k];
      EachFails(read, parts, k + 1);
    } else {
      assert parts[..k] == parts;
    }
  }

  lemma {:induction false} EachReads(read: string -> Option<seq<ByteRange>>, parts: seq<string>,
      rs: seq<seq<ByteRange>>)
    requires |parts| == |rs| && forall i :: 0 <= i < |parts| ==> read(parts[i]) == Some(rs[i])
    ensures Each(read, parts) == Some(Concat(rs))
  {
    if parts != [] { EachReads(read, parts[..|parts| - 1], rs[..|rs| - 1]); }
  }

  /** The loop body of parseRangeHeader on one trimmed, non-empty element. */
  method ParseElement(part: string) returns (r: Option<ByteRange>)
    requires part != ""
    ensures r == ParsePart(part)
  {
    if part[0] == '-' {
      var n := ParseInt(part[1..]);
      if n.None? { return None; }
      return Some(ByteRange(-n.value, -1));
    } else if part[|part| - 1] == '-' {
      var n := ParseInt(part[..|part| - 1]);
      if n.None? { return None; }
      return Some(ByteRange(n.value, -1));
    } else {
      var idx := IndexOfChar(part, '-');
      if idx.None? { return None; }
      IndexOfCharInRange(part, '-');
      var start := ParseInt(part[..idx.value]);
      if start.None? { return None; }
      var end := ParseInt(part[idx.value + 1..]);
      if end.None? { return None; }
      return Some(ByteRange(start.value, end.value));
    }
  }

  /** The loop body of parseRangeHeader on any element. */
  method ParseNext(element: string) returns (more: Option<seq<ByteRange>>)
    ensures more == ElementOf(element)
  {
    var part := TrimSpace(element);
    if part == "" { return Some([]); }
    var r := ParseElement(part);
    more := if r.None? then None else Some([r.value]);
  }

  /** parseRangeHeader: a loop over the comma-separated elements with early returns. */
  method ParseRangeHeader(header: string) returns (ranges: Option<seq<ByteRange>>)
    ensures ranges == ParseHeader(header)
  {
    if !("bytes=" <= header) { return None; }
    var parts := Split(header[6..], ',');
    var result: seq<ByteRange> := [];
    for i := 0 to |parts|
      invariant Each(ElementOf, parts[..i]) == Some(result)
    {
      var more := ParseNext(parts[i]);
      assert parts[..i + 1] == parts[..i] + [parts[i]];
      EachSnoc(ElementOf, parts[..i], parts[i]);
      if more.None? {
        EachFails(ElementOf, parts, i + 1);
        return None;
      }
      result := result + more.value;
    }
    assert parts[..|parts|] == parts;
    return Some(result);
  }

  // ---------------------------------------------------------------- section 14.1.2 of RFC 9110

  datatype RangeSpec = Closed(first: nat, last: nat) | From(first: nat) | Suffix(length: nat)

  predicate Fits(spec: RangeSpec) {
    match spec
    case Closed(first, last) => Int64(first) && Int64(last)
    case From(first) => Int64(first)
    case Suffix(length) => Int64(length)
  }

  /** A number as section 14.1.2 of RFC 9110 lets it be written: with any leading zeros. */
  function Spelled(zeros: nat, n: nat): string { Padding(zeros) + Digits(n) }

  function Render(spec: RangeSpec, zeros: nat, moreZeros: nat): string {
    match spec
    case Closed(first, last) => Spelled(zeros, first) + "-" + Spelled(moreZeros, last)
    case From(first) => Spelled(zeros, first) + "-"
    case Suffix(length) => "-" + Spelled(zeros, length)
  }

  /** How the code holds a range: a negative start is a suffix, a negative end is open. */
  function Held(spec: RangeSpec): ByteRange {
    match spec
    case Closed(first, last) => ByteRange(first, last)
    case From(first) => ByteRange(first, -1)
    case Suffix(length) => ByteRange(0 - length, -1)
  }

  /** A list element: a range with optional blanks around it, or nothing but blanks. */
  datatype Element =
    | Ranged(left: string, spec: RangeSpec, zeros: nat, moreZeros: nat, right: string)
    | Empty(blanks: string)

  predicate OptionalBlanks(s: string) { forall i :: 0 <= i < |s| ==> s[i] == ' ' || s[i] == '\t' }

  function Written(e: Element): string {
    match e
    case Ranged(left, spec, zeros, moreZeros, right) => left + Render(spec, zeros, moreZeros) + right
    case Empty(blanks) => blanks
  }

  /** What the code makes of an element. */
  function HeldBy(e: Element): seq<ByteRange> { if e.Ranged? then [Held(e.spec)] else [] }

  predicate Numeric(s: string) { s != "" && forall i :: 0 <= i < |s| ==> IsDigit(s[i]) || s[i] == '-' }

  lemma SpelledDigits(zeros: nat, n: nat)
    ensures AllDigits(Spelled(zeros, n)) && Spelled(zeros, n) != ""
  {
    ValuePadded(zeros, Digits(n));
  }

  lemma RenderShape(spec: RangeSpec, zeros: nat, moreZeros: nat)
    ensures Numeric(Render(spec, zeros, moreZeros))
  {
    match spec
    case Closed(first, last) =>
      SpelledDigits(zeros, first);
      SpelledDigits(moreZeros, last);
    case From(first) => SpelledDigits(zeros, first);
    case Suffix(length) => SpelledDigits(zeros, length);
  }

  lemma {:induction false} IndexAfterDigits(digits: string, rest: string)
    requires AllDigits(digits)
    ensures IndexOfChar(digits + "-" + rest, '-') == Some(|digits|)
  {
    var s := digits + "-" + rest;
    if digits != "" {
      assert s[1..] == digits[1..] + "-" + rest;
      IndexAfterDigits(digits[1..], rest);
    }
  }

  lemma ParseClosed(first: nat, last: nat, zeros: nat, moreZeros: nat)
    requires Int64(first) && Int64(last)
    ensures ParsePart(Spelled(zeros, first) + "-" + Spelled(moreZeros, last)) == Some(ByteRange(first, last))
  {
    var a, b := Spelled(zeros, first), Spelled(moreZeros, last);
    var part := a + "-" + b;
    SpelledDigits(zeros, first);
    SpelledDigits(moreZeros, last);
    ParsePadded(zeros, first);
    ParsePadded(moreZeros, last);
    assert part[0] == a[0] && IsDigit(part[0]) && part[|part| - 1] == b[|b| - 1] && IsDigit(part[|part| - 1]);
    IndexAfterDigits(a, b);
    assert part[..|a|] == a && part[|a| + 1..] == b;
  }

  lemma ParseOpen(first: nat, zeros: nat)
    requires Int64(first)
    ensures ParsePart(Spelled(zeros, first) + "-") == Some(ByteRange(first, -1))
  {
    var a := Spelled(zeros, first);
    var part := a + "-";
    SpelledDigits(zeros, first);
    ParsePadded(zeros, first);
    assert part[0] == a[0] && IsDigit(part[0]) && part[..|part| - 1] == a;
  }

  lemma ParseRendered(spec: RangeSpec, zeros: nat, moreZeros: nat)
    requires Fits(spec)
    ensures Render(spec, zeros, moreZeros) != "" && ParsePart(Render(spec, zeros, moreZeros)) == Some(Held(spec))
  {
    RenderShape(spec, zeros, moreZeros);
    match spec
    case Closed(first, last) => ParseClosed(first, last, zeros, moreZeros);
    case From(first) => ParseOpen(first, zeros);
    case Suffix(length) =>
      ParsePadded(zeros, length);
      assert Render(spec, zeros, moreZeros)[1..] == Spelled(zeros, length);
  }

  lemma {:induction false} TrimBlanks(s: string)
    requires Blank(s)
    ensures TrimSpace(s) == ""
  {
    if s != "" { TrimBlanks(s[1..]); }
  }

  predicate Proper(e: Element) {
    match e
    case Ranged(left, spec, _, _, right) => Fits(spec) && OptionalBlanks(left) && OptionalBlanks(right)
    case Empty(blanks) => OptionalBlanks(blanks)
  }

  lemma ElementParses(e: Element)
    requires Proper(e)
    ensures ',' !in Written(e) && ElementOf(Written(e)) == Some(HeldBy(e))
  {
    match e
    case Ranged(left, spec, zeros, moreZeros, right) =>
      RenderShape(spec, zeros, moreZeros);
      TrimPadded(left, Render(spec, zeros, moreZeros), right);
      ParseRendered(spec, zeros, moreZeros);
    case Empty(blanks) => TrimBlanks(blanks);
  }

  function WrittenAll(es: seq<Element>): seq<string> { seq(|es|, i requires 0 <= i < |es| => Written(es[i])) }

  function HeldEach(es: seq<Element>): seq<seq<ByteRange>> { seq(|es|, i requires 0 <= i < |es| => HeldBy(es[i])) }

  function Header(es: seq<Element>): string
    requires es != []
  {
    "bytes=" + Join(WrittenAll(es), ',')
  }

  /**
   * Print and parse: any comma-separated list of byte ranges written as section 14.1.2 of RFC 9110 says - closed,
   * open-ended or suffix, 64-bit values with any leading zeros, optional blanks, empty elements between them - is read
   * back as exactly those ranges in order.
   */
  lemma ParsePrinted(es: seq<Element>)
    requires es != [] && forall i :: 0 <= i < |es| ==> Proper(es[i])
    ensures ParseHeader(Header(es)) == Some(Concat(HeldEach(es)))
  {
    var parts := WrittenAll(es);
    forall i | 0 <= i < |parts| ensures ',' !in parts[i] && ElementOf(parts[i]) == Some(HeldEach(es)[i]) {
      ElementParses(es[i]);
    }
    SplitJoin(parts, ',');
    assert Header(es)[6..] == Join(parts, ',');
    EachReads(ElementOf, parts, HeldEach(es));
  }

  /** The only range of a list is all that is read. */
  lemma {:induction false} OnlyRange(es: seq<Element>, i: nat)
    requires i < |es| && es[i].Ranged? && forall j :: 0 <= j < |es| && j != i ==> es[j].Empty?
    ensures Concat(HeldEach(es)) == [Held(es[i].spec)]
  {
    var n := |es| - 1;
    assert HeldEach(es)[..n] == HeldEach(es[..n]);
    if i < n { OnlyRange(es[..n], i); } else { NoRange(es[..n]); }
  }

  lemma {:induction false} NoRange(es: seq<Element>)
    requires forall j :: 0 <= j < |es| ==> es[j].Empty?
    ensures Concat(HeldEach(es)) == []
  {
    if es != [] {
      assert HeldEach(es)[..|es| - 1] == HeldEach(es[..|es| - 1]);
      NoRange(es[..|es| - 1]);
    }
  }

  // ---------------------------------------------------------------- answering a range request

  datatype Response =
    | NotFound
    | NotSatisfiable(size: Option<nat>)
    | Broken
    | Partial(contentLength: int, contentRange: string, sent: Bytes)

  /** How the body gets to the start of the range. */
  datatype Skip = Seeks | SeekFails | Discards

  /** What GetObject gives; its body need not be as long as HeadObject said. */
  datatype Fetched = Fetched(body: Bytes, skip: Skip)

  function ContentRange(start: int, end: int, size: int): string {
    "bytes " + FormatInt(start) + "-" + FormatInt(end) + "/" + FormatInt(size)
  }

  /** The range adjusted to an object of `size` bytes. */
  function Adjusted(r: ByteRange, size: nat): (int, int) {
    (if r.start < 0 then size + r.start else r.start, if r.end < 0 || r.end >= size then size - 1 else r.end)
  }

  /** The body from `start` on, or None when skipping fails; seeking beyond the end does not. */
  function BodyFrom(f: Fetched, start: int): Option<Bytes> {
    if start <= 0 then Some(f.body)
    else if f.skip.SeekFails? || (f.skip.Discards? && |f.body| < start) then None
    else Some(if start <= |f.body| then f.body[start..] else [])
  }

  function Front(body: Bytes, n: int): Bytes
    requires n >= 0
  {
    if n <= |body| then body[..n] else body
  }

  /** What the adjusted range answers. */
  function AnswerAt(start: int, end: int, size: nat, got: Option<Fetched>): Response {
    if start > end || start >= size then NotSatisfiable(Some(size))
    else if got.None? then NotFound
    else
      var rest := BodyFrom(got.value, start);
      if rest.None? then Broken
      else Partial(end - start + 1, ContentRange(start, end, size), Front(rest.value, end - start + 1))
  }

  /** What a single parsed range answers. */
  function Answer(r: ByteRange, size: nat, got: Option<Fetched>): Response {
    AnswerAt(Adjusted(r, size).0, Adjusted(r, size).1, size, got)
  }

  /** What a range request answers. */
  function Respond(header: string, head: Option<nat>, got: Option<Fetched>): Response {
    var ranges := ParseHeader(header);
    if ranges.None? || ranges.value == [] then NotSatisfiable(None)
    else if head.None? then NotFound
    else if |ranges.value| > 1 then NotSatisfiable(None)
    else Answer(ranges.value[0], head.value, got)
  }

  /** getRangeObject: `head` is the size HeadObject reports, or None; `got` what GetObject then gives, or None. */
  method GetRangeObject(header: string, head: Option<nat>, got: Option<Fetched>) returns (response: Response)
    ensures response == Respond(header, head, got)
    ensures !("bytes=" <= header) ==> response == NotSatisfiable(None)
    ensures head.None? ==> response == NotFound || response == NotSatisfiable(None)
  {
    var ranges := ParseRangeHeader(header);
    if ranges.None? || |ranges.value| == 0 { return NotSatisfiable(None); }
    if head.None? { return NotFound; }
    if |ranges.value| > 1 { return NotSatisfiable(None); }
    response := SendRange(ranges.value[0], head.value, got);
  }

  /** Adjusting the range to the object, skipping to its start and copying its length. */
  method SendRange(r: ByteRange, size: nat, got: Option<Fetched>) returns (response: Response)
    ensures response == Answer(r, size, got)
  {
    var start, end := r.start, r.end;
    if start < 0 { start := size + start; }
    if end < 0 || end >= size { end := size - 1; }
    response := SendFrom(start, end, size, got);
  }

  method SendFrom(start: int, end: int, size: nat, got: Option<Fetched>) returns (response: Response)
    ensures response == AnswerAt(start, end, size, got)
  {
    if start > end || start >= size { return NotSatisfiable(Some(size)); }
    if got.None? { return NotFound; }
    var rest := SkipTo(got.value, start);
    if rest.None? { return Broken; }
    var contentLength := end - start + 1;
    return Partial(contentLength, ContentRange(start, end, size), Front(rest.value, contentLength));
  }

  /** Seeking, or reading and discarding. */
  method SkipTo(f: Fetched, start: int) returns (rest: Option<Bytes>)
    ensures rest == BodyFrom(f, start)
  {
    if start <= 0 { return Some(f.body); }
    if f.skip.SeekFails? { return None; }
    if start <= |f.body| { return Some(f.body[start..]); }
    return if f.skip.Discards? then None else Some([]);
  }

  /** The positions a range selects in a representation of `size` bytes, or None when it selects nothing. */
  function Selects(spec: RangeSpec, size: nat): Option<(nat, nat)> {
    match spec
    case Closed(first, last) =>
      if first <= last && first < size then Some((first, if last < size then last else size - 1)) else None
    case From(first) => if first < size then Some((first, size - 1)) else None
    case Suffix(length) =>
      if length > 0 && size > 0 then Some((if length <= size then size - length else 0, size - 1)) else None
  }

  /** The right answer: exactly the selected bytes of the body with matching headers, or 416. */
  predicate RightAnswer(response: Response, spec: RangeSpec, size: nat, body: Bytes) {
    var sel := Selects(spec, size);
    if sel.None? then response == NotSatisfiable(Some(size))
    else
      var (first, last) := sel.value;
      && first <= last < |body|
      && response == Partial(last - first + 1, "bytes " + Digits(first) + "-" + Digits(last) + "/" + Digits(size),
                             body[first..last + 1])
  }

  /**
   * A suffix the code does not read as section 14.1.2 of RFC 9110 does: over-long, or empty and not on an empty object.
   */
  predicate OddSuffix(spec: RangeSpec, size: nat) {
    spec.Suffix? && (spec.length > size || (spec.length == 0 && size > 0))
  }

  /** The selected bytes can be had. */
  predicate Deliverable(spec: RangeSpec, size: nat, got: Option<Fetched>) {
    var sel := Selects(spec, size);
    sel.Some? ==> got.Some? && sel.value.1 < |got.value.body| && (sel.value.0 > 0 ==> !got.value.skip.SeekFails?)
  }

  function BodyOf(got: Option<Fetched>): Bytes { if got.Some? then got.value.body else [] }

  /** Apart from odd suffixes, the adjusted range is the selection. */
  lemma AdjustedSelects(spec: RangeSpec, size: nat)
    requires !OddSuffix(spec, size)
    ensures var (start, end) := Adjusted(Held(spec), size);
            Selects(spec, size) == if start > end || start >= size then None else Some((start, end))
  {
  }

  lemma OddSuffixWrong(spec: RangeSpec, size: nat, got: Option<Fetched>)
    requires OddSuffix(spec, size)
    ensures !RightAnswer(Answer(Held(spec), size, got), spec, size, BodyOf(got))
  {
    var (start, end) := Adjusted(Held(spec), size);
    assert end == size - 1 && start == if spec.length == 0 then 0 else size - spec.length;
  }

  lemma SliceOf(f: Fetched, first: nat, last: nat)
    requires first <= last
    ensures last < |f.body| && (first > 0 ==> !f.skip.SeekFails?) ==>
              BodyFrom(f, first).Some? && Front(BodyFrom(f, first).value, last - first + 1) == f.body[first..last + 1]
    ensures BodyFrom(f, first).Some? && last >= |f.body| ==>
            |Front(BodyFrom(f, first).value, last - first + 1)| < last - first + 1
  {
  }

  /**
   * The answer is right if and only if the range is not an odd suffix and the backend delivers the selected bytes: the
   * object is there, as long as HeadObject said, and can be positioned.
   */
  lemma SliceExactly(spec: RangeSpec, size: nat, got: Option<Fetched>)
    ensures RightAnswer(Answer(Held(spec), size, got), spec, size, BodyOf(got))
        <==> !OddSuffix(spec, size) && Deliverable(spec, size, got)
  {
    if OddSuffix(spec, size) {
      OddSuffixWrong(spec, size, got);
    } else {
      AdjustedSelects(spec, size);
      var sel := Selects(spec, size);
      if sel.Some? && got.Some? { SliceOf(got.value, sel.value.0, sel.value.1); }
    }
  }

  /**
   * From header to answer: a header written for one range, with whatever leading zeros, blanks and empty elements, gets
   * the right answer if and only if the range is not an odd suffix and the backend delivers the selected bytes.
   */
  lemma PrintedAnswerExactly(es: seq<Element>, i: nat, size: nat, got: Option<Fetched>)
    requires (forall j :: 0 <= j < |es| ==> Proper(es[j])) && i < |es| && es[i].Ranged?
    requires forall j :: 0 <= j < |es| && j != i ==> es[j].Empty?
    ensures RightAnswer(Respond(Header(es), Some(size), got), es[i].spec, size, BodyOf(got))
        <==> !OddSuffix(es[i].spec, size) && Deliverable(es[i].spec, size, got)
  {
    ParsePrinted(es);
    OnlyRange(es, i);
    SliceExactly(es[i].spec, size, got);
  }

  // ---------------------------------------------------------------- the other headers

  /** At least two elements of the list are ranges. */
  ghost predicate Several(es: seq<Element>) { exists i, j :: 0 <= i < j < |es| && es[i].Ranged? && es[j].Ranged? }

  lemma {:induction false} RangesCounted(es: seq<Element>)
    ensures Concat(HeldEach(es)) == [] <==> forall i :: 0 <= i < |es| ==> es[i].Empty?
    ensures |Concat(HeldEach(es))| > 1 <==> Several(es)
  {
    if es != [] {
      var n := |es| - 1;
      assert HeldEach(es)[..n] == HeldEach(es[..n]);
      RangesCounted(es[..n]);
      assert forall i :: 0 <= i < n ==> es[..n][i] == es[i];
      if Concat(HeldEach(es[..n])) != [] {
        var i :| 0 <= i < n && es[..n][i].Ranged?;
        assert es[i].Ranged?;
      }
    }
  }

  /**
   * A header that is not for one range: without any it is refused; with several too, after the object was looked up.
   */
  lemma OtherCountsRefused(es: seq<Element>, head: Option<nat>, got: Option<Fetched>)
    requires es != [] && forall i :: 0 <= i < |es| ==> Proper(es[i])
    ensures (forall i :: 0 <= i < |es| ==> es[i].Empty?) ==> Respond(Header(es), head, got) == NotSatisfiable(None)
    ensures (exists i :: 0 <= i < |es| && es[i].Ranged?) && head.None? ==> Respond(Header(es), head, got) == NotFound
    ensures Several(es) && head.Some? ==> Respond(Header(es), head, got) == NotSatisfiable(None)
  {
    ParsePrinted(es);
    RangesCounted(es);
  }

  lemma {:induction false} EachRefuses(read: string -> Option<seq<ByteRange>>, parts: seq<string>, k: nat)
    requires k < |parts| && read(parts[k]).None?
    ensures Each(read, parts).None?
  {
    assert parts[..k + 1][..k] == parts[..k];
    EachFails(read, parts, k + 1);
  }

  lemma {:induction false} TrimLeftKeeps(s: string, c: char)
    requires !IsSpace(c)
    ensures c in TrimLeft(s) <==> c in s
  {
    if s != "" && IsSpace(s[0]) { TrimLeftKeeps(s[1..], c); assert s == [s[0]] + s[1..]; }
  }

  lemma {:induction false} TrimRightKeeps(s: string, c: char)
    requires !IsSpace(c)
    ensures c in TrimRight(s) <==> c in s
  {
    if s != "" && IsSpace(s[|s| - 1]) { TrimRightKeeps(s[..|s| - 1], c); assert s == s[..|s| - 1] + [s[|s| - 1]]; }
  }

  lemma {:induction false} NotFoundIn(s: string, c: char)
    requires c !in s
    ensures IndexOfChar(s, c).None?
  {
    if s != "" { NotFoundIn(s[1..], c); }
  }

  /** An element that is neither blank nor has a hyphen is refused. */
  lemma NoHyphenRefused(part: string, c: char)
    requires c in part && !IsSpace(c) && '-' !in part
    ensures ElementOf(part).None?
  {
    TrimLeftKeeps(part, c);
    TrimRightKeeps(TrimLeft(part), c);
    TrimLeftKeeps(part, '-');
    TrimRightKeeps(TrimLeft(part), '-');
    NotFoundIn(TrimSpace(part), '-');
  }

  /** One element without a hyphen spoils the header: 416, whatever the object. */
  lemma UnreadableRefused(parts: seq<string>, k: nat, c: char, head: Option<nat>, got: Option<Fetched>)
    requires k < |parts| && forall i :: 0 <= i < |parts| ==> ',' !in parts[i]
    requires c in parts[k] && !IsSpace(c) && '-' !in parts[k]
    ensures Respond("bytes=" + Join(parts, ','), head, got) == NotSatisfiable(None)
  {
    SplitJoin(parts, ',');
    assert ("bytes=" + Join(parts, ','))[6..] == Join(parts, ',');
    NoHyphenRefused(parts[k], c);
    EachRefuses(ElementOf, parts, k);
  }
}
