// ListObjectsWithDelimiter of internal/storage/s3.go: a listing of a virtual bucket is answered by
// rewriting the query for the shared real bucket and rewriting the answer back.
module VirtualListing {
  import opened Core
  import opened Strings
  import opened VirtualBuckets

  // ---------------------------------------------------------------- what an S3 listing means

  datatype Entry = Entry(key: string, size: int, etag: string, lastModified: int, storageClass: string)

  /** `rollFirst` is the server's reading of a marker: compare it with the rolled-up item, or with the key. */
  datatype Query = Query(prefix: string, marker: Option<string>, delimiter: string, maxKeys: nat, rollFirst: bool)

  datatype Item = Content(entry: Entry) | Common(prefix: string)

  datatype Listing = Listing(
    contents: seq<Entry>, commonPrefixes: seq<string>, nextMarker: Option<string>, truncated: bool)

  /** A key is reported itself, or as the common prefix up to the first delimiter after the query prefix. */
  function RollUp(e: Entry, q: Query): Item
    requires q.prefix <= e.key
  {
    var rest := e.key[|q.prefix|..];
    var at := IndexOf(rest, q.delimiter);
    if q.delimiter == "" || at.None? then Content(e)
    else
      IndexInRange(rest, q.delimiter);
      Common(q.prefix + rest[..at.value + |q.delimiter|])
  }

  function ItemKey(item: Item): string { if item.Content? then item.entry.key else item.prefix }

  predicate Listed(e: Entry, q: Query) {
    && q.prefix <= e.key
    && (q.marker.Some? ==> Less(q.marker.value, if q.rollFirst then ItemKey(RollUp(e, q)) else e.key))
  }

  /** All items of a bucket, in bucket order, each common prefix once. */
  function Items(bucket: seq<Entry>, q: Query): seq<Item> {
    if bucket == [] then []
    else
      var front := Items(bucket[..|bucket| - 1], q);
      var e := bucket[|bucket| - 1];
      if !Listed(e, q) then front
      else
        var item := RollUp(e, q);
        if item.Common? && item in front then front else front + [item]
  }

  function ContentsOf(items: seq<Item>): seq<Entry> {
    if items == [] then []
    else ContentsOf(items[..|items| - 1]) + if items[|items| - 1].Content? then [items[|items| - 1].entry] else []
  }

  function CommonsOf(items: seq<Item>): seq<string> {
    if items == [] then []
    else CommonsOf(items[..|items| - 1]) + if items[|items| - 1].Common? then [items[|items| - 1].prefix] else []
  }

  /** The first page: at most maxKeys items, and where to go on when a delimiter is used. */
  function Page(items: seq<Item>, q: Query): Listing {
    var truncated := 0 < q.maxKeys < |items|;
    var shown := Shown(items, q);
    Listing(ContentsOf(shown), CommonsOf(shown),
            if truncated && q.delimiter != "" then Some(ItemKey(shown[|shown| - 1])) else None,
            truncated)
  }

  /** What S3 answers for a bucket holding these entries. */
  function List(bucket: seq<Entry>, q: Query): Listing { Page(Items(bucket, q), q) }

  // ---------------------------------------------------------------- what the code does

  /** The query sent to the real bucket. */
  function RealQuery(bucketPrefix: string, prefix: string, marker: string, delimiter: string, maxKeys: nat,
      rollFirst: bool): Query {
    var realMarker := if marker == "" then None else Some(Prepend(bucketPrefix, marker));
    Query(bucketPrefix + prefix, realMarker, delimiter, maxKeys, rollFirst)
  }

  predicate Hidden(delimiter: string, key: string) { delimiter == "/" && EndsWith(key, "/") }

  /** What the loop over resp.Contents keeps. */
  function KeepContents(bucketPrefix: string, delimiter: string, contents: seq<Entry>): seq<Entry> {
    if contents == [] then []
    else
      var e := contents[|contents| - 1];
      var rest := KeepContents(bucketPrefix, delimiter, contents[..|contents| - 1]);
      var key := Strip(bucketPrefix, e.key);
      if (bucketPrefix != "" && !(bucketPrefix <= e.key)) || Hidden(delimiter, key) then rest
      else rest + [e.(key := key)]
  }

  function KeepPrefixes(bucketPrefix: string, prefixes: seq<string>): seq<string> {
    if prefixes == [] then []
    else
      var p := prefixes[|prefixes| - 1];
      var rest := KeepPrefixes(bucketPrefix, prefixes[..|prefixes| - 1]);
      if bucketPrefix != "" && !(bucketPrefix <= p) then rest else rest + [Strip(bucketPrefix, p)]
  }

  function VirtualAnswer(bucketPrefix: string, delimiter: string, resp: Listing): Listing {
    Listing(KeepContents(bucketPrefix, delimiter, resp.contents), KeepPrefixes(bucketPrefix, resp.commonPrefixes),
            if resp.nextMarker.Some? then Some(Strip(bucketPrefix, resp.nextMarker.value)) else None, resp.truncated)
  }

  /** The loop over resp.Contents. */
  method RewriteContents(bucketPrefix: string, delimiter: string, entries: seq<Entry>) returns (contents: seq<Entry>)
    ensures contents == KeepContents(bucketPrefix, delimiter, entries)
  {
    contents := [];
    for i := 0 to |entries|
      invariant contents == KeepContents(bucketPrefix, delimiter, entries[..i])
    {
      var key := entries[i].key;
      assert entries[..i + 1][..i] == entries[..i];
      if bucketPrefix != "" && !(bucketPrefix <= key) { continue; }
      var virtualKey := Strip(bucketPrefix, key);
      if delimiter == "/" && EndsWith(virtualKey, "/") { continue; }
      contents := contents + [entries[i].(key := virtualKey)];
    }
    assert entries[..|entries|] == entries;
  }

  /** The loop over resp.CommonPrefixes. */
  method RewritePrefixes(bucketPrefix: string, commonPrefixes: seq<string>) returns (prefixes: seq<string>)
    ensures prefixes == KeepPrefixes(bucketPrefix, commonPrefixes)
  {
    prefixes := [];
    for i := 0 to |commonPrefixes|
      invariant prefixes == KeepPrefixes(bucketPrefix, commonPrefixes[..i])
    {
      var p := commonPrefixes[i];
      assert commonPrefixes[..i + 1][..i] == commonPrefixes[..i];
      if bucketPrefix != "" && !(bucketPrefix <= p) { continue; }
      prefixes := prefixes + [Strip(bucketPrefix, p)];
    }
    assert commonPrefixes[..|commonPrefixes|] == commonPrefixes;
  }

  /** The two rewriting loops. */
  method RewriteAnswer(bucketPrefix: string, delimiter: string, resp: Listing) returns (result: Listing)
    ensures result == VirtualAnswer(bucketPrefix, delimiter, resp)
    ensures result.truncated == resp.truncated
    ensures result.contents == Filter(View(bucketPrefix, resp.contents),
                                      (e: Entry) => delimiter != "/" || e.key == "" || e.key[|e.key| - 1] != '/')
  {
    KeepIsView(bucketPrefix, delimiter, resp.contents);
    var contents := RewriteContents(bucketPrefix, delimiter, resp.contents);
    var nextMarker := None;
    if resp.nextMarker.Some? { nextMarker := Some(Strip(bucketPrefix, resp.nextMarker.value)); }
    var prefixes := RewritePrefixes(bucketPrefix, resp.commonPrefixes);
    result := Listing(contents, prefixes, nextMarker, resp.truncated);
  }

  // ---------------------------------------------------------------- what it should mean

  /** The virtual bucket: the entries under the prefix, without it. */
  function View(bucketPrefix: string, shared: seq<Entry>): seq<Entry> {
    if shared == [] then []
    else
      var e := shared[|shared| - 1];
      View(bucketPrefix, shared[..|shared| - 1])
      + if bucketPrefix <= e.key then [e.(key := e.key[|bucketPrefix|..])] else []
  }

  /** The marker the caller's marker stands for: addPrefixToKey eats a leading slash when there is a prefix. */
  function MarkerMeant(bucketPrefix: string, marker: string): Option<string> {
    if marker == "" then None
    else if bucketPrefix != "" && LeadingSlash(marker) then Some(marker[1..])
    else Some(marker)
  }

  function DropHidden(delimiter: string, contents: seq<Entry>): seq<Entry> {
    if contents == [] then []
    else
      DropHidden(delimiter, contents[..|contents| - 1])
      + if Hidden(delimiter, contents[|contents| - 1].key) then [] else [contents[|contents| - 1]]
  }

  /** Only keys that end in a slash are dropped, and only when the delimiter is one; the others stay, in their order. */
  lemma {:induction false} DropHiddenFilters(delimiter: string, contents: seq<Entry>)
    ensures DropHidden(delimiter, contents)
         == Filter(contents, (e: Entry) => delimiter != "/" || e.key == "" || e.key[|e.key| - 1] != '/')
  {
    if contents != [] {
      DropHiddenFilters(delimiter, contents[..|contents| - 1]);
      SlashEnds(contents[|contents| - 1].key);
    }
  }

  lemma SlashEnds(key: string)
    ensures EndsWith(key, "/") <==> key != "" && key[|key| - 1] == '/'
  {
    if key != "" { assert key[|key| - 1..] == [key[|key| - 1]]; }
  }

  /** The ordinary listing of the virtual bucket, without folder markers when the delimiter is "/". */
  function DirectAnswer(bucketPrefix: string, shared: seq<Entry>, q: Query): Listing {
    var l := List(View(bucketPrefix, shared), q);
    l.(contents := DropHidden(q.delimiter, l.contents))
  }

  function Outside(p: string, item: Item): Item {
    match item
    case Content(e) => Content(e.(key := p + e.key))
    case Common(c) => Common(p + c)
  }

  function AllOutside(p: string, items: seq<Item>): seq<Item> {
    seq(|items|, i requires 0 <= i < |items| => Outside(p, items[i]))
  }

  ghost predicate Rewritten(p: string, q: Query, rq: Query) {
    rq == q.(prefix := p + q.prefix, marker := if q.marker.None? then None else Some(p + q.marker.value))
  }

  lemma RollUpRewrites(p: string, e: Entry, q: Query, rq: Query)
    requires Rewritten(p, q, rq) && q.prefix <= e.key
    ensures rq.prefix <= p + e.key
    ensures RollUp(e.(key := p + e.key), rq) == Outside(p, RollUp(e, q))
  {
    var rest := e.key[|q.prefix|..];
    assert (p + e.key)[|p + q.prefix|..] == rest;
    var at := IndexOf(rest, q.delimiter);
    if q.delimiter != "" && at.Some? {
      IndexInRange(rest, q.delimiter);
      var head := rest[..at.value + |q.delimiter|];
      assert p + q.prefix + head == p + (q.prefix + head);
    }
  }

  lemma PrefixRewrites(p: string, prefix: string, key: string)
    ensures p + prefix <= p + key <==> prefix <= key
  {
    if p + prefix <= p + key { assert prefix == (p + key)[|p|..|p + prefix|]; }
  }

  lemma EntryRewrites(p: string, e: Entry, q: Query, rq: Query)
    requires Rewritten(p, q, rq)
    ensures Listed(e.(key := p + e.key), rq) <==> Listed(e, q)
    ensures q.prefix <= e.key ==> RollUp(e.(key := p + e.key), rq) == Outside(p, RollUp(e, q))
  {
    PrefixRewrites(p, q.prefix, e.key);
    if q.prefix <= e.key {
      RollUpRewrites(p, e, q, rq);
      if q.marker.Some? {
        LessPrefixed(p, q.marker.value, ItemKey(RollUp(e, q)));
        LessPrefixed(p, q.marker.value, e.key);
      }
    }
  }

  lemma OutsideInjective(p: string, a: Item, b: Item)
    requires Outside(p, a) == Outside(p, b)
    ensures a == b
  {
    if a.Content? {
      assert (p + a.entry.key)[|p|..] == a.entry.key && (p + b.entry.key)[|p|..] == b.entry.key;
    } else {
      assert (p + a.prefix)[|p|..] == a.prefix && (p + b.prefix)[|p|..] == b.prefix;
    }
  }

  lemma MemberOutside(p: string, item: Item, items: seq<Item>)
    ensures Outside(p, item) in AllOutside(p, items) <==> item in items
  {
    if Outside(p, item) in AllOutside(p, items) {
      var i :| 0 <= i < |items| && AllOutside(p, items)[i] == Outside(p, item);
      OutsideInjective(p, item, items[i]);
    }
    if item in items {
      var i :| 0 <= i < |items| && items[i] == item;
      assert AllOutside(p, items)[i] == Outside(p, item);
    }
  }

  lemma LongerPrefix(p: string, prefix: string, key: string)
    ensures p + prefix <= key ==> p <= key
  {
    if p + prefix <= key { assert p == (p + prefix)[..|p|] == key[..|p|]; }
  }

  lemma ItemsNext(front: seq<Entry>, e: Entry, q: Query)
    ensures Items(front + [e], q) ==
              if !Listed(e, q) || (RollUp(e, q).Common? && RollUp(e, q) in Items(front, q)) then Items(front, q)
              else Items(front, q) + [RollUp(e, q)]
  {
    assert (front + [e])[..|front|] == front;
  }

  lemma OutsideNext(p: string, items: seq<Item>, item: Item)
    ensures AllOutside(p, items + [item]) == AllOutside(p, items) + [Outside(p, item)]
  {
    assert (items + [item])[..|items|] == items;
  }

  /** The items of the rewritten query are the items of the virtual query, moved under the prefix. */
  lemma {:induction false} ItemsRewrite(p: string, bucket: seq<Entry>, q: Query, rq: Query)
    requires Rewritten(p, q, rq)
    ensures Items(bucket, rq) == AllOutside(p, Items(View(p, bucket), q))
  {
    if bucket != [] {
      var front, e := bucket[..|bucket| - 1], bucket[|bucket| - 1];
      assert bucket == front + [e];
      ItemsRewrite(p, front, q, rq);
      ItemsNext(front, e, rq);
      if p <= e.key {
        var inner := e.(key := e.key[|p|..]);
        assert inner.(key := p + inner.key) == e && View(p, bucket) == View(p, front) + [inner];
        EntryRewrites(p, inner, q, rq);
        ItemsNext(View(p, front), inner, q);
        if Listed(inner, q) {
          MemberOutside(p, RollUp(inner, q), Items(View(p, front), q));
          OutsideNext(p, Items(View(p, front), q), RollUp(inner, q));
        }
      } else {
        LongerPrefix(p, q.prefix, e.key);
        assert View(p, bucket) == View(p, front);
      }
    }
  }

  lemma KeepSnoc(p: string, delimiter: string, contents: seq<Entry>, e: Entry)
    ensures KeepContents(p, delimiter, contents + [e.(key := p + e.key)])
         == KeepContents(p, delimiter, contents) + if Hidden(delimiter, e.key) then [] else [e]
    ensures DropHidden(delimiter, contents + [e])
         == DropHidden(delimiter, contents) + if Hidden(delimiter, e.key) then [] else [e]
  {
    var outer := e.(key := p + e.key);
    assert (contents + [outer])[..|contents|] == contents && (contents + [e])[..|contents|] == contents;
    assert Strip(p, outer.key) == e.key;
    assert outer.(key := e.key) == e;
  }

  lemma {:induction false} ContentsRewrite(p: string, delimiter: string, items: seq<Item>)
    ensures KeepContents(p, delimiter, ContentsOf(AllOutside(p, items))) == DropHidden(delimiter, ContentsOf(items))
  {
    if items != [] {
      var n := |items| - 1;
      assert AllOutside(p, items)[..n] == AllOutside(p, items[..n]);
      ContentsRewrite(p, delimiter, items[..n]);
      if items[n].Content? {
        KeepSnoc(p, delimiter, ContentsOf(AllOutside(p, items[..n])), items[n].entry);
        KeepSnoc(p, delimiter, ContentsOf(items[..n]), items[n].entry);
      } else {
        assert ContentsOf(AllOutside(p, items)) == ContentsOf(AllOutside(p, items[..n]));
        assert ContentsOf(items) == ContentsOf(items[..n]);
      }
    }
  }

  lemma KeepPrefixSnoc(p: string, prefixes: seq<string>, c: string)
    ensures KeepPrefixes(p, prefixes + [p + c]) == KeepPrefixes(p, prefixes) + [c]
  {
    assert (prefixes + [p + c])[..|prefixes|] == prefixes;
    assert Strip(p, p + c) == c;
  }

  lemma {:induction false} CommonsRewrite(p: string, items: seq<Item>)
    ensures KeepPrefixes(p, CommonsOf(AllOutside(p, items))) == CommonsOf(items)
  {
    if items != [] {
      var n := |items| - 1;
      assert AllOutside(p, items)[..n] == AllOutside(p, items[..n]);
      CommonsRewrite(p, items[..n]);
      if items[n].Common? {
        KeepPrefixSnoc(p, CommonsOf(AllOutside(p, items[..n])), items[n].prefix);
      } else {
        assert CommonsOf(AllOutside(p, items)) == CommonsOf(AllOutside(p, items[..n]));
        assert CommonsOf(items) == CommonsOf(items[..n]);
      }
    }
  }

  function Shown(items: seq<Item>, q: Query): seq<Item> { if |items| <= q.maxKeys then items else items[..q.maxKeys] }

  lemma ShownOutside(p: string, items: seq<Item>, q: Query)
    ensures Shown(AllOutside(p, items), q) == AllOutside(p, Shown(items, q))
    ensures var shown := Shown(items, q); shown != [] ==>
              Strip(p, ItemKey(AllOutside(p, shown)[|shown| - 1])) == ItemKey(shown[|shown| - 1])
  {
  }

  lemma PageRewrites(p: string, items: seq<Item>, q: Query, rq: Query)
    requires rq == q.(prefix := rq.prefix, marker := rq.marker)
    ensures var l := Page(items, q);
            VirtualAnswer(p, q.delimiter, Page(AllOutside(p, items), rq))
                == l.(contents := DropHidden(q.delimiter, l.contents))
  {
    ShownOutside(p, items, q);
    ContentsRewrite(p, q.delimiter, Shown(items, q));
    CommonsRewrite(p, Shown(items, q));
  }

  /**
   * Virtual listing preserves meaning: for every bucket, prefix, marker, delimiter, page size and reading of
   * markers, rewriting the query and rewriting the answer back gives the ordinary listing of the virtual
   * view - contents, common prefixes, next marker and truncation - except that with delimiter "/" the
   * keys ending in "/" are dropped, and that a leading slash of the marker is not part of it.
   */
  lemma VirtualListingMeaning(p: string, shared: seq<Entry>, prefix: string, marker: string, delimiter: string,
      maxKeys: nat, rollFirst: bool)
    ensures VirtualAnswer(p, delimiter, List(shared, RealQuery(p, prefix, marker, delimiter, maxKeys, rollFirst)))
         == DirectAnswer(p, shared, Query(prefix, MarkerMeant(p, marker), delimiter, maxKeys, rollFirst))
  {
    var q := Query(prefix, MarkerMeant(p, marker), delimiter, maxKeys, rollFirst);
    var rq := RealQuery(p, prefix, marker, delimiter, maxKeys, rollFirst);
    assert Rewritten(p, q, rq) by {
      if p == "" && marker != "" { assert p + marker == marker; }
    }
    ItemsRewrite(p, shared, q, rq);
    PageRewrites(p, Items(View(p, shared), q), q, rq);
  }

  /** Said without the functions the code is made of: what is dropped, and what is not. */
  lemma VirtualListingShows(p: string, shared: seq<Entry>, prefix: string, marker: string, delimiter: string,
      maxKeys: nat, rollFirst: bool)
    ensures var direct := List(View(p, shared), Query(prefix, MarkerMeant(p, marker), delimiter, maxKeys, rollFirst));
            var answer := VirtualAnswer(p, delimiter,
                List(shared, RealQuery(p, prefix, marker, delimiter, maxKeys, rollFirst)));
            && answer.contents
                 == Filter(direct.contents, (e: Entry) => delimiter != "/" || e.key == "" || e.key[|e.key| - 1] != '/')
            && answer.commonPrefixes == direct.commonPrefixes && answer.nextMarker == direct.nextMarker
            && answer.truncated == direct.truncated
  {
    var q := Query(prefix, MarkerMeant(p, marker), delimiter, maxKeys, rollFirst);
    VirtualListingMeaning(p, shared, prefix, marker, delimiter, maxKeys, rollFirst);
    DropHiddenFilters(delimiter, List(View(p, shared), q).contents);
  }

  /**
   * The whole call: the mapped real bucket is asked, and its answer is the ordinary listing of the virtual view,
   * without the keys that end in a slash when the delimiter is one. A request that fails, or a real bucket that does
   * not exist, is passed on.
   */
  method ListObjectsWithDelimiter(cfg: Config, bucket: string, server: map<string, seq<Entry>>, fails: bool,
                                  prefix: string, marker: string, delimiter: string, maxKeys: nat, rollFirst: bool)
    returns (result: Option<Listing>)
    ensures result.None? <==> fails || MapBucket(cfg, bucket) !in server
    ensures result.Some? ==>
              var p := PrefixFor(cfg, bucket);
              var q := Query(prefix, MarkerMeant(p, marker), delimiter, maxKeys, rollFirst);
              var direct := List(View(p, server[MapBucket(cfg, bucket)]), q);
              && result.value.contents
                   == Filter(direct.contents,
                       (e: Entry) => delimiter != "/" || e.key == "" || e.key[|e.key| - 1] != '/')
              && result.value.commonPrefixes == direct.commonPrefixes && result.value.nextMarker == direct.nextMarker
              && result.value.truncated == direct.truncated
  {
    var realBucket, bucketPrefix := MapBucket(cfg, bucket), PrefixFor(cfg, bucket);
    if fails || realBucket !in server { return None; }
    var resp := List(server[realBucket], RealQuery(bucketPrefix, prefix, marker, delimiter, maxKeys, rollFirst));
    var answer := RewriteAnswer(bucketPrefix, delimiter, resp);
    VirtualListingShows(bucketPrefix, server[realBucket], prefix, marker, delimiter, maxKeys, rollFirst);
    result := Some(answer);
  }

  /** One more entry of an answer: kept if it is under the prefix and no folder marker. */
  lemma KeepNext(p: string, delimiter: string, front: seq<Entry>, last: Entry)
    ensures View(p, front + [last]) == View(p, front) + if p <= last.key then [last.(key := last.key[|p|..])] else []
    ensures KeepContents(p, delimiter, front + [last]) == KeepContents(p, delimiter, front)
              + if p <= last.key && !Hidden(delimiter, last.key[|p|..]) then [last.(key := last.key[|p|..])] else []
  {
    assert (front + [last])[..|front|] == front;
    if p == "" { assert last.(key := last.key[|p|..]) == last; }
  }

  lemma {:induction false} KeepIsDropped(p: string, delimiter: string, contents: seq<Entry>)
    ensures KeepContents(p, delimiter, contents) == DropHidden(delimiter, View(p, contents))
  {
    if contents != [] {
      var front, last := contents[..|contents| - 1], contents[|contents| - 1];
      assert contents == front + [last];
      KeepIsDropped(p, delimiter, front);
      KeepNext(p, delimiter, front, last);
      if p <= last.key {
        var inner := last.(key := last.key[|p|..]);
        assert (View(p, front) + [inner])[..|View(p, front)|] == View(p, front);
      } else {
        assert View(p, contents) == View(p, front);
        assert KeepContents(p, delimiter, contents) == KeepContents(p, delimiter, front);
      }
    }
  }

  /**
   * What the first rewriting loop keeps of any answer: the entries under the prefix, without it, but no folder markers.
   */
  lemma KeepIsView(p: string, delimiter: string, contents: seq<Entry>)
    ensures KeepContents(p, delimiter, contents)
         == Filter(View(p, contents), (e: Entry) => delimiter != "/" || e.key == "" || e.key[|e.key| - 1] != '/')
  {
    KeepIsDropped(p, delimiter, contents);
    DropHiddenFilters(delimiter, View(p, contents));
  }

  // ---------------------------------------------------------------- leading slashes

  /** Every listing with this marker is the ordinary listing of the virtual bucket with this marker. */
  ghost predicate FaithfulMarker(p: string, marker: string) {
    forall shared, prefix, delimiter, maxKeys: nat, rollFirst ::
      VirtualAnswer(p, delimiter, List(shared, RealQuery(p, prefix, marker, delimiter, maxKeys, rollFirst)))
      == DirectAnswer(p, shared,
          Query(prefix, if marker == "" then None else Some(marker), delimiter, maxKeys, rollFirst))
  }

  lemma ListOne(e: Entry, marker: string)
    ensures List([e], Query("", Some(marker), "", 1, false)).contents == if Less(marker, e.key) then [e] else []
  {
    var q := Query("", Some(marker), "", 1, false);
    assert [e][..0] == [] && Items([], q) == [];
    assert Listed(e, q) <==> Less(marker, e.key);
    if Less(marker, e.key) {
      assert Items([e], q) == [] + [Content(e)];
      ContentsOfOne(e);
    } else {
      assert Items([e], q) == [];
    }
  }

  lemma ContentsOfOne(e: Entry)
    ensures ContentsOf([Content(e)]) == [e] && DropHidden("", [e]) == [e]
  {
    assert [Content(e)][..0] == [] && [e][..0] == [];
    assert ContentsOf([]) + [e] == [e];
  }

  /** A key between the marker and the marker without its slash. */
  lemma SlashMarkerWitness(p: string, marker: string) returns (shared: seq<Entry>)
    requires p != "" && LeadingSlash(marker)
    ensures VirtualAnswer(p, "", List(shared, RealQuery(p, "", marker, "", 1, false))).contents
         != DirectAnswer(p, shared, Query("", Some(marker), "", 1, false)).contents
  {
    var meant := marker[1..];
    LessTotal(meant, marker);
    LessTotal(marker, marker);
    LessTotal(meant, meant);
    var e := Entry(if Less(marker, meant) then meant else marker, 0, "", 0, "");
    shared := [e.(key := p + e.key)];
    assert View(p, shared) == [e] by { assert shared[..0] == [] && View(p, []) == []; }
    VirtualListingMeaning(p, shared, "", marker, "", 1, false);
    ListOne(e, meant);
    ListOne(e, marker);
    ContentsOfOne(e);
  }

  lemma SlashMarkerUnfaithful(p: string, marker: string)
    requires p != "" && LeadingSlash(marker)
    ensures !FaithfulMarker(p, marker)
  {
    var shared := SlashMarkerWitness(p, marker);
    assert VirtualAnswer(p, "", List(shared, RealQuery(p, "", marker, "", 1, false)))
        != DirectAnswer(p, shared, Query("", if marker == "" then None else Some(marker), "", 1, false));
  }

  /** A marker means what it says if and only if there is no prefix to add or it has no leading slash. */
  lemma MarkerExactly(p: string, marker: string)
    ensures FaithfulMarker(p, marker) <==> p == "" || !LeadingSlash(marker)
  {
    if p != "" && LeadingSlash(marker) {
      SlashMarkerUnfaithful(p, marker);
    } else {
      forall shared, prefix, delimiter, maxKeys: nat, rollFirst
        ensures VirtualAnswer(p, delimiter, List(shared, RealQuery(p, prefix, marker, delimiter, maxKeys, rollFirst)))
             == DirectAnswer(p, shared,
                 Query(prefix, if marker == "" then None else Some(marker), delimiter, maxKeys, rollFirst))
      {
        VirtualListingMeaning(p, shared, prefix, marker, delimiter, maxKeys, rollFirst);
      }
    }
  }

  // ---------------------------------------------------------------- paging

  ghost predicate Sorted(bucket: seq<Entry>) {
    forall i, j :: 0 <= i < j < |bucket| ==> Less(bucket[i].key, bucket[j].key)
  }

  ghost predicate Ascending(items: seq<Item>) {
    forall i, j :: 0 <= i < j < |items| ==> Less(ItemKey(items[i]), ItemKey(items[j]))
  }

  /** The head of `s` up to and including its first separator. */
  function Head(s: string, sep: string): (head: string)
    requires IndexOf(s, sep).Some?
    ensures head <= s
  {
    IndexInRange(s, sep);
    s[..IndexOf(s, sep).value + |sep|]
  }

  /** If the head of one string starts another string, it is at least as long as the other's head. */
  lemma HeadInOther(s: string, t: string, sep: string)
    requires IndexOf(s, sep).Some? && Head(s, sep) <= t
    ensures IndexOf(t, sep).Some? && |Head(t, sep)| <= |Head(s, sep)|
  {
    IndexHits(s, sep);
    var i := IndexOf(s, sep).value;
    assert sep == s[i..][..|sep|] == Head(s, sep)[i..];
    assert sep == t[i..][..|sep|] by { assert t[..i + |sep|] == Head(s, sep); }
    IndexIsFirst(t, sep, i);
  }

  /** The part of the key after the query prefix that an item shows. */
  function Shows(rest: string, d: string): string {
    if d == "" || IndexOf(rest, d).None? then rest else Head(rest, d)
  }

  lemma RollUpShows(e: Entry, q: Query)
    requires q.prefix <= e.key
    ensures ItemKey(RollUp(e, q)) == q.prefix + Shows(e.key[|q.prefix|..], q.delimiter)
  {
  }

  /** Rolling up keeps the order: items of ordered keys are ordered, or the same common prefix. */
  lemma RollUpOrdered(e1: Entry, e2: Entry, q: Query)
    requires q.prefix <= e1.key && q.prefix <= e2.key && Less(e1.key, e2.key)
    ensures Less(ItemKey(RollUp(e1, q)), ItemKey(RollUp(e2, q)))
            || (RollUp(e1, q).Common? && RollUp(e1, q) == RollUp(e2, q))
  {
    var r1, r2, d := e1.key[|q.prefix|..], e2.key[|q.prefix|..], q.delimiter;
    assert q.prefix + r1 == e1.key && q.prefix + r2 == e2.key;
    LessPrefixed(q.prefix, r1, r2);
    RollUpShows(e1, q);
    RollUpShows(e2, q);
    LessPrefixed(q.prefix, Shows(r1, d), Shows(r2, d));
    HeadsOrdered(r1, r2, d);
  }

  lemma HeadsOrdered(r1: string, r2: string, d: string)
    requires Less(r1, r2)
    ensures Less(Shows(r1, d), Shows(r2, d))
         || (Shows(r1, d) == Shows(r2, d) && d != "" && IndexOf(r1, d).Some? && IndexOf(r2, d).Some?)
  {
    var a, b := Shows(r1, d), Shows(r2, d);
    PrefixOfSmaller(a, r1, r2);
    if b <= a {
      if d == "" || IndexOf(r2, d).None? {
        assert r2 <= a;
        LessTotal(a, r2);
        NotLessThanPrefix(a, r2);
      } else {
        assert b <= r1;
        HeadInOther(r2, r1, d);
        assert a == r1[..|a|] && b == r1[..|b|] && |a| <= |b|;
      }
    } else {
      PrefixOfLarger(a, r2, b);
    }
  }

  lemma {:induction false} ItemOrigin(bucket: seq<Entry>, q: Query, i: nat) returns (k: nat)
    requires i < |Items(bucket, q)|
    ensures k < |bucket| && Listed(bucket[k], q) && Items(bucket, q)[i] == RollUp(bucket[k], q)
  {
    var n := |bucket| - 1;
    if i < |Items(bucket[..n], q)| { k := ItemOrigin(bucket[..n], q, i); } else { k := n; }
  }

  lemma {:induction false} ItemsAscending(bucket: seq<Entry>, q: Query)
    requires Sorted(bucket)
    ensures Ascending(Items(bucket, q))
  {
    if bucket != [] {
      var n := |bucket| - 1;
      var front := Items(bucket[..n], q);
      ItemsAscending(bucket[..n], q);
      if |Items(bucket, q)| > |front| {
        forall i | 0 <= i < |front| ensures Less(ItemKey(front[i]), ItemKey(RollUp(bucket[n], q))) {
          var k := ItemOrigin(bucket[..n], q, i);
          RollUpOrdered(bucket[k], bucket[n], q);
        }
      }
    }
  }

  ghost function Past(marker: string): Item -> bool { item => Less(marker, ItemKey(item)) }

  lemma EntryForward(e: Entry, q: Query, marker: string)
    requires q.rollFirst && (q.marker.Some? ==> Less(q.marker.value, marker))
    ensures var q' := q.(marker := Some(marker));
            && (Listed(e, q') <==> Listed(e, q) && Past(marker)(RollUp(e, q)))
            && (q.prefix <= e.key ==> RollUp(e, q') == RollUp(e, q))
  {
    if q.prefix <= e.key && q.marker.Some? && Less(marker, ItemKey(RollUp(e, q))) {
      LessTransitive(q.marker.value, marker, ItemKey(RollUp(e, q)));
    }
  }

  /** Moving the marker forward only drops items. */
  lemma {:induction false} MarkerForward(bucket: seq<Entry>, q: Query, marker: string)
    requires q.rollFirst && (q.marker.Some? ==> Less(q.marker.value, marker))
    ensures Items(bucket, q.(marker := Some(marker))) == Filter(Items(bucket, q), Past(marker))
  {
    if bucket != [] {
      var front, e := bucket[..|bucket| - 1], bucket[|bucket| - 1];
      MarkerForward(front, q, marker);
      EntryForward(e, q, marker);
      if Listed(e, q) {
        FilterMember(Items(front, q), RollUp(e, q), Past(marker));
        FilterSnoc(Items(front, q), RollUp(e, q), Past(marker));
      }
    }
  }

  lemma AscendingSplits(items: seq<Item>, m: nat)
    requires Ascending(items) && 0 < m <= |items|
    ensures forall i :: 0 <= i < |items| ==> (Less(ItemKey(items[m - 1]), ItemKey(items[i])) <==> m <= i)
  {
    forall i | 0 <= i < m ensures !Less(ItemKey(items[m - 1]), ItemKey(items[i])) {
      LessTotal(ItemKey(items[m - 1]), ItemKey(items[i]));
    }
  }

  lemma {:induction false} ViewOrigin(p: string, shared: seq<Entry>, i: nat) returns (k: nat)
    requires i < |View(p, shared)|
    ensures k < |shared| && shared[k].key == p + View(p, shared)[i].key
  {
    var n := |shared| - 1;
    if i < |View(p, shared[..n])| {
      k := ViewOrigin(p, shared[..n], i);
    } else {
      k := n;
      assert shared[n].key == p + shared[n].key[|p|..];
    }
  }

  lemma {:induction false} ViewSorted(p: string, shared: seq<Entry>)
    requires Sorted(shared)
    ensures Sorted(View(p, shared))
  {
    if shared != [] {
      var n := |shared| - 1;
      var front := View(p, shared[..n]);
      ViewSorted(p, shared[..n]);
      if p <= shared[n].key {
        var inner := shared[n].key[|p|..];
        assert shared[n].key == p + inner;
        forall i | 0 <= i < |front| ensures Less(front[i].key, inner) {
          var k := ViewOrigin(p, shared[..n], i);
          LessPrefixed(p, front[i].key, inner);
        }
      }
    }
  }

  /** Going on after the m-th item leaves exactly the items after it. */
  lemma ItemsAfter(bucket: seq<Entry>, q: Query, m: nat)
    requires Sorted(bucket) && q.rollFirst && 0 < m <= |Items(bucket, q)|
    ensures Items(bucket, q.(marker := Some(ItemKey(Items(bucket, q)[m - 1])))) == Items(bucket, q)[m..]
  {
    var items := Items(bucket, q);
    var next := ItemKey(items[m - 1]);
    ItemsAscending(bucket, q);
    var k := ItemOrigin(bucket, q, m - 1);
    MarkerForward(bucket, q, next);
    AscendingSplits(items, m);
    FilterSuffix(items, Past(next), m);
  }

  /** The answer to one request, on a server that skips whole common prefixes. */
  function Answer(p: string, shared: seq<Entry>, prefix: string, marker: string, delimiter: string,
      maxKeys: nat): Listing {
    VirtualAnswer(p, delimiter, List(shared, RealQuery(p, prefix, marker, delimiter, maxKeys, true)))
  }

  /** The items of the virtual bucket after `marker`. */
  function VirtualItems(p: string, shared: seq<Entry>, prefix: string, marker: string, delimiter: string,
      maxKeys: nat): seq<Item> {
    Items(View(p, shared), Query(prefix, MarkerMeant(p, marker), delimiter, maxKeys, true))
  }

  /** The entries that a page with these items shows. */
  function Visible(delimiter: string, items: seq<Item>): seq<Entry> { DropHidden(delimiter, ContentsOf(items)) }

  /** A key that means what it says when it is sent back as a marker. */
  predicate Resumable(p: string, key: string) { key != "" && (p == "" || !LeadingSlash(key)) }

  lemma AnswerShows(p: string, shared: seq<Entry>, prefix: string, marker: string, delimiter: string, maxKeys: nat)
    ensures var items := VirtualItems(p, shared, prefix, marker, delimiter, maxKeys);
            var page := Answer(p, shared, prefix, marker, delimiter, maxKeys);
            var shown := if |items| <= maxKeys then items else items[..maxKeys];
            && page.contents == Visible(delimiter, shown) && page.commonPrefixes == CommonsOf(shown)
            && page.truncated == (0 < maxKeys < |items|)
            && page.nextMarker == if page.truncated && delimiter != "" then Some(ItemKey(items[maxKeys - 1])) else None
  {
    VirtualListingMeaning(p, shared, prefix, marker, delimiter, maxKeys, true);
  }

  /**
   * Paging: on a sorted real bucket, feeding a returned next marker back through the rewriting goes on with exactly the
   * items of the virtual listing that were not shown yet - provided the marker means what it says.
   */
  lemma PagingResumes(p: string, shared: seq<Entry>, prefix: string, marker: string, delimiter: string, maxKeys: nat)
    requires Sorted(shared)
    requires var items := VirtualItems(p, shared, prefix, marker, delimiter, maxKeys);
             0 < maxKeys < |items| && delimiter != "" && Resumable(p, ItemKey(items[maxKeys - 1]))
    ensures var items := VirtualItems(p, shared, prefix, marker, delimiter, maxKeys);
            var page := Answer(p, shared, prefix, marker, delimiter, maxKeys);
            && page.contents == Visible(delimiter, items[..maxKeys])
            && page.commonPrefixes == CommonsOf(items[..maxKeys])
            && page.nextMarker.Some?
            && VirtualItems(p, shared, prefix, page.nextMarker.value, delimiter, maxKeys) == items[maxKeys..]
  {
    var q := Query(prefix, MarkerMeant(p, marker), delimiter, maxKeys, true);
    AnswerShows(p, shared, prefix, marker, delimiter, maxKeys);
    ViewSorted(p, shared);
    ItemsAfter(View(p, shared), q, maxKeys);
  }

  /** What a client gets that follows next markers, sending at most `limit` requests. */
  function Pages(answer: string -> Listing, marker: string, limit: nat): seq<Listing>
    decreases limit
  {
    if limit == 0 then []
    else
      var page := answer(marker);
      [page] + if page.nextMarker.None? then [] else Pages(answer, page.nextMarker.value, limit - 1)
  }

  function AllContents(pages: seq<Listing>): seq<Entry> {
    if pages == [] then [] else pages[0].contents + AllContents(pages[1..])
  }

  function AllPrefixes(pages: seq<Listing>): seq<string> {
    if pages == [] then [] else pages[0].commonPrefixes + AllPrefixes(pages[1..])
  }

  lemma VisibleSnoc(delimiter: string, items: seq<Item>, last: Item)
    ensures Visible(delimiter, items + [last])
         == Visible(delimiter, items) + if last.Content? && !Hidden(delimiter, last.entry.key) then [last.entry] else []
  {
    assert (items + [last])[..|items|] == items;
    if last.Content? {
      KeepSnoc("", delimiter, ContentsOf(items), last.entry);
    } else {
      assert ContentsOf(items + [last]) == ContentsOf(items);
    }
  }

  lemma {:induction false} VisibleSplits(delimiter: string, a: seq<Item>, b: seq<Item>)
    ensures Visible(delimiter, a + b) == Visible(delimiter, a) + Visible(delimiter, b)
  {
    if b == [] {
      assert a + b == a;
    } else {
      var front, last := b[..|b| - 1], b[|b| - 1];
      assert b == front + [last] && a + b == (a + front) + [last];
      VisibleSplits(delimiter, a, front);
      VisibleSnoc(delimiter, a + front, last);
      VisibleSnoc(delimiter, front, last);
    }
  }

  lemma {:induction false} CommonsSplit(a: seq<Item>, b: seq<Item>)
    ensures CommonsOf(a + b) == CommonsOf(a) + CommonsOf(b)
  {
    if b == [] {
      assert a + b == a;
    } else {
      var front, last := b[..|b| - 1], b[|b| - 1];
      assert (a + b)[..|a + b| - 1] == a + front;
      CommonsSplit(a, front);
    }
  }

  /** What a page shows followed by what its successors show. */
  lemma PagesCons(page: Listing, rest: seq<Listing>)
    ensures AllContents([page] + rest) == page.contents + AllContents(rest)
    ensures AllPrefixes([page] + rest) == page.commonPrefixes + AllPrefixes(rest)
  {
    assert ([page] + rest)[1..] == rest;
  }

  /** `pages` end, and show exactly `items`. */
  ghost predicate ShowsAll(pages: seq<Listing>, items: seq<Item>, delimiter: string) {
    && pages != [] && pages[|pages| - 1].nextMarker.None?
    && AllContents(pages) == Visible(delimiter, items) && AllPrefixes(pages) == CommonsOf(items)
  }

  lemma OnePage(page: Listing, items: seq<Item>, delimiter: string)
    requires page.nextMarker.None? && page.contents == Visible(delimiter, items)
             && page.commonPrefixes == CommonsOf(items)
    ensures ShowsAll([page], items, delimiter)
  {
    PagesCons(page, []);
    assert [page] + [] == [page];
  }

  lemma OneMorePage(page: Listing, pages: seq<Listing>, items: seq<Item>, k: nat, delimiter: string)
    requires k <= |items| && page.contents == Visible(delimiter, items[..k])
             && page.commonPrefixes == CommonsOf(items[..k])
    requires ShowsAll(pages, items[k..], delimiter)
    ensures ShowsAll([page] + pages, items, delimiter)
  {
    PagesCons(page, pages);
    assert items[..k] + items[k..] == items;
    VisibleSplits(delimiter, items[..k], items[k..]);
    CommonsSplit(items[..k], items[k..]);
  }

  /** The answer for a marker shows all its items, or the first `k` and a next marker that stands for the others. */
  ghost predicate PagesOut(answer: string -> Listing, items: string -> seq<Item>, p: string, k: nat, delimiter: string,
      marker: string) {
    var page, all := answer(marker), items(marker);
    if |all| <= k then
      page.nextMarker.None? && page.contents == Visible(delimiter, all) && page.commonPrefixes == CommonsOf(all)
    else
      k > 0 && Resumable(p, ItemKey(all[k - 1])) ==>
        && page.nextMarker.Some? && items(page.nextMarker.value) == all[k..]
        && page.contents == Visible(delimiter, all[..k]) && page.commonPrefixes == CommonsOf(all[..k])
  }

  /** Every page but the last ends in an item with a key of `keys`. */
  ghost predicate PagesEndIn(items: seq<Item>, k: nat, keys: iset<string>)
    decreases |items|
  {
    k > 0 && |items| > k ==> ItemKey(items[k - 1]) in keys && PagesEndIn(items[k..], k, keys)
  }

  lemma {:induction false} PagesShowAll(answer: string -> Listing, items: string -> seq<Item>, p: string, k: nat,
      delimiter: string,
                                        keys: iset<string>, marker: string, limit: nat)
    requires k > 0 && (forall m :: PagesOut(answer, items, p, k, delimiter, m))
             && (forall key :: key in keys ==> Resumable(p, key))
    requires |items(marker)| < limit && PagesEndIn(items(marker), k, keys)
    ensures ShowsAll(Pages(answer, marker, limit), items(marker), delimiter)
    decreases limit
  {
    var page, all := answer(marker), items(marker);
    assert PagesOut(answer, items, p, k, delimiter, marker);
    if |all| <= k {
      OnePage(page, all, delimiter);
      assert [page] + [] == [page];
    } else {
      PagesShowAll(answer, items, p, k, delimiter, keys, page.nextMarker.value, limit - 1);
      OneMorePage(page, Pages(answer, page.nextMarker.value, limit - 1), all, k, delimiter);
    }
  }

  /** The items of a virtual listing come in strictly ascending order, so none comes twice. */
  lemma VirtualItemsAscending(p: string, shared: seq<Entry>, prefix: string, marker: string, delimiter: string,
      maxKeys: nat)
    requires Sorted(shared)
    ensures Ascending(VirtualItems(p, shared, prefix, marker, delimiter, maxKeys))
  {
    ViewSorted(p, shared);
    ItemsAscending(View(p, shared), Query(prefix, MarkerMeant(p, marker), delimiter, maxKeys, true));
  }

  lemma VirtualPagesOut(p: string, shared: seq<Entry>, prefix: string, delimiter: string, maxKeys: nat, marker: string)
    requires Sorted(shared) && maxKeys > 0 && delimiter != ""
    ensures PagesOut(m => Answer(p, shared, prefix, m, delimiter, maxKeys),
            m => VirtualItems(p, shared, prefix, m, delimiter, maxKeys),
                     p, maxKeys, delimiter, marker)
  {
    var items := VirtualItems(p, shared, prefix, marker, delimiter, maxKeys);
    AnswerShows(p, shared, prefix, marker, delimiter, maxKeys);
    if |items| > maxKeys {
      if Resumable(p, ItemKey(items[maxKeys - 1])) { PagingResumes(p, shared, prefix, marker, delimiter, maxKeys); }
    }
  }

  /**
   * Following next markers to the end: on a sorted real bucket the client stops after at most one request more than
   * there are items, and the pages together show every item of the virtual listing exactly once and in order - folder
   * markers again excepted -, provided the items that pages end in have resumable keys.
   */
  lemma FollowingShowsAll(p: string, shared: seq<Entry>, prefix: string, marker: string, delimiter: string,
      maxKeys: nat,
                          keys: iset<string>, limit: nat)
    requires Sorted(shared) && maxKeys > 0 && delimiter != "" && forall key :: key in keys ==> Resumable(p, key)
    requires var items := VirtualItems(p, shared, prefix, marker, delimiter, maxKeys);
             |items| < limit && PagesEndIn(items, maxKeys, keys)
    ensures var items := VirtualItems(p, shared, prefix, marker, delimiter, maxKeys);
            var pages := Pages(m => Answer(p, shared, prefix, m, delimiter, maxKeys), marker, limit);
            ShowsAll(pages, items, delimiter) && Ascending(items)
  {
    var answer := m => Answer(p, shared, prefix, m, delimiter, maxKeys);
    var items := m => VirtualItems(p, shared, prefix, m, delimiter, maxKeys);
    VirtualItemsAscending(p, shared, prefix, marker, delimiter, maxKeys);
    forall m ensures PagesOut(answer, items, p, maxKeys, delimiter, m) {
      VirtualPagesOut(p, shared, prefix, delimiter, maxKeys, m);
    }
    PagesShowAll(answer, items, p, maxKeys, delimiter, keys, marker, limit);
  }

  // ---------------------------------------------------------------- the exact condition on keys

  /** Whatever the bucket and the query, a page that ends in an item with this key is followed by the items after it. */
  ghost predicate Resumes(p: string, key: string) {
    forall shared, prefix, marker, delimiter, maxKeys: nat ::
      Sorted(shared) && EndsPage(p, shared, prefix, marker, delimiter, maxKeys, key) ==>
        ResumesAt(p, shared, prefix, marker, delimiter, maxKeys)
  }

  ghost predicate EndsPage(p: string, shared: seq<Entry>, prefix: string, marker: string, delimiter: string,
      maxKeys: nat, key: string) {
    var items := VirtualItems(p, shared, prefix, marker, delimiter, maxKeys);
    delimiter != "" && 0 < maxKeys < |items| && ItemKey(items[maxKeys - 1]) == key
  }

  ghost predicate ResumesAt(p: string, shared: seq<Entry>, prefix: string, marker: string, delimiter: string,
      maxKeys: nat) {
    var items := VirtualItems(p, shared, prefix, marker, delimiter, maxKeys);
    var next := Answer(p, shared, prefix, marker, delimiter, maxKeys).nextMarker;
    next.Some? && maxKeys <= |items|
        && VirtualItems(p, shared, prefix, next.value, delimiter, maxKeys) == items[maxKeys..]
  }

  /** Following next markers from `marker` on shows everything. */
  ghost predicate FollowedAt(p: string, shared: seq<Entry>, prefix: string, marker: string, delimiter: string,
      maxKeys: nat, limit: nat) {
    ShowsAll(Pages(m => Answer(p, shared, prefix, m, delimiter, maxKeys), marker, limit),
             VirtualItems(p, shared, prefix, marker, delimiter, maxKeys), delimiter)
  }

  /** Its pages end in these keys, and the client is patient. */
  ghost predicate EndsIn(p: string, shared: seq<Entry>, prefix: string, marker: string, delimiter: string,
      maxKeys: nat, limit: nat,
                         keys: iset<string>) {
    var items := VirtualItems(p, shared, prefix, marker, delimiter, maxKeys);
    Sorted(shared) && maxKeys > 0 && delimiter != "" && |items| < limit && PagesEndIn(items, maxKeys, keys)
  }

  /** Whatever the bucket and the query, following next markers shows everything if the pages end in these keys. */
  ghost predicate Follows(p: string, keys: iset<string>) {
    forall shared, prefix, marker, delimiter, maxKeys: nat, limit: nat ::
      EndsIn(p, shared, prefix, marker, delimiter, maxKeys, limit, keys)
      ==> FollowedAt(p, shared, prefix, marker, delimiter, maxKeys, limit)
  }

  function Named(key: string): Entry { Entry(key, 0, "", 0, "") }

  /** A bucket of two keys, of which the second extends the first, and a delimiter that neither contains. */
  function Pair(p: string, key: string): seq<Entry> { [Named(p + key), Named(p + (key + "!"))] }

  function Foreign(key: string): string { key + "!!" }

  lemma PairSorted(p: string, key: string)
    ensures Sorted(Pair(p, key))
  {
    assert p + (key + "!") == (p + key) + "!";
    LessThanExtension(p + key, "!");
  }

  lemma PairView(p: string, key: string)
    ensures View(p, Pair(p, key)) == [Named(key), Named(key + "!")]
  {
    var one := [Named(p + key)];
    assert Pair(p, key)[..1] == one && one[..0] == [] && View(p, []) == [];
    assert View(p, one) == [Named(key)];
  }

  lemma StandsForItself(key: string, rest: string, q: Query)
    requires q.prefix == "" && q.delimiter == Foreign(key) && (rest == key || rest == key + "!")
    ensures RollUp(Named(rest), q) == Content(Named(rest))
  {
    assert rest[0..] == rest;
    if IndexOf(rest, q.delimiter).Some? { IndexInRange(rest, q.delimiter); }
  }

  /** The key comes after what the marker stands for. */
  predicate Beyond(p: string, marker: string, key: string) {
    MarkerMeant(p, marker).Some? ==> Less(MarkerMeant(p, marker).value, key)
  }

  /** What the query lists of it after a marker. */
  lemma PairItems(p: string, key: string, marker: string)
    ensures VirtualItems(p, Pair(p, key), "", marker, Foreign(key), 1)
         == (if Beyond(p, marker, key) then [Content(Named(key))] else [])
          + if Beyond(p, marker, key + "!") then [Content(Named(key + "!"))] else []
  {
    var q := Query("", MarkerMeant(p, marker), Foreign(key), 1, true);
    var a, b := Named(key), Named(key + "!");
    PairView(p, key);
    StandsForItself(key, key, q);
    StandsForItself(key, key + "!", q);
    TwoItems(a, b, q);
  }

  /** Items of a bucket of two entries that roll up to different items. */
  lemma TwoItems(a: Entry, b: Entry, q: Query)
    requires q.prefix == "" && RollUp(a, q) != RollUp(b, q)
    ensures Items([a, b], q)
         == (if Listed(a, q) then [RollUp(a, q)] else []) + if Listed(b, q) then [RollUp(b, q)] else []
  {
    assert [a, b][..1] == [a] && [a][..0] == [] && Items([], q) == [];
  }

  /** After its first page the marker stands for the beginning, or for a place before or after both keys. */
  lemma PairStraddled(p: string, key: string)
    requires !Resumable(p, key)
    ensures Beyond(p, key, key) <==> Beyond(p, key, key + "!")
  {
    if key != "" {
      var meant := key[1..];
      LessThanExtension(key, "!");
      LessTotal(meant, key);
      if Less(meant, key) {
        LessTransitive(meant, key, key + "!");
      } else {
        LargerThanExtension(key, meant, "!");
        LessTotal(meant, key + "!");
      }
    }
  }

  lemma PairFirstPage(p: string, key: string)
    ensures VirtualItems(p, Pair(p, key), "", "", Foreign(key), 1) == [Content(Named(key)), Content(Named(key + "!"))]
    ensures Answer(p, Pair(p, key), "", "", Foreign(key), 1).nextMarker == Some(key)
  {
    PairItems(p, key, "");
    AnswerShows(p, Pair(p, key), "", "", Foreign(key), 1);
  }

  lemma PairDoesNotResume(p: string, key: string)
    requires !Resumable(p, key)
    ensures |VirtualItems(p, Pair(p, key), "", key, Foreign(key), 1)| != 1
    ensures !ResumesAt(p, Pair(p, key), "", "", Foreign(key), 1)
  {
    PairFirstPage(p, key);
    PairItems(p, key, key);
    PairStraddled(p, key);
  }

  /**
   * Paging, exactly: a page that ends in an item with this key is always followed by the items after it if and only if
   * the key is not empty and, when there is a bucket prefix, has no leading slash.
   */
  lemma ResumesExactly(p: string, key: string)
    ensures Resumes(p, key) <==> Resumable(p, key)
  {
    if Resumable(p, key) {
      forall shared, prefix, marker, delimiter, maxKeys: nat |
        Sorted(shared) && EndsPage(p, shared, prefix, marker, delimiter, maxKeys, key)
        ensures ResumesAt(p, shared, prefix, marker, delimiter, maxKeys)
      {
        PagingResumes(p, shared, prefix, marker, delimiter, maxKeys);
      }
    } else {
      PairSorted(p, key);
      PairFirstPage(p, key);
      PairDoesNotResume(p, key);
      assert EndsPage(p, Pair(p, key), "", "", Foreign(key), 1, key);
    }
  }

  /** A marker that leads back to itself never stops. */
  lemma {:induction false} LoopsForEver(answer: string -> Listing, marker: string, limit: nat)
    requires limit > 0 && answer(marker).nextMarker == Some(marker)
    ensures var pages := Pages(answer, marker, limit); |pages| == limit && pages[limit - 1].nextMarker == Some(marker)
    decreases limit
  {
    if limit > 1 { LoopsForEver(answer, marker, limit - 1); }
  }

  lemma PairShort(key: string, first: Listing, second: Listing, d: string)
    requires d == Foreign(key) && first.contents == Visible(d, [Content(Named(key))])
             && second.contents == Visible(d, [])
    ensures !ShowsAll([first] + [second], [Content(Named(key)), Content(Named(key + "!"))], d)
  {
    var a, b := Content(Named(key)), Content(Named(key + "!"));
    PagesCons(first, [second]);
    PagesCons(second, []);
    assert [second] + [] == [second] && [a, b] == [a] + [b];
    VisibleSnoc(d, [a], b);
  }

  /**
   * A client that is led from the first page to `key`, and there back to `key` or to an empty page, misses something.
   */
  lemma LedAstray(answer: string -> Listing, key: string, d: string)
    requires d == Foreign(key) && answer("").nextMarker == Some(key)
             && answer("").contents == Visible(d, [Content(Named(key))])
    requires answer(key).nextMarker == Some(key)
             || (answer(key).nextMarker.None? && answer(key).contents == Visible(d, []))
    ensures !ShowsAll(Pages(answer, "", 3), [Content(Named(key)), Content(Named(key + "!"))], d)
  {
    if answer(key).nextMarker.Some? {
      LoopsForEver(answer, key, 2);
      assert Pages(answer, "", 3) == [answer("")] + Pages(answer, key, 2);
    } else {
      assert Pages(answer, "", 3) == [answer("")] + [answer(key)];
      PairShort(key, answer(""), answer(key), d);
    }
  }

  /** Following next markers through the pair starts over for ever, or skips the second key. */
  lemma PairNotFollowed(p: string, key: string)
    requires !Resumable(p, key)
    ensures !FollowedAt(p, Pair(p, key), "", "", Foreign(key), 1, 3)
  {
    var d, a, b := Foreign(key), Content(Named(key)), Content(Named(key + "!"));
    PairFirstPage(p, key);
    AnswerShows(p, Pair(p, key), "", "", d, 1);
    assert [a, b][..1] == [a];
    PairSecondPage(p, key);
    LedAstray(m => Answer(p, Pair(p, key), "", m, d, 1), key, d);
  }

  lemma PairSecondPage(p: string, key: string)
    requires !Resumable(p, key)
    ensures var page := Answer(p, Pair(p, key), "", key, Foreign(key), 1);
            page.nextMarker == Some(key) || (page.nextMarker.None? && page.contents == Visible(Foreign(key), []))
  {
    PairItems(p, key, key);
    PairStraddled(p, key);
    AnswerShows(p, Pair(p, key), "", key, Foreign(key), 1);
  }

  /**
   * Following pages, exactly: whatever the bucket and the query, next markers can be followed to the end, showing
   * everything once, whenever pages end in keys of `keys` only, if and only if all of these are resumable.
   */
  lemma FollowsExactly(p: string, keys: iset<string>)
    ensures Follows(p, keys) <==> forall key :: key in keys ==> Resumable(p, key)
  {
    if forall key :: key in keys ==> Resumable(p, key) {
      forall shared, prefix, marker, delimiter, maxKeys: nat, limit: nat |
        EndsIn(p, shared, prefix, marker, delimiter, maxKeys, limit, keys)
        ensures FollowedAt(p, shared, prefix, marker, delimiter, maxKeys, limit)
      {
        FollowingShowsAll(p, shared, prefix, marker, delimiter, maxKeys, keys, limit);
      }
    } else {
      var key :| key in keys && !Resumable(p, key);
      PairEndsIn(p, key, keys);
      PairNotFollowed(p, key);
    }
  }

  lemma PairEndsIn(p: string, key: string, keys: iset<string>)
    requires key in keys
    ensures EndsIn(p, Pair(p, key), "", "", Foreign(key), 1, 3, keys)
  {
    PairSorted(p, key);
    PairFirstPage(p, key);
  }

  // ---------------------------------------------------------------- two buckets on which pages start over for ever

  /**
   * An entry named like the bucket prefix has the empty virtual key; pages of one item then start over and over again.
   */
  lemma EmptyKeyNeverStops(p: string, limit: nat)
    requires limit > 0
    ensures var pages := Pages(m => Answer(p, Pair(p, ""), "", m, Foreign(""), 1), "", limit);
            Sorted(Pair(p, "")) && |pages| == limit && pages[limit - 1].nextMarker == Some("")
  {
    PairSorted(p, "");
    PairFirstPage(p, "");
    LoopsForEver(m => Answer(p, Pair(p, ""), "", m, Foreign(""), 1), "", limit);
  }

  /** So do entries whose virtual keys begin with a slash, under the usual delimiter. */
  function SlashBucket(p: string): seq<Entry> { [Named(p + "/a"), Named(p + "b")] }

  lemma SlashView(p: string)
    ensures View(p, SlashBucket(p)) == [Named("/a"), Named("b")]
  {
    var one := [Named(p + "/a")];
    assert SlashBucket(p)[..1] == one && one[..0] == [] && View(p, []) == [];
    assert View(p, one) == [Named("/a")];
  }

  lemma SlashRollUp(q: Query)
    requires q.prefix == "" && q.delimiter == "/"
    ensures RollUp(Named("/a"), q) == Common("/") && RollUp(Named("b"), q) == Content(Named("b"))
  {
    assert "/a"[0..] == "/a" && "b"[0..] == "b" && "" + "/a"[..1] == "/";
    assert "b"[0] != "/"[0] && "b"[1..] == "";
    assert IndexOf("b", "/") == None;
  }

  lemma SlashItems(p: string, marker: string)
    requires p != "" && (marker == "" || marker == "/")
    ensures VirtualItems(p, SlashBucket(p), "", marker, "/", 1) == [Common("/"), Content(Named("b"))]
  {
    var q := Query("", MarkerMeant(p, marker), "/", 1, true);
    SlashView(p);
    SlashRollUp(q);
    assert q.marker.Some? ==> q.marker.value == "";
    TwoItems(Named("/a"), Named("b"), q);
  }

  lemma SlashNextMarker(p: string, marker: string)
    requires p != "" && (marker == "" || marker == "/")
    ensures Answer(p, SlashBucket(p), "", marker, "/", 1).nextMarker == Some("/")
  {
    SlashItems(p, marker);
    AnswerShows(p, SlashBucket(p), "", marker, "/", 1);
  }

  lemma SlashSorted(p: string)
    ensures Sorted(SlashBucket(p))
  {
    LessPrefixed(p, "/a", "b");
  }

  /** A client led to a marker that leads back to itself never stops either. */
  lemma LedIntoLoop(answer: string -> Listing, first: string, marker: string, limit: nat)
    requires limit > 1 && answer(first).nextMarker == Some(marker) && answer(marker).nextMarker == Some(marker)
    ensures var pages := Pages(answer, first, limit); |pages| == limit && pages[limit - 1].nextMarker == Some(marker)
  {
    LoopsForEver(answer, marker, limit - 1);
    assert Pages(answer, first, limit) == [answer(first)] + Pages(answer, marker, limit - 1);
  }

  lemma SlashKeyNeverStops(p: string, limit: nat)
    requires p != "" && limit > 1
    ensures var pages := Pages(m => Answer(p, SlashBucket(p), "", m, "/", 1), "", limit);
            Sorted(SlashBucket(p)) && |pages| == limit && pages[limit - 1].nextMarker == Some("/")
  {
    SlashSorted(p);
    SlashNextMarker(p, "");
    SlashNextMarker(p, "/");
    LedIntoLoop(m => Answer(p, SlashBucket(p), "", m, "/", 1), "", "/", limit);
  }
}
