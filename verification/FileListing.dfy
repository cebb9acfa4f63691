// ListObjectsWithDelimiter of internal/storage/filesystem.go: one pass over a walked directory tree with a limit.
module FileListing {
  import opened Core
  import opened Strings

  /** One visit of filepath.Walk: the slash-separated path below the bucket, or an error for it. */
  datatype Visit = Visit(key: string, isDir: bool, size: nat, failed: bool)

  datatype Query = Query(prefix: string, marker: string, delimiter: string)

  datatype Item = File(v: Visit) | Folder(prefix: string)

  datatype Listing = Listing(contents: seq<Visit>, commonPrefixes: seq<string>, truncated: bool)

  // ---------------------------------------------------------------- what an entry means

  /** The filters every visit goes through. */
  predicate Considered(v: Visit, q: Query) {
    && !v.failed && v.key != "." && q.prefix <= v.key
    && (q.marker != "" ==> Less(q.marker, v.key))
  }

  /** The item an entry stands for, if any. */
  function ItemOf(v: Visit, q: Query): Option<Item>
    requires q.prefix <= v.key
  {
    var rest := v.key[|q.prefix|..];
    var at := IndexOf(rest, q.delimiter);
    if q.delimiter != "" && at.Some? then
      IndexInRange(rest, q.delimiter);
      Some(Folder(q.prefix + rest[..at.value + |q.delimiter|]))
    else if !v.isDir && !EndsWith(v.key, ".meta") then Some(File(v))
    else None
  }

  /** The unlimited listing: every item in walk order, each folder once. */
  function All(visits: seq<Visit>, q: Query): seq<Item> {
    if visits == [] then []
    else
      var front := All(visits[..|visits| - 1], q);
      var v := visits[|visits| - 1];
      if !Considered(v, q) then front
      else
        var item := ItemOf(v, q);
        if item.None? || (item.value.Folder? && item.value in front) then front else front + [item.value]
  }

  function First(items: seq<Item>, m: int): seq<Item> {
    if m <= 0 then [] else if |items| <= m then items else items[..m]
  }

  function Files(items: seq<Item>): seq<Visit> {
    if items == [] then []
    else Files(items[..|items| - 1]) + if items[|items| - 1].File? then [items[|items| - 1].v] else []
  }

  function Folders(items: seq<Item>): seq<string> {
    if items == [] then []
    else Folders(items[..|items| - 1]) + if items[|items| - 1].Folder? then [items[|items| - 1].prefix] else []
  }

  // ---------------------------------------------------------------- the walk

  /** What one visit adds to the items shown so far. */
  function Extend(shown: seq<Item>, v: Visit, q: Query, m: int): seq<Item> {
    if |shown| >= m || !Considered(v, q) || ItemOf(v, q).None? then shown
    else if ItemOf(v, q).value.Folder? && ItemOf(v, q).value in shown then shown
    else shown + [ItemOf(v, q).value]
  }

  /** Once the limit is reached later visits change nothing; until then they extend the unlimited listing. */
  lemma FirstExtends(visits: seq<Visit>, i: nat, q: Query, m: int)
    requires i < |visits|
    ensures First(All(visits[..i + 1], q), m) == Extend(First(All(visits[..i], q), m), visits[i], q, m)
  {
    assert visits[..i + 1][..i] == visits[..i];
  }

  lemma ShapesSnoc(items: seq<Item>, item: Item)
    ensures Files(items + [item]) == Files(items) + if item.File? then [item.v] else []
    ensures Folders(items + [item]) == Folders(items) + if item.Folder? then [item.prefix] else []
  {
    assert (items + [item])[..|items|] == items;
  }

  /** The variables the walk callback updates. */
  class Walk {
    const q: Query
    const maxKeys: int
    var contents: seq<Visit>
    var commonPrefixes: seq<string>
    var prefixSet: set<string>
    var count: nat
    ghost var shown: seq<Item>

    ghost predicate Valid()
      reads this
    {
      && count == |shown| && contents == Files(shown) && commonPrefixes == Folders(shown)
      && forall p :: p in prefixSet <==> Folder(p) in shown
    }

    constructor (q: Query, maxKeys: int)
      ensures Valid() && shown == [] && this.q == q && this.maxKeys == maxKeys
    {
      this.q, this.maxKeys := q, maxKeys;
      contents, commonPrefixes, prefixSet, count, shown := [], [], {}, 0, [];
    }

    method AddFolder(commonPrefix: string)
      requires Valid()
      modifies this
      ensures Valid() && shown == if Folder(commonPrefix) in old(shown) then old(shown)
              else old(shown) + [Folder(commonPrefix)]
    {
      if commonPrefix !in prefixSet {
        prefixSet := prefixSet + {commonPrefix};
        commonPrefixes := commonPrefixes + [commonPrefix];
        count := count + 1;
        ShapesSnoc(shown, Folder(commonPrefix));
        shown := shown + [Folder(commonPrefix)];
      }
    }

    method AddFile(v: Visit)
      requires Valid()
      modifies this
      ensures Valid() && shown == old(shown) + [File(v)]
    {
      contents := contents + [v];
      count := count + 1;
      ShapesSnoc(shown, File(v));
      shown := shown + [File(v)];
    }

    /** The callback of filepath.Walk. */
    method Callback(v: Visit)
      requires Valid()
      modifies this
      ensures Valid() && shown == Extend(old(shown), v, q, maxKeys)
    {
      if v.failed || count >= maxKeys { return; }
      var key := v.key;
      if key == "." { return; }
      if q.prefix != "" && !(q.prefix <= key) { return; }
      if q.marker != "" && !Less(q.marker, key) { return; }
      var rest := key[|q.prefix|..];
      if q.delimiter != "" && IndexOf(rest, q.delimiter).Some? {
        IndexInRange(rest, q.delimiter);
        AddFolder(q.prefix + rest[..IndexOf(rest, q.delimiter).value + |q.delimiter|]);
        return;
      }
      if !v.isDir && !EndsWith(key, ".meta") { AddFile(v); }
    }
  }

  // ---------------------------------------------------------------- what the unlimited listing is

  ghost predicate KeysDistinct(visits: seq<Visit>) {
    forall i, j :: 0 <= i < j < |visits| ==> visits[i].key != visits[j].key
  }

  ghost predicate NoRepeats(items: seq<Item>) { forall i, j :: 0 <= i < j < |items| ==> items[i] != items[j] }

  /** `sep` occurs in `s` at position `i`. */
  predicate OccursAt(s: string, sep: string, i: nat) { i + |sep| <= |s| && s[i..i + |sep|] == sep }

  /** Not an error and not the bucket itself, below the prefix and strictly behind the marker. */
  ghost predicate InRange(v: Visit, q: Query) {
    && !v.failed && v.key != "." && q.prefix <= v.key && (q.marker == "" || Less(q.marker, v.key))
  }

  /** Listed as an object: a file that is not a metadata file, with no delimiter behind the prefix. */
  ghost predicate ListedFile(v: Visit, q: Query) {
    && InRange(v, q) && !v.isDir && !(|v.key| >= 5 && v.key[|v.key| - 5..] == ".meta")
    && (q.delimiter == "" || forall i: nat :: |q.prefix| <= i ==> !OccursAt(v.key, q.delimiter, i))
  }

  /** Listed under the common prefix `p`: the key up to and including the first delimiter behind the prefix. */
  ghost predicate ListedUnder(v: Visit, q: Query, p: string) {
    && InRange(v, q) && q.delimiter != "" && p <= v.key && |p| >= |q.prefix| + |q.delimiter|
    && OccursAt(v.key, q.delimiter, |p| - |q.delimiter|)
    && forall i: nat :: |q.prefix| <= i < |p| - |q.delimiter| ==> !OccursAt(v.key, q.delimiter, i)
  }

  lemma OccursInRest(key: string, n: nat, sep: string, i: nat)
    requires n <= |key| && i <= |key| - n
    ensures sep <= key[n..][i..] <==> OccursAt(key, sep, n + i)
  {
    assert key[n..][i..] == key[n + i..];
  }

  /** The search that the callback makes finds the first delimiter behind the prefix, if there is one. */
  lemma SearchIsFirst(key: string, n: nat, sep: string)
    requires n <= |key|
    ensures IndexOf(key[n..], sep).None? ==> forall i: nat :: n <= i ==> !OccursAt(key, sep, i)
    ensures IndexOf(key[n..], sep).Some? ==>
              OccursAt(key, sep, n + IndexOf(key[n..], sep).value)
              && forall i: nat :: n <= i < n + IndexOf(key[n..], sep).value ==> !OccursAt(key, sep, i)
  {
    var rest := key[n..];
    if IndexOf(rest, sep).Some? {
      IndexHits(rest, sep);
      OccursInRest(key, n, sep, IndexOf(rest, sep).value);
    }
    forall i: nat | n <= i && OccursAt(key, sep, i)
      ensures IndexOf(rest, sep).Some? && n + IndexOf(rest, sep).value <= i
    {
      OccursInRest(key, n, sep, i - n);
      IndexIsFirst(rest, sep, i - n);
    }
  }

  /**
   * With a delimiter behind the prefix, at `i` first, a visit that passes the filters is listed under what ends in it.
   */
  lemma EndsInDelimiter(v: Visit, q: Query, i: nat)
    requires InRange(v, q) && q.delimiter != "" && |q.prefix| <= i && OccursAt(v.key, q.delimiter, i)
    requires forall j: nat :: |q.prefix| <= j < i ==> !OccursAt(v.key, q.delimiter, j)
    ensures ListedUnder(v, q, v.key[..i + |q.delimiter|]) && !ListedFile(v, q)
  {
  }

  lemma ItemAt(v: Visit, q: Query, at: Option<nat>)
    requires q.prefix <= v.key && at == IndexOf(v.key[|q.prefix|..], q.delimiter)
    ensures at.Some? ==> |q.prefix| + at.value + |q.delimiter| <= |v.key|
    ensures ItemOf(v, q) ==
              if q.delimiter != "" && at.Some? then Some(Folder(v.key[..|q.prefix| + at.value + |q.delimiter|]))
              else if !v.isDir && !EndsWith(v.key, ".meta") then Some(File(v)) else None
  {
    var rest := v.key[|q.prefix|..];
    if at.Some? {
      IndexInRange(rest, q.delimiter);
      assert q.prefix + rest[..at.value + |q.delimiter|] == v.key[..|q.prefix| + at.value + |q.delimiter|];
    }
  }

  /** Where the first delimiter behind the prefix ends, if a visit that passes the filters is listed under one. */
  lemma FolderEnds(v: Visit, q: Query) returns (end: Option<nat>)
    requires Considered(v, q)
    ensures end.Some? ==> end.value <= |v.key| && ItemOf(v, q) == Some(Folder(v.key[..end.value]))
                          && ListedUnder(v, q, v.key[..end.value]) && !ListedFile(v, q)
    ensures end.None? ==> q.delimiter == "" || forall i: nat :: |q.prefix| <= i ==> !OccursAt(v.key, q.delimiter, i)
    ensures end.None? ==> ItemOf(v, q) == if !v.isDir && !EndsWith(v.key, ".meta") then Some(File(v)) else None
  {
    var at := IndexOf(v.key[|q.prefix|..], q.delimiter);
    SearchIsFirst(v.key, |q.prefix|, q.delimiter);
    ItemAt(v, q, at);
    if q.delimiter != "" && at.Some? {
      end := Some(|q.prefix| + at.value + |q.delimiter|);
      EndsInDelimiter(v, q, |q.prefix| + at.value);
    } else {
      end := None;
    }
  }

  /** A visit is listed under one common prefix at most. */
  lemma OneFolder(v: Visit, q: Query, p: string, r: string)
    requires ListedUnder(v, q, p) && ListedUnder(v, q, r)
    ensures p == r
  {
    assert |p| == |r|;
    assert p == v.key[..|p|] && r == v.key[..|r|];
  }

  /** The item a visit gives is the listed file, or the common prefix that it is listed under. */
  lemma ItemMeans(v: Visit, q: Query)
    ensures Considered(v, q) && ItemOf(v, q) == Some(File(v)) <==> ListedFile(v, q)
    ensures Considered(v, q) && ItemOf(v, q).Some? && ItemOf(v, q).value.File? ==> ItemOf(v, q).value.v == v
    ensures forall p :: Considered(v, q) && ItemOf(v, q) == Some(Folder(p)) <==> ListedUnder(v, q, p)
  {
    if Considered(v, q) {
      var end := FolderEnds(v, q);
      forall p | ListedUnder(v, q, p) ensures ItemOf(v, q) == Some(Folder(p)) {
        if end.Some? { OneFolder(v, q, p, v.key[..end.value]); }
      }
    }
  }

  /** Nothing is invented, and nothing that is to be listed is forgotten. */
  lemma {:induction false} AllMembers(visits: seq<Visit>, q: Query)
    ensures forall v :: File(v) in All(visits, q) <==> v in visits && ListedFile(v, q)
    ensures forall p :: Folder(p) in All(visits, q) <==> exists k :: 0 <= k < |visits| && ListedUnder(visits[k], q, p)
  {
    if visits != [] {
      var n := |visits| - 1;
      AllMembers(visits[..n], q);
      ItemMeans(visits[n], q);
      forall p ensures Folder(p) in All(visits, q) <==>
          exists k :: 0 <= k < |visits| && ListedUnder(visits[k], q, p)
      {
        if k :| 0 <= k < n && ListedUnder(visits[k], q, p) { assert visits[..n][k] == visits[k]; }
        if Folder(p) in All(visits[..n], q) {
          var k :| 0 <= k < n && ListedUnder(visits[..n][k], q, p);
          assert visits[..n][k] == visits[k];
        }
      }
    }
  }

  /**
   * Each entry that passes the filters contributes to exactly one common prefix, listed once, or - when it is a file
   * not ending in .meta - to the contents, once; an entry with neither is a directory or a .meta file.
   */
  lemma {:induction false} AllOnce(visits: seq<Visit>, q: Query)
    requires KeysDistinct(visits)
    ensures NoRepeats(All(visits, q))
  {
    if visits != [] {
      var n := |visits| - 1;
      AllOnce(visits[..n], q);
      var v := visits[n];
      AllMembers(visits[..n], q);
      ItemMeans(v, q);
      assert v !in visits[..n];
    }
  }

  /** A longer walk lists what a shorter one does, and then at most one item more for each further visit. */
  lemma AllGrows(visits: seq<Visit>, i: nat, q: Query)
    requires i < |visits|
    ensures All(visits[..i], q) <= All(visits[..i + 1], q) && |All(visits[..i + 1], q)| <= |All(visits[..i], q)| + 1
  {
    assert visits[..i + 1][..i] == visits[..i];
  }

  /** The files of the unlimited listing, in walk order. */
  lemma {:induction false} AllFiles(visits: seq<Visit>, q: Query)
    ensures Files(All(visits, q)) == Filter(visits, v => ListedFile(v, q))
  {
    if visits != [] {
      var n := |visits| - 1;
      AllFiles(visits[..n], q);
      ItemMeans(visits[n], q);
      if Considered(visits[n], q) && ItemOf(visits[n], q).Some? {
        ShapesSnoc(All(visits[..n], q), ItemOf(visits[n], q).value);
      }
    }
  }

  /** The common prefixes among the items, in order, and how the items split. */
  lemma {:induction false} FoldersOf(items: seq<Item>)
    ensures |Files(items)| + |Folders(items)| == |items|
    ensures forall p :: p in Folders(items) <==> Folder(p) in items
  {
    if items != [] { FoldersOf(items[..|items| - 1]); }
  }

  /** Not truncated means complete; truncated means the limit was filled, even when nothing was left out. */
  lemma TruncationExactly(visits: seq<Visit>, q: Query, maxKeys: int)
    ensures var shown := First(All(visits, q), maxKeys);
            && (|shown| >= maxKeys <==> |All(visits, q)| >= maxKeys)
            && (|shown| < maxKeys ==> shown == All(visits, q))
  {
  }

  // ---------------------------------------------------------------- the answer

  /** No common prefix is listed twice, whatever the walk visits. */
  lemma {:induction false} FoldersOnce(visits: seq<Visit>, q: Query)
    ensures forall i, j :: 0 <= i < j < |Folders(All(visits, q))| ==>
              Folders(All(visits, q))[i] != Folders(All(visits, q))[j]
  {
    if visits != [] {
      var n := |visits| - 1;
      FoldersOnce(visits[..n], q);
      FoldersOf(All(visits[..n], q));
      if Considered(visits[n], q) && ItemOf(visits[n], q).Some? {
        ShapesSnoc(All(visits[..n], q), ItemOf(visits[n], q).value);
      }
    }
  }

  /**
   * The answer lists the visits: every file to be listed, in walk order, and every common prefix under which one is to
   * be listed, once.
   */
  ghost predicate Lists(result: Listing, visits: seq<Visit>, q: Query) {
    && result.contents == Filter(visits, v => ListedFile(v, q))
    && (forall p :: p in result.commonPrefixes <==> exists k :: 0 <= k < |visits| && ListedUnder(visits[k], q, p))
    && (forall i, j :: 0 <= i < j < |result.commonPrefixes| ==> result.commonPrefixes[i] != result.commonPrefixes[j])
  }

  lemma AllIsListed(visits: seq<Visit>, q: Query, truncated: bool)
    ensures Lists(Listing(Files(All(visits, q)), Folders(All(visits, q)), truncated), visits, q)
  {
    AllFiles(visits, q);
    AllMembers(visits, q);
    FoldersOf(All(visits, q));
    FoldersOnce(visits, q);
  }

  /** The walk itself; `upTo` counts the visits until the limit was filled. */
  method WalkAll(visits: seq<Visit>, q: Query, maxKeys: int) returns (walk: Walk, ghost upTo: nat)
    ensures walk.Valid() && walk.shown == First(All(visits, q), maxKeys)
    ensures upTo <= |visits| && walk.shown == All(visits[..upTo], q) && (upTo == |visits| || walk.count >= maxKeys)
  {
    walk := new Walk(q, maxKeys);
    upTo := 0;
    for i := 0 to |visits|
      invariant walk.Valid() && walk.q == q && walk.maxKeys == maxKeys
      invariant walk.shown == First(All(visits[..i], q), maxKeys)
      invariant upTo <= i && walk.shown == All(visits[..upTo], q) && (upTo == i || walk.count >= maxKeys)
    {
      FirstExtends(visits, i, q, maxKeys);
      AllGrows(visits, i, q);
      if walk.count < maxKeys { upTo := i + 1; }
      walk.Callback(visits[i]);
    }
    assert visits[..|visits|] == visits;
  }

  /**
   * ListObjectsWithDelimiter: the walk with its counter and its set of seen prefixes. It lists the visits, all of them
   * or up to the one that filled the limit, and says truncated exactly when the limit was filled.
   */
  method ListObjectsWithDelimiter(visits: seq<Visit>, q: Query, maxKeys: int) returns (result: Listing)
    ensures var shown := First(All(visits, q), maxKeys);
            result == Listing(Files(shown), Folders(shown), |shown| >= maxKeys)
    ensures exists upTo: nat :: upTo <= |visits| && Lists(result, visits[..upTo], q)
              && (upTo == |visits| || result.truncated)
    ensures |result.contents| + |result.commonPrefixes| <= if maxKeys > 0 then maxKeys else 0
    ensures result.truncated <==> |result.contents| + |result.commonPrefixes| >= maxKeys
  {
    var walk, upTo := WalkAll(visits, q, maxKeys);
    result := Listing(walk.contents, walk.commonPrefixes, walk.count >= maxKeys);
    AllIsListed(visits[..upTo], q, result.truncated);
    FoldersOf(walk.shown);
  }
}
