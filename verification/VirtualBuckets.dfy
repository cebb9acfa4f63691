// Bucket virtualisation in internal/storage/s3.go: a virtual bucket is a key prefix inside a real one.
module VirtualBuckets {
  import opened Core
  import opened Strings
  import opened Runs

  datatype BucketConfig = BucketConfig(realName: string, prefix: string)

  datatype Config = Config(buckets: map<string, BucketConfig>, mapping: map<string, string>)

  function MapBucket(cfg: Config, bucket: string): string {
    if bucket in cfg.buckets && cfg.buckets[bucket].realName != "" then cfg.buckets[bucket].realName
    else if bucket in cfg.mapping then cfg.mapping[bucket]
    else bucket
  }

  /** The configured prefix, closed with a slash. */
  function PrefixFor(cfg: Config, bucket: string): string {
    if bucket in cfg.buckets && cfg.buckets[bucket].prefix != "" then
      var prefix := cfg.buckets[bucket].prefix;
      if EndsWith(prefix, "/") then prefix else prefix + "/"
    else ""
  }

  /** The bucket has a prefix configured. */
  predicate Prefixed(cfg: Config, bucket: string) { bucket in cfg.buckets && cfg.buckets[bucket].prefix != "" }

  /**
   * Where a virtual bucket lives: in the real bucket its configuration names, else in the one it is mapped to, else in
   * its own; under nothing if no prefix is configured, else under the configured prefix, which a slash is added to
   * exactly when it has none at its end.
   */
  lemma LivesUnder(cfg: Config, bucket: string)
    ensures bucket in cfg.buckets && cfg.buckets[bucket].realName != "" ==>
              MapBucket(cfg, bucket) == cfg.buckets[bucket].realName
    ensures !(bucket in cfg.buckets && cfg.buckets[bucket].realName != "") ==>
              (bucket in cfg.mapping ==> MapBucket(cfg, bucket) == cfg.mapping[bucket])
              && (bucket !in cfg.mapping ==> MapBucket(cfg, bucket) == bucket)
    ensures PrefixFor(cfg, bucket) == "" <==> !Prefixed(cfg, bucket)
    ensures Prefixed(cfg, bucket) ==>
              var configured, prefix := cfg.buckets[bucket].prefix, PrefixFor(cfg, bucket);
              && configured <= prefix && prefix[|prefix| - 1] == '/'
              && |prefix| == |configured| + if configured[|configured| - 1] == '/' then 0 else 1
  {
    if Prefixed(cfg, bucket) {
      var configured := cfg.buckets[bucket].prefix;
      assert configured[|configured| - 1..] == [configured[|configured| - 1]];
    }
  }

  predicate LeadingSlash(key: string) { "/" <= key }

  /** addPrefixToKey, with the bucket's prefix already looked up. */
  function Prepend(prefix: string, key: string): string {
    if prefix == "" then key else if LeadingSlash(key) then prefix + key[1..] else prefix + key
  }

  /** removePrefixFromKey: strings.TrimPrefix. */
  function Strip(prefix: string, key: string): string {
    if prefix == "" then key else if prefix <= key then key[|prefix|..] else key
  }

  /** Adding and removing the prefix gives the key back, minus at most one leading slash. */
  lemma StripPrepend(prefix: string, key: string)
    ensures Strip(prefix, Prepend(prefix, key)) == if prefix != "" && LeadingSlash(key) then key[1..] else key
  {
  }

  /** The other way round: a real key comes back if and only if what follows the prefix has no leading slash. */
  lemma PrependStrip(prefix: string, realKey: string)
    requires prefix <= realKey
    ensures Prepend(prefix, Strip(prefix, realKey)) == realKey <==> prefix == "" || !LeadingSlash(realKey[|prefix|..])
  {
    if prefix != "" && LeadingSlash(realKey[|prefix|..]) {
      assert |Prepend(prefix, Strip(prefix, realKey))| == |realKey| - 1;
    }
  }

  // ---------------------------------------------------------------- isolation

  datatype RealName = RealName(bucket: string, key: string)

  type Store = map<RealName, Bytes>

  function Target(cfg: Config, bucket: string, key: string): RealName {
    RealName(MapBucket(cfg, bucket), Prepend(PrefixFor(cfg, bucket), key))
  }

  /** The object operations of one client; `fails` is the real bucket's answer. */
  datatype Op =
    | Get(key: string)
    | Head(key: string)
    | Put(key: string, data: Bytes, fails: bool)
    | PutParts(key: string, parts: seq<Bytes>, fails: bool)
    | Delete(key: string, fails: bool)

  /** What an operation through virtual bucket `bucket` does to the shared store. */
  function After(cfg: Config, bucket: string, s: Store, op: Op): Store {
    match op
    case Get(_) => s
    case Head(_) => s
    case Put(key, data, fails) => if fails then s else s[Target(cfg, bucket, key) := data]
    case PutParts(key, parts, fails) => if fails then s else s[Target(cfg, bucket, key) := Concat(parts)]
    case Delete(key, fails) => if fails then s else s - {Target(cfg, bucket, key)}
  }

  ghost function Through(cfg: Config, bucket: string): (Store, Op) -> Option<Store> {
    (s: Store, op: Op) => Some(After(cfg, bucket, s, op))
  }

  /** What virtual bucket `bucket` holds under `key`. */
  function Look(cfg: Config, bucket: string, s: Store, key: string): Option<Bytes> {
    var name := RealName(MapBucket(cfg, bucket), PrefixFor(cfg, bucket) + key);
    if name in s then Some(s[name]) else None
  }

  ghost predicate SameView(cfg: Config, bucket: string, s: Store, t: Store) {
    forall key :: Look(cfg, bucket, s, key) == Look(cfg, bucket, t, key)
  }

  /** No run of object operations through `v` changes what `w` shows. */
  ghost predicate Isolated(cfg: Config, v: string, w: string) {
    forall s, ops, t :: Reaches(Through(cfg, v), s, ops, t) ==> SameView(cfg, w, s, t)
  }

  predicate Overlap(cfg: Config, v: string, w: string) {
    && MapBucket(cfg, v) == MapBucket(cfg, w)
    && (PrefixFor(cfg, v) <= PrefixFor(cfg, w) || PrefixFor(cfg, w) <= PrefixFor(cfg, v))
  }

  /** Two prefixes of one string are prefixes of each other. */
  lemma PrefixesOfOne(p: string, q: string, s: string)
    requires p <= s && q <= s
    ensures p <= q || q <= p
  {
    if |p| <= |q| { assert p == q[..|p|]; } else { assert q == p[..|q|]; }
  }

  lemma PrependHasPrefix(prefix: string, key: string)
    ensures prefix <= Prepend(prefix, key)
  {
  }

  lemma OpKeepsView(cfg: Config, v: string, w: string, s: Store, op: Op)
    requires !Overlap(cfg, v, w)
    ensures SameView(cfg, w, s, After(cfg, v, s, op))
  {
    var p, q := PrefixFor(cfg, v), PrefixFor(cfg, w);
    forall key ensures RealName(MapBucket(cfg, w), q + key) != Target(cfg, v, op.key) {
      PrependHasPrefix(p, op.key);
      if q + key == Prepend(p, op.key) { PrefixesOfOne(p, q, q + key); }
    }
  }

  lemma DisjointIsolated(cfg: Config, v: string, w: string)
    requires !Overlap(cfg, v, w)
    ensures Isolated(cfg, v, w)
  {
    forall s, ops, t | Reaches(Through(cfg, v), s, ops, t) ensures SameView(cfg, w, s, t) {
      var inv := (u: Store) => SameView(cfg, w, s, u);
      var next := Through(cfg, v);
      forall u, op | inv(u) && next(u, op).Some? ensures inv(next(u, op).value) { OpKeepsView(cfg, v, w, u, op); }
      RunKeeps(next, inv, s, ops, t);
    }
  }

  /** A key whose real name has the form that `w` sees as `seen` leaks when it is written through `v`. */
  lemma WriteLeaks(cfg: Config, v: string, w: string, key: string, seen: string)
    requires Target(cfg, v, key) == RealName(MapBucket(cfg, w), PrefixFor(cfg, w) + seen)
    ensures !Isolated(cfg, v, w)
  {
    var none: Store := map[];
    var op := Put(key, [], false);
    var t := After(cfg, v, none, op);
    ReachesSnoc(Through(cfg, v), none, [], none, op, t);
    assert Look(cfg, w, t, seen) == Some([]) && Look(cfg, w, none, seen) == None;
  }

  /** `w` lies inside `v`. */
  lemma InnerLeaks(cfg: Config, v: string, w: string)
    requires MapBucket(cfg, v) == MapBucket(cfg, w) && PrefixFor(cfg, v) <= PrefixFor(cfg, w)
    ensures !Isolated(cfg, v, w)
  {
    var p, q := PrefixFor(cfg, v), PrefixFor(cfg, w);
    var key := if p == "" then q else "/" + q[|p|..];
    assert q == p + q[|p|..] == q + "";
    assert p != "" ==> key[1..] == q[|p|..];
    WriteLeaks(cfg, v, w, key, "");
  }

  /** `v` lies inside `w`. */
  lemma OuterLeaks(cfg: Config, v: string, w: string)
    requires MapBucket(cfg, v) == MapBucket(cfg, w) && PrefixFor(cfg, w) <= PrefixFor(cfg, v)
    ensures !Isolated(cfg, v, w)
  {
    var p, q := PrefixFor(cfg, v), PrefixFor(cfg, w);
    assert Prepend(p, "") == p == q + p[|q|..];
    WriteLeaks(cfg, v, w, "", p[|q|..]);
  }

  /** A key written through `v` that lands inside `w`. */
  lemma OverlapLeaks(cfg: Config, v: string, w: string)
    requires Overlap(cfg, v, w)
    ensures !Isolated(cfg, v, w)
  {
    if PrefixFor(cfg, v) <= PrefixFor(cfg, w) { InnerLeaks(cfg, v, w); } else { OuterLeaks(cfg, v, w); }
  }

  /**
   * Isolation, exactly: no run of object operations through `v` changes the view of `w` if and only if
   * they use different real buckets or neither slash-closed prefix is a prefix of the other.
   */
  lemma IsolationExactly(cfg: Config, v: string, w: string)
    ensures Isolated(cfg, v, w) <==> !Overlap(cfg, v, w)
  {
    if Overlap(cfg, v, w) { OverlapLeaks(cfg, v, w); } else { DisjointIsolated(cfg, v, w); }
  }

  // ---------------------------------------------------------------- a virtual bucket is a bucket of its own

  /** What a Get through the bucket answers. */
  function Answer(cfg: Config, bucket: string, s: Store, key: string): Option<Bytes> {
    var name := Target(cfg, bucket, key);
    if name in s then Some(s[name]) else None
  }

  /** The key that a client's key means: with a prefix configured, one leading slash is dropped. */
  function Meant(cfg: Config, bucket: string, key: string): string {
    if Prefixed(cfg, bucket) && key != "" && key[0] == '/' then key[1..] else key
  }

  lemma AnswerIsLook(cfg: Config, bucket: string, s: Store, key: string)
    ensures Answer(cfg, bucket, s, key) == Look(cfg, bucket, s, Meant(cfg, bucket, key))
  {
    LivesUnder(cfg, bucket);
    assert LeadingSlash(key) <==> key != "" && key[0] == '/';
    assert "" + key == key;
  }

  /** A bucket that nobody else uses. */
  function PlainAfter(m: map<string, Bytes>, key: string, op: Op): map<string, Bytes> {
    match op
    case Get(_) => m
    case Head(_) => m
    case Put(_, data, fails) => if fails then m else m[key := data]
    case PutParts(_, parts, fails) => if fails then m else m[key := Concat(parts)]
    case Delete(_, fails) => if fails then m else m - {key}
  }

  /** Clients of all buckets take turns; `own` is the plain bucket that only the clients of `v` use. */
  datatype Shared = Shared(store: Store, own: map<string, Bytes>)

  datatype Call = Call(bucket: string, op: Op)

  ghost function Together(cfg: Config, v: string): (Shared, Call) -> Option<Shared> {
    (s: Shared, c: Call) =>
      if c.bucket != v && Overlap(cfg, c.bucket, v) then None
      else Some(Shared(After(cfg, c.bucket, s.store, c.op),
                       if c.bucket == v then PlainAfter(s.own, Meant(cfg, v, c.op.key), c.op) else s.own))
  }

  /** Every Get through `v` answers what the plain bucket holds. */
  ghost predicate ActsAs(cfg: Config, v: string, s: Store, own: map<string, Bytes>) {
    forall key :: Answer(cfg, v, s, key) ==
      if Meant(cfg, v, key) in own then Some(own[Meant(cfg, v, key)]) else None
  }

  /** Two keys have one real name exactly when they mean the same. */
  lemma SameTarget(cfg: Config, v: string, a: string, b: string)
    ensures Target(cfg, v, a) == Target(cfg, v, b) <==> Meant(cfg, v, a) == Meant(cfg, v, b)
  {
    var p := PrefixFor(cfg, v);
    LivesUnder(cfg, v);
    forall key: string ensures Target(cfg, v, key).key == p + Meant(cfg, v, key) {
      assert LeadingSlash(key) <==> key != "" && key[0] == '/';
      assert "" + key == key;
    }
    assert (p + Meant(cfg, v, a))[|p|..] == Meant(cfg, v, a);
    assert (p + Meant(cfg, v, b))[|p|..] == Meant(cfg, v, b);
  }

  lemma CallActs(cfg: Config, v: string, s: Shared, c: Call)
    requires ActsAs(cfg, v, s.store, s.own) && Together(cfg, v)(s, c).Some?
    ensures var t := Together(cfg, v)(s, c).value; ActsAs(cfg, v, t.store, t.own)
  {
    var t := Together(cfg, v)(s, c).value;
    forall key ensures Answer(cfg, v, t.store, key) ==
        if Meant(cfg, v, key) in t.own then Some(t.own[Meant(cfg, v, key)]) else None
    {
      assert Answer(cfg, v, s.store, key) ==
        if Meant(cfg, v, key) in s.own then Some(s.own[Meant(cfg, v, key)]) else None;
      if c.bucket == v {
        SameTarget(cfg, v, key, c.op.key);
      } else {
        OpKeepsView(cfg, c.bucket, v, s.store, c.op);
        AnswerIsLook(cfg, v, s.store, key);
        AnswerIsLook(cfg, v, t.store, key);
      }
    }
  }

  /**
   * A virtual bucket is a bucket of its own: whatever its clients and those of buckets that do not overlap it do, in
   * any order, each Get through it answers what it would if only its clients had run, on a bucket that is not shared.
   */
  lemma OwnBucket(cfg: Config, v: string, calls: seq<Call>, t: Shared)
    requires Reaches(Together(cfg, v), Shared(map[], map[]), calls, t)
    ensures ActsAs(cfg, v, t.store, t.own)
  {
    var next, inv := Together(cfg, v), (s: Shared) => ActsAs(cfg, v, s.store, s.own);
    forall s, c | inv(s) && next(s, c).Some? ensures inv(next(s, c).value) { CallActs(cfg, v, s, c); }
    RunKeeps(next, inv, Shared(map[], map[]), calls, t);
  }
}
