// The caching layer of internal/cache/cache.go: a hot cache of small objects with a time to live,
// a metadata cache without one, and the backend wrapper that reads through and invalidates both.
// The 2Q replacement policy is any removal at any moment (`Evict`).
module ObjectCache {
  import opened Core
  import opened Runs

  datatype Name = Name(bucket: string, key: string)

  datatype Object = Object(
    body: Bytes, contentType: string, size: int, etag: string, lastModified: int, metadata: map<string, string>)

  datatype Info = Info(
    key: string, size: int, etag: string, lastModified: int, contentType: string, storageClass: string,
    metadata: map<string, string>)

  /** What a backend keeps under a name; Head may report its own content type and storage class. */
  datatype Stored = Stored(obj: Object, headType: string, storageClass: string)

  type Store = map<Name, Stored>

  datatype Error = NotFound | Unavailable

  datatype Entry = Entry(data: Bytes, info: Info, expiresAt: int)

  /** The contents of both caches. */
  datatype Caches = Caches(hot: map<string, Entry>, meta: map<string, Info>)

  datatype Limits = Limits(maxObjectSize: int, ttl: int)

  /** fmt.Sprintf("%s/%s", bucket, key). */
  function CacheKey(n: Name): string { n.bucket + "/" + n.key }

  // ---------------------------------------------------------------- the bare backend

  /** A backend Get; `fails` says that this call fails for reasons of its own. */
  function BareGet(store: Store, n: Name, fails: bool): Result<Object, Error> {
    if fails then Err(Unavailable) else if n in store then Ok(store[n].obj) else Err(NotFound)
  }

  function HeadOf(n: Name, st: Stored): Info {
    Info(n.key, st.obj.size, st.obj.etag, st.obj.lastModified, st.headType, st.storageClass, st.obj.metadata)
  }

  function BareHead(store: Store, n: Name, fails: bool): Result<Info, Error> {
    if fails then Err(Unavailable) else if n in store then Ok(HeadOf(n, store[n])) else Err(NotFound)
  }

  function WithoutBucket(store: Store, bucket: string): Store {
    map n | n in store && n.bucket != bucket :: store[n]
  }

  // ---------------------------------------------------------------- what the cache methods compute

  function Serve(e: Entry): Object {
    Object(e.data, e.info.contentType, e.info.size, e.info.etag, e.info.lastModified, e.info.metadata)
  }

  predicate Fresh(c: Caches, key: string, now: int) { key in c.hot && now < c.hot[key].expiresAt }

  function Insert(c: Caches, lim: Limits, key: string, data: Bytes, info: Info, now: int): Caches {
    if |data| > lim.maxObjectSize then c
    else Caches(c.hot[key := Entry(data, info, now + lim.ttl)], c.meta[key := info])
  }

  function Without(c: Caches, keys: set<string>): Caches { Caches(c.hot - keys, c.meta - keys) }

  /** The cache keys InvalidateBucket removes. */
  predicate InBucket(key: string, bucket: string) {
    |key| > |bucket| + 1 && key[..|bucket| + 1] == bucket + "/"
  }

  function WithoutPrefix(c: Caches, bucket: string): Caches {
    Caches(map k | k in c.hot && !InBucket(k, bucket) :: c.hot[k],
           map k | k in c.meta && !InBucket(k, bucket) :: c.meta[k])
  }

  function InfoOf(n: Name, o: Object): Info {
    Info(n.key, o.size, o.etag, o.lastModified, o.contentType, "", o.metadata)
  }

  /** The objects the wrapper reads into memory. */
  predicate Cacheable(lim: Limits, o: Object) { 0 < o.size <= lim.maxObjectSize }

  /**
   * CachingBackend.GetObject.  `fails` is the fate of the first backend call, `readFails` of reading its
   * body, and `refetchFails` of the second call that a failed read causes.
   */
  function CachedGet(lim: Limits, store: Store, c: Caches, now: int, n: Name, fails: bool, readFails: bool,
      refetchFails: bool)
    : (Caches, Result<Object, Error>)
  {
    var key := CacheKey(n);
    if Fresh(c, key, now) then (c, Ok(Serve(c.hot[key])))
    else
      var c1 := c.(hot := c.hot - {key});
      var bare := BareGet(store, n, fails);
      if bare.Err? then (c1, bare)
      else
        var o := bare.value;
        if !Cacheable(lim, o) then (c1, bare)
        else if readFails || |o.body| < o.size then (c1, BareGet(store, n, refetchFails))
        else
          var data := o.body[..o.size];
          (Insert(c1, lim, key, data, InfoOf(n, o), now), Ok(o.(body := data)))
  }

  function CachedHead(store: Store, c: Caches, n: Name, fails: bool): (Caches, Result<Info, Error>) {
    var key := CacheKey(n);
    if key in c.meta then (c, Ok(c.meta[key]))
    else
      var bare := BareHead(store, n, fails);
      if bare.Err? then (c, bare) else (c.(meta := c.meta[key := bare.value]), bare)
  }

  // ---------------------------------------------------------------- the classes

  class Backend {
    var objects: Store

    constructor ()
      ensures objects == map[]
    {
      objects := map[];
    }

    method Put(n: Name, st: Stored, fails: bool) returns (ok: bool)
      modifies this
      ensures ok == !fails && objects == if fails then old(objects) else old(objects)[n := st]
    {
      if !fails { objects := objects[n := st]; }
      ok := !fails;
    }

    method Delete(n: Name, fails: bool) returns (ok: bool)
      modifies this
      ensures ok == !fails && objects == if fails then old(objects) else old(objects) - {n}
    {
      if !fails { objects := objects - {n}; }
      ok := !fails;
    }

    method DeleteBucket(bucket: string, fails: bool) returns (ok: bool)
      modifies this
      ensures ok == !fails && objects == if fails then old(objects) else WithoutBucket(old(objects), bucket)
    {
      if !fails { objects := WithoutBucket(objects, bucket); }
      ok := !fails;
    }
  }

  class ObjectCache {
    var hot: map<string, Entry>
    var meta: map<string, Info>
    var hits: nat
    var misses: nat
    const lim: Limits

    ghost function Contents(): Caches
      reads this
    {
      Caches(hot, meta)
    }

    constructor (lim: Limits)
      ensures Contents() == Caches(map[], map[]) && this.lim == lim
    {
      this.lim := lim;
      hot, meta, hits, misses := map[], map[], 0, 0;
    }

    method GetObject(n: Name, now: int) returns (o: Option<Object>)
      modifies this
      ensures var key := CacheKey(n); var c := old(Contents());
              if Fresh(c, key, now) then o == Some(Serve(c.hot[key])) && Contents() == c
              else o == None && Contents() == c.(hot := c.hot - {key})
      ensures hits == old(hits) + (if o.Some? then 1 else 0) && misses == old(misses) + if o.None? then 1 else 0
      ensures var key := n.bucket + "/" + n.key;
              && (o.Some? <==> key in old(hot) && now < old(hot)[key].expiresAt)
              && (o.Some? ==> o.value.body == old(hot)[key].data && InfoOf(n, o.value) == old(hot)[key].info.(
                    key := n.key, storageClass := ""))
              && (o.None? ==> key !in hot)
              && (forall k :: k != key ==> (k in hot <==> k in old(hot)) && (k in hot ==> hot[k] == old(hot)[k]))
    {
      var key := CacheKey(n);
      if key in hot {
        var cached := hot[key];
        if now < cached.expiresAt {
          hits := hits + 1;
          return Some(Serve(cached));
        }
        hot := hot - {key};
      }
      misses := misses + 1;
      assert Contents().hot == old(Contents()).hot - {key};
      return None;
    }

    method PutObject(n: Name, data: Bytes, info: Info, now: int)
      modifies `hot, `meta
      ensures Contents() == Insert(old(Contents()), lim, CacheKey(n), data, info, now)
      ensures var key := n.bucket + "/" + n.key;
              if |data| <= lim.maxObjectSize then
                hot == old(hot)[key := Entry(data, info, now + lim.ttl)] && meta == old(meta)[key := info]
              else
                hot == old(hot) && meta == old(meta)
    {
      if |data| > lim.maxObjectSize { return; }
      var key := CacheKey(n);
      hot := hot[key := Entry(data, info, now + lim.ttl)];
      meta := meta[key := info];
    }

    method GetMetadata(n: Name) returns (info: Option<Info>)
      modifies `hits, `misses
      ensures info == if CacheKey(n) in meta then Some(meta[CacheKey(n)]) else None
      ensures hits == old(hits) + (if info.Some? then 1 else 0) && misses == old(misses) + if info.None? then 1 else 0
    {
      var key := CacheKey(n);
      if key in meta {
        hits := hits + 1;
        return Some(meta[key]);
      }
      misses := misses + 1;
      return None;
    }

    method PutMetadata(n: Name, info: Info)
      modifies `meta
      ensures meta == old(meta)[CacheKey(n) := info]
    {
      meta := meta[CacheKey(n) := info];
    }

    method Invalidate(n: Name)
      modifies `hot, `meta
      ensures Contents() == Without(old(Contents()), {CacheKey(n)})
      ensures var key := n.bucket + "/" + n.key; hot == old(hot) - {key} && meta == old(meta) - {key}
    {
      hot := hot - {CacheKey(n)};
      meta := meta - {CacheKey(n)};
    }

    method InvalidateBucket(bucket: string)
      modifies `hot, `meta
      ensures Contents() == WithoutPrefix(old(Contents()), bucket)
      ensures forall k :: k in hot <==> k in old(hot) && !(bucket + "/" < k)
      ensures forall k :: k in hot ==> hot[k] == old(hot)[k]
      ensures forall k :: k in meta <==> k in old(meta) && !(bucket + "/" < k)
      ensures forall k :: k in meta ==> meta[k] == old(meta)[k]
    {
      var prefix := bucket + "/";
      var hot0, meta0 := hot, meta;
      var keys := hot.Keys;
      while keys != {}
        invariant keys <= hot0.Keys && meta == meta0
        invariant hot == map k | k in hot0 && (k in keys || !InBucket(k, bucket)) :: hot0[k]
        decreases keys
      {
        var key :| key in keys;
        if |key| > |prefix| && key[..|prefix|] == prefix { hot := hot - {key}; }
        keys := keys - {key};
      }
      keys := meta.Keys;
      while keys != {}
        invariant keys <= meta0.Keys && hot == map k | k in hot0 && !InBucket(k, bucket) :: hot0[k]
        invariant meta == map k | k in meta0 && (k in keys || !InBucket(k, bucket)) :: meta0[k]
        decreases keys
      {
        var key :| key in keys;
        if |key| > |prefix| && key[..|prefix|] == prefix { meta := meta - {key}; }
        keys := keys - {key};
      }
    }

    /** The replacement policy may drop anything at any time. */
    method Evict(hotKeys: set<string>, metaKeys: set<string>)
      modifies `hot, `meta
      ensures Contents() == Caches(old(hot) - hotKeys, old(meta) - metaKeys)
    {
      hot, meta := hot - hotKeys, meta - metaKeys;
    }
  }

  class CachingBackend {
    const backend: Backend
    const cache: ObjectCache

    /** The wrapper and its backend as one value, at a given time. */
    ghost function State(now: int): System
      reads backend, cache
    {
      System(cache.lim, backend.objects, cache.Contents(), now)
    }

    constructor (backend: Backend, cache: ObjectCache)
      ensures this.backend == backend && this.cache == cache
    {
      this.backend, this.cache := backend, cache;
    }

    method GetObject(n: Name, now: int, fails: bool, readFails: bool, refetchFails: bool)
        returns (r: Result<Object, Error>)
      modifies cache
      ensures State(now) == After(old(State(now)), Get(n, fails, readFails, refetchFails))
      ensures KeepsCoherence(old(State(now)), State(now), Get(n, fails, readFails, refetchFails))
      ensures r == CachedGet(cache.lim, backend.objects, old(cache.Contents()), now, n, fails, readFails,
              refetchFails).1
      ensures forall names :: Coherent(names, old(State(now))) && n in names ==>
                r == BareGet(backend.objects, n, false) || ((fails || refetchFails) && r == Err(Unavailable))
    {
      StepKeepsCoherence(State(now), Get(n, fails, readFails, refetchFails));
      var hit := cache.GetObject(n, now);
      if hit.Some? { return Ok(hit.value); }
      r := BareGet(backend.objects, n, fails);
      if r.Err? { return; }
      var obj := r.value;
      if 0 < obj.size <= cache.lim.maxObjectSize {
        if readFails || |obj.body| < obj.size { return BareGet(backend.objects, n, refetchFails); }
        var data := obj.body[..obj.size];
        cache.PutObject(n, data, InfoOf(n, obj), now);
        return Ok(obj.(body := data));
      }
    }

    method HeadObject(n: Name, now: int, fails: bool) returns (r: Result<Info, Error>)
      modifies cache
      ensures State(now) == After(old(State(now)), Head(n, fails))
      ensures KeepsCoherence(old(State(now)), State(now), Head(n, fails))
      ensures r == CachedHead(backend.objects, old(cache.Contents()), n, fails).1
      ensures forall names :: Coherent(names, old(State(now))) && n in names && r.Ok? ==>
                n in backend.objects && SameHead(r.value, HeadOf(n, backend.objects[n]))
    {
      StepKeepsCoherence(State(now), Head(n, fails));
      var hit := cache.GetMetadata(n);
      if hit.Some? { return Ok(hit.value); }
      r := BareHead(backend.objects, n, fails);
      if r.Ok? { cache.PutMetadata(n, r.value); }
    }

    method PutObject(n: Name, st: Stored, now: int, fails: bool) returns (ok: bool)
      modifies backend, cache
      ensures State(now) == After(old(State(now)), Put(n, st, fails)) && ok == !fails
      ensures KeepsCoherence(old(State(now)), State(now), Put(n, st, fails))
    {
      StepKeepsCoherence(State(now), Put(n, st, fails));
      ok := backend.Put(n, st, fails);
      if ok { cache.Invalidate(n); }
    }

    method DeleteObject(n: Name, now: int, fails: bool) returns (ok: bool)
      modifies backend, cache
      ensures State(now) == After(old(State(now)), Delete(n, fails)) && ok == !fails
      ensures KeepsCoherence(old(State(now)), State(now), Delete(n, fails))
    {
      StepKeepsCoherence(State(now), Delete(n, fails));
      ok := backend.Delete(n, fails);
      if ok { cache.Invalidate(n); }
    }

    method DeleteBucket(bucket: string, now: int, fails: bool) returns (ok: bool)
      modifies backend, cache
      ensures State(now) == After(old(State(now)), Op.DeleteBucket(bucket, fails)) && ok == !fails
      ensures KeepsCoherence(old(State(now)), State(now), Op.DeleteBucket(bucket, fails))
    {
      StepKeepsCoherence(State(now), Op.DeleteBucket(bucket, fails));
      ok := backend.DeleteBucket(bucket, fails);
      if ok { cache.InvalidateBucket(bucket); }
    }
  }

  // ---------------------------------------------------------------- sequential runs

  datatype System = System(lim: Limits, store: Store, caches: Caches, now: int)

  datatype Op =
    | Get(n: Name, fails: bool, readFails: bool, refetchFails: bool)
    | Head(n: Name, fails: bool)
    | Put(n: Name, st: Stored, fails: bool)
    | Delete(n: Name, fails: bool)
    | DeleteBucket(bucket: string, fails: bool)
    | Evict(hotKeys: set<string>, metaKeys: set<string>)
    | Tick(elapsed: nat)

  /** One call through the wrapper, exactly as the methods of CachingBackend leave store and caches. */
  function After(s: System, op: Op): System {
    match op
    case Get(n, fails, readFails, refetchFails) =>
      s.(caches := CachedGet(s.lim, s.store, s.caches, s.now, n, fails, readFails, refetchFails).0)
    case Head(n, fails) => s.(caches := CachedHead(s.store, s.caches, n, fails).0)
    case Put(n, st, fails) =>
      if fails then s else s.(store := s.store[n := st], caches := Without(s.caches, {CacheKey(n)}))
    case Delete(n, fails) =>
      if fails then s else s.(store := s.store - {n}, caches := Without(s.caches, {CacheKey(n)}))
    case DeleteBucket(bucket, fails) =>
      if fails then s else s.(store := WithoutBucket(s.store, bucket), caches := WithoutPrefix(s.caches, bucket))
    case Evict(hotKeys, metaKeys) => s.(caches := Caches(s.caches.hot - hotKeys, s.caches.meta - metaKeys))
    case Tick(elapsed) => s.(now := s.now + elapsed)
  }

  /** A declared size that does not cut the body short. */
  predicate SizeOk(o: Object) { o.size <= 0 || o.size >= |o.body| }

  predicate SizesOk(store: Store) { forall n :: n in store ==> SizeOk(store[n].obj) }

  /** Clients that only use the names in `names`. */
  ghost predicate Uses(names: iset<Name>, op: Op) {
    match op
    case Get(n, _, _, _) => n in names
    case Head(n, _) => n in names
    case Put(n, st, _) => n in names && SizeOk(st.obj)
    case Delete(n, _) => n in names
    case _ => true
  }

  ghost function NextOver(names: iset<Name>): (System, Op) -> Option<System> {
    (s: System, op: Op) => if Uses(names, op) then Some(After(s, op)) else None
  }

  predicate SameHead(a: Info, b: Info) {
    a.size == b.size && a.etag == b.etag && a.lastModified == b.lastModified && a.metadata == b.metadata
  }

  /**
   * The wrapper's answer to `op` is what the bare backend would answer: for Get the very same object or
   * error, for Head the same size, ETag, time and metadata.  A backend call that fails on its own may
   * surface, or be hidden by a cache hit; nothing else may differ.
   */
  predicate AnswersLikeBackend(s: System, op: Op) {
    match op
    case Get(n, fails, readFails, refetchFails) =>
      var r := CachedGet(s.lim, s.store, s.caches, s.now, n, fails, readFails, refetchFails).1;
      r == BareGet(s.store, n, false) || ((fails || refetchFails) && r == Err(Unavailable))
    case Head(n, fails) =>
      var r := CachedHead(s.store, s.caches, n, fails).1;
      var bare := BareHead(s.store, n, false);
      || (r.Ok? && bare.Ok? && SameHead(r.value, bare.value))
      || r == bare
      || (fails && r == Err(Unavailable))
    case _ => true
  }

  function Start(lim: Limits, store: Store, now: int): System { System(lim, store, Caches(map[], map[]), now) }

  /** Over every run from empty caches that uses `names` only, every answer is the bare backend's. */
  ghost predicate CoherentOver(names: iset<Name>) {
    forall lim, store, now, ops, t, op ::
      SizesOk(store) && Reaches(NextOver(names), Start(lim, store, now), ops, t) && Uses(names, op)
      ==> AnswersLikeBackend(t, op)
  }

  ghost predicate KeysInjective(names: iset<Name>) {
    forall a, b :: a in names && b in names && CacheKey(a) == CacheKey(b) ==> a == b
  }

  ghost predicate KeysNonEmpty(names: iset<Name>) { forall n :: n in names ==> n.key != "" }

  ghost predicate Coherent(names: iset<Name>, s: System) {
    && SizesOk(s.store)
    && (forall n :: n in names && CacheKey(n) in s.caches.hot ==>
          n in s.store && Serve(s.caches.hot[CacheKey(n)]) == s.store[n].obj)
    && (forall n :: n in names && CacheKey(n) in s.caches.meta ==>
          n in s.store && SameHead(s.caches.meta[CacheKey(n)], HeadOf(n, s.store[n])))
  }

  lemma CoherentAnswers(names: iset<Name>, s: System, op: Op)
    requires Coherent(names, s) && Uses(names, op)
    ensures AnswersLikeBackend(s, op)
  {
    if op.Get? && op.n in s.store {
      var o := s.store[op.n].obj;
      if Cacheable(s.lim, o) && |o.body| >= o.size { assert o.body[..o.size] == o.body; }
    }
  }

  lemma CoherentAfter(names: iset<Name>, s: System, op: Op)
    requires Coherent(names, s) && Uses(names, op) && KeysInjective(names) && KeysNonEmpty(names)
    ensures Coherent(names, After(s, op))
  {
    match op
    case Get(n, fails, readFails, refetchFails) =>
      if n in s.store {
        var o := s.store[n].obj;
        if Cacheable(s.lim, o) && |o.body| >= o.size { assert o.body[..o.size] == o.body; }
      }
    case DeleteBucket(bucket, fails) =>
      forall n | n in names && n.bucket == bucket ensures InBucket(CacheKey(n), bucket) {
        assert CacheKey(n)[..|bucket| + 1] == bucket + "/";
      }
    case _ =>
  }

  /** On all names whose cache keys are unambiguous and whose keys are not empty, coherent caches stay coherent. */
  ghost predicate KeepsCoherence(before: System, after: System, op: Op) {
    forall names :: Coherent(names, before) && Uses(names, op) && KeysInjective(names) && KeysNonEmpty(names) ==>
        Coherent(names, after)
  }

  lemma StepKeepsCoherence(s: System, op: Op)
    ensures KeepsCoherence(s, After(s, op), op)
    ensures forall names :: Coherent(names, s) && Uses(names, op) ==> AnswersLikeBackend(s, op)
  {
    forall names | Coherent(names, s) && Uses(names, op) ensures AnswersLikeBackend(s, op) {
      CoherentAnswers(names, s, op);
    }
    forall names | Coherent(names, s) && Uses(names, op) && KeysInjective(names) && KeysNonEmpty(names)
      ensures Coherent(names, After(s, op))
    {
      CoherentAfter(names, s, op);
    }
  }

  lemma GoodNamesCoherent(names: iset<Name>)
    requires KeysInjective(names) && KeysNonEmpty(names)
    ensures CoherentOver(names)
  {
    forall lim, store, now, ops, t, op |
      SizesOk(store) && Reaches(NextOver(names), Start(lim, store, now), ops, t) && Uses(names, op)
      ensures AnswersLikeBackend(t, op)
    {
      var inv := (s: System) => Coherent(names, s);
      var next := NextOver(names);
      forall s, o | inv(s) && next(s, o).Some? ensures inv(next(s, o).value) { CoherentAfter(names, s, o); }
      RunKeeps(next, inv, Start(lim, store, now), ops, t);
      CoherentAnswers(names, t, op);
    }
  }

  // ---------------------------------------------------------------- what caching is for

  /**
   * A read-through object is served again without the backend, until its time is up: after a Get that was given and
   * could read a cacheable object, a Get answers just that - whatever the store holds by then, and even if the backend
   * fails - before now + ttl; from then on it is the backend's answer again.
   */
  lemma ServedUntilExpiry(lim: Limits, store: Store, c: Caches, now: int, n: Name, after: Store, later: int,
      fails: bool)
    requires n in store && 0 < store[n].obj.size <= lim.maxObjectSize && |store[n].obj.body| >= store[n].obj.size
    requires n.bucket + "/" + n.key !in c.hot
    ensures var o := store[n].obj;
            var (c1, first) := CachedGet(lim, store, c, now, n, false, false, false);
            var second := CachedGet(lim, after, c1, later, n, fails, false, fails).1;
            && first == Ok(o.(body := o.body[..o.size]))
            && (later < now + lim.ttl ==> second == first)
            && (later >= now + lim.ttl && fails ==> second == Err(Unavailable))
            && (later >= now + lim.ttl && !fails && n !in after ==> second == Err(NotFound))
  {
    var o := store[n].obj;
    var (c1, first) := CachedGet(lim, store, c, now, n, false, false, false);
    assert CacheKey(n) in c1.hot && |o.body[..o.size]| == o.size;
  }

  /** ... and metadata that was read once is served again for good. */
  lemma HeadServedAgain(store: Store, c: Caches, n: Name, after: Store, fails: bool)
    requires n in store && n.bucket + "/" + n.key !in c.meta
    ensures var (c1, first) := CachedHead(store, c, n, false);
            first == Ok(Info(n.key, store[n].obj.size, store[n].obj.etag, store[n].obj.lastModified, store[n].headType,
                             store[n].storageClass, store[n].obj.metadata))
            && CachedHead(after, c1, n, fails).1 == first
  {
    assert CacheKey(n) in CachedHead(store, c, n, false).0.meta;
  }

  // ---------------------------------------------------------------- the exact condition on names

  function Sample(size: nat): Stored { Stored(Object(seq(size, _ => 0), "", size, "", 0, map[]), "", "") }

  lemma RunOf3(names: iset<Name>, s: System, a: Op, b: Op, c: Op)
    requires Uses(names, a) && Uses(names, b) && Uses(names, c)
    ensures Reaches(NextOver(names), s, [] + [a] + [b] + [c], After(After(After(s, a), b), c))
  {
    var next := NextOver(names);
    ReachesTwo(next, s, [], s, a, After(s, a), b, After(After(s, a), b));
    ReachesSnoc(next, s, [] + [a] + [b], After(After(s, a), b), c, After(After(After(s, a), b), c));
  }

  /** Two names with one cache key: reading the metadata of the second shows the first. */
  lemma SharedKeyIncoherent(names: iset<Name>, a: Name, b: Name)
    requires a in names && b in names && a != b && CacheKey(a) == CacheKey(b)
    ensures !CoherentOver(names)
  {
    var s0 := Start(Limits(0, 0), map[b := Sample(2)], 0);
    var put, head := Put(a, Sample(1), false), Head(a, false);
    RunOf3(names, s0, put, head, Tick(0));
    var t := After(After(After(s0, put), head), Tick(0));
    assert SizesOk(s0.store) && Uses(names, Head(b, false));
    assert t.caches.meta[CacheKey(b)].size == 1 && t.store[b].obj.size == 2;
    assert !AnswersLikeBackend(t, Head(b, false));
  }

  /** An empty key survives the invalidation of its bucket. */
  lemma EmptyKeyIncoherent(names: iset<Name>, n: Name)
    requires n in names && n.key == ""
    ensures !CoherentOver(names)
  {
    var s0 := Start(Limits(0, 0), map[], 0);
    var put, head, drop := Put(n, Sample(1), false), Head(n, false), DeleteBucket(n.bucket, false);
    RunOf3(names, s0, put, head, drop);
    var t := After(After(After(s0, put), head), drop);
    assert SizesOk(s0.store) && Uses(names, Head(n, false));
    assert !InBucket(CacheKey(n), n.bucket);
    assert CacheKey(n) in t.caches.meta && n !in t.store;
    assert !AnswersLikeBackend(t, Head(n, false));
  }

  /**
   * Sequential coherence, exactly: over every run of Get, Head, Put, Delete and DeleteBucket on the given
   * names, with any eviction, any passing of time and any failing backend call, the wrapper answers what
   * the bare backend would answer if and only if cache keys tell the names apart and no key is empty.
   */
  lemma SequentialCoherence(names: iset<Name>)
    ensures CoherentOver(names) <==> KeysInjective(names) && KeysNonEmpty(names)
  {
    if KeysInjective(names) && KeysNonEmpty(names) {
      GoodNamesCoherent(names);
    } else if !KeysInjective(names) {
      var a, b :| a in names && b in names && CacheKey(a) == CacheKey(b) && a != b;
      SharedKeyIncoherent(names, a, b);
    } else {
      var n :| n in names && n.key == "";
      EmptyKeyIncoherent(names, n);
    }
  }

  lemma LongerBucketHasSlash(a: Name, b: Name)
    requires CacheKey(a) == CacheKey(b) && |a.bucket| < |b.bucket|
    ensures '/' in b.bucket
  {
    assert CacheKey(a)[|a.bucket|] == '/' && CacheKey(b)[|a.bucket|] == b.bucket[|a.bucket|];
  }

  /** Bucket names without a slash - all that S3 allows - make cache keys unambiguous. */
  lemma SlashFreeKeys(a: Name, b: Name)
    requires '/' !in a.bucket && '/' !in b.bucket && CacheKey(a) == CacheKey(b)
    ensures a == b
  {
    if |a.bucket| < |b.bucket| { LongerBucketHasSlash(a, b); }
    if |b.bucket| < |a.bucket| { LongerBucketHasSlash(b, a); }
    var k := CacheKey(a);
    assert a.bucket == k[..|a.bucket|] && a.key == k[|a.bucket| + 1..];
    assert b.bucket == k[..|b.bucket|] && b.key == k[|b.bucket| + 1..];
  }

  /** The names S3 allows are coherent. */
  lemma OrdinaryNamesCoherent()
    ensures CoherentOver(iset n: Name | '/' !in n.bucket && n.key != "")
  {
    var names := iset n: Name | '/' !in n.bucket && n.key != "";
    forall a, b | a in names && b in names && CacheKey(a) == CacheKey(b) ensures a == b { SlashFreeKeys(a, b); }
    SequentialCoherence(names);
  }

  /**
   * The declared sizes matter: with nothing cached and no call failing, Get answers like the backend
   * if and only if the object is not cacheable or its size does not cut the body short.
   */
  lemma SizeMustNotCutShort(lim: Limits, store: Store, now: int, n: Name)
    requires n in store
    ensures CachedGet(lim, store, Caches(map[], map[]), now, n, false, false, false).1 == BareGet(store, n, false)
        <==> !(Cacheable(lim, store[n].obj) && store[n].obj.size < |store[n].obj.body|)
  {
    var o := store[n].obj;
    if Cacheable(lim, o) && |o.body| == o.size { assert o.body[..o.size] == o.body; }
    if Cacheable(lim, o) && |o.body| > o.size { assert |o.body[..o.size]| != |o.body|; }
  }

  /**
   * CompleteMultipartUpload is the embedded backend's and invalidates nothing.  After it has stored `after` under `n`
   * behind any coherent caches, Head answers like the backend if and only if the metadata of `n` is not cached or the
   * upload left its attributes as they were; and Get does if and only if the hot entry is missing or expired, or the
   * upload left the object as it was.
   */
  lemma CompleteMultipartGoesUnseen(names: iset<Name>, s: System, n: Name, after: Stored, fails: bool, readFails: bool,
      refetchFails: bool)
    requires Coherent(names, s) && n in names && SizeOk(after.obj)
    ensures var t := s.(store := s.store[n := after]);
            && (AnswersLikeBackend(t, Head(n, fails)) <==>
                  CacheKey(n) !in s.caches.meta || SameHead(HeadOf(n, s.store[n]), HeadOf(n, after)))
            && (AnswersLikeBackend(t, Get(n, fails, readFails, refetchFails)) <==>
                  !Fresh(s.caches, CacheKey(n), s.now) || s.store[n].obj == after.obj)
  {
    CompleteUnseenByHead(names, s, n, after, fails);
    CompleteUnseenByGet(names, s, n, after, fails, readFails, refetchFails);
  }

  lemma CompleteUnseenByHead(names: iset<Name>, s: System, n: Name, after: Stored, fails: bool)
    requires Coherent(names, s) && n in names
    ensures AnswersLikeBackend(s.(store := s.store[n := after]), Head(n, fails)) <==>
              CacheKey(n) !in s.caches.meta || SameHead(HeadOf(n, s.store[n]), HeadOf(n, after))
  {
    var t := s.(store := s.store[n := after]);
    assert t.store[n] == after && t.caches == s.caches;
  }

  lemma CompleteUnseenByGet(names: iset<Name>, s: System, n: Name, after: Stored, fails: bool, readFails: bool,
      refetchFails: bool)
    requires Coherent(names, s) && n in names && SizeOk(after.obj)
    ensures AnswersLikeBackend(s.(store := s.store[n := after]), Get(n, fails, readFails, refetchFails)) <==>
              !Fresh(s.caches, CacheKey(n), s.now) || s.store[n].obj == after.obj
  {
    var t := s.(store := s.store[n := after]);
    assert t.store[n] == after && t.caches == s.caches;
    var o := after.obj;
    if Cacheable(s.lim, o) && |o.body| >= o.size { assert o.body[..o.size] == o.body; }
  }
}
