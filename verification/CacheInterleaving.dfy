// The same caching layer under concurrency: lookups, fetches, insertions, writes and invalidations of
// different calls interleave freely, so the cache may serve old objects.  How old is bounded here.
module CacheInterleaving {
  import opened Core
  import opened Runs
  import opened ObjectCache

  /** Program counter of one call.  A Put carries Some(object), a Delete None. */
  datatype Call =
    | Looking(n: Name)                                   // about to ask the hot cache
    | Checking(n: Name, e: Entry)                        // got an entry, about to look at the clock
    | Removing(n: Name)                                  // it was expired
    | Missed(n: Name)                                    // about to ask the backend
    | Fetched(n: Name, o: Object)                        // holding the backend's answer, body not yet read
    | Stamped(n: Name, o: Object, expiresAt: int)        // body read, expiry computed
    | AddingMeta(n: Name, o: Object)                     // in the hot cache, not yet in the metadata cache
    | Refetching(n: Name)                                // the body could not be read
    | Answered(n: Name, r: Result<Object, Error>)        // answered from the backend
    | Served(n: Name, o: Object, at: int)                // answered from the hot cache
    | HeadLooking(n: Name)                               // a Head, about to ask the metadata cache
    | HeadMissed(n: Name)                                // about to ask the backend
    | HeadFetched(n: Name, info: Info)                   // holding the backend's answer, not yet in the metadata cache
    | HeadAnswered(n: Name, i: Result<Info, Error>)
    | Writing(n: Name, st: Option<Stored>)
    | InvalidatingHot(n: Name)
    | InvalidatingMeta(n: Name)
    | Finished(n: Name, ok: bool)

  datatype Shared = Shared(lim: Limits, store: Store, caches: Caches, now: int, calls: seq<Call>)

  datatype Step =
    | Begin(call: Call)
    | Look(c: nat) | CheckClock(c: nat) | Remove(c: nat)
    | Fetch(c: nat, fails: bool) | ReadBody(c: nat, fails: bool) | AddHot(c: nat) | AddMeta(c: nat)
    | Refetch(c: nat, fails: bool)
    | HeadLook(c: nat) | HeadFetch(c: nat, fails: bool) | HeadInsert(c: nat)
    | Write(c: nat, fails: bool) | InvalidateHot(c: nat) | InvalidateMeta(c: nat)
    | Evict(hotKeys: set<string>, metaKeys: set<string>)
    | Tick(elapsed: nat)

  /** Ordinary names: bucket names have no slash. */
  predicate NameOk(n: Name) { '/' !in n.bucket }

  predicate Startable(call: Call) {
    NameOk(call.n) && (call.Looking? || call.HeadLooking?
        || (call.Writing? && (call.st.Some? ==> SizeOk(call.st.value.obj))))
  }

  predicate Enabled(s: Shared, step: Step) {
    match step
    case Begin(call) => Startable(call)
    case Look(c) => c < |s.calls| && s.calls[c].Looking?
    case CheckClock(c) => c < |s.calls| && s.calls[c].Checking?
    case Remove(c) => c < |s.calls| && s.calls[c].Removing?
    case Fetch(c, _) => c < |s.calls| && s.calls[c].Missed?
    case ReadBody(c, _) => c < |s.calls| && s.calls[c].Fetched?
    case AddHot(c) => c < |s.calls| && s.calls[c].Stamped?
    case AddMeta(c) => c < |s.calls| && s.calls[c].AddingMeta?
    case Refetch(c, _) => c < |s.calls| && s.calls[c].Refetching?
    case HeadLook(c) => c < |s.calls| && s.calls[c].HeadLooking?
    case HeadFetch(c, _) => c < |s.calls| && s.calls[c].HeadMissed?
    case HeadInsert(c) => c < |s.calls| && s.calls[c].HeadFetched?
    case Write(c, _) => c < |s.calls| && s.calls[c].Writing?
    case InvalidateHot(c) => c < |s.calls| && s.calls[c].InvalidatingHot?
    case InvalidateMeta(c) => c < |s.calls| && s.calls[c].InvalidatingMeta?
    case Evict(_, _) => true
    case Tick(_) => true
  }

  function Goto(s: Shared, c: nat, call: Call): Shared
    requires c < |s.calls|
  {
    s.(calls := s.calls[c := call])
  }

  /** What reading the whole body and building a new reader turns an object into. */
  function InMemory(o: Object): Object
    requires 0 <= o.size <= |o.body|
  {
    o.(body := o.body[..o.size])
  }

  function Apply(s: Shared, step: Step): Shared
    requires Enabled(s, step)
  {
    match step
    case Begin(call) => s.(calls := s.calls + [call])
    case Look(c) =>
      var n := s.calls[c].n;
      Goto(s, c, if CacheKey(n) in s.caches.hot then Checking(n, s.caches.hot[CacheKey(n)]) else Missed(n))
    case CheckClock(c) =>
      var Checking(n, e) := s.calls[c];
      Goto(s, c, if s.now < e.expiresAt then Served(n, Serve(e), s.now) else Removing(n))
    case Remove(c) =>
      var n := s.calls[c].n;
      Goto(s.(caches := s.caches.(hot := s.caches.hot - {CacheKey(n)})), c, Missed(n))
    case Fetch(c, fails) =>
      var n := s.calls[c].n;
      var r := BareGet(s.store, n, fails);
      Goto(s, c, if r.Ok? && Cacheable(s.lim, r.value) then Fetched(n, r.value) else Answered(n, r))
    case ReadBody(c, fails) =>
      var Fetched(n, o) := s.calls[c];
      Goto(s, c, if fails || |o.body| < o.size || o.size < 0 then Refetching(n)
          else Stamped(n, InMemory(o), s.now + s.lim.ttl))
    case AddHot(c) =>
      var Stamped(n, o, expiresAt) := s.calls[c];
      Goto(s.(caches := s.caches.(hot := s.caches.hot[CacheKey(n) := Entry(o.body, InfoOf(n, o), expiresAt)])),
           c, AddingMeta(n, o))
    case AddMeta(c) =>
      var AddingMeta(n, o) := s.calls[c];
      Goto(s.(caches := s.caches.(meta := s.caches.meta[CacheKey(n) := InfoOf(n, o)])), c, Answered(n, Ok(o)))
    case Refetch(c, fails) => Goto(s, c, Answered(s.calls[c].n, BareGet(s.store, s.calls[c].n, fails)))
    case HeadLook(c) =>
      var n := s.calls[c].n;
      Goto(s, c, if CacheKey(n) in s.caches.meta then HeadAnswered(n, Ok(s.caches.meta[CacheKey(n)]))
          else HeadMissed(n))
    case HeadFetch(c, fails) =>
      var n := s.calls[c].n;
      var r := BareHead(s.store, n, fails);
      Goto(s, c, if r.Ok? then HeadFetched(n, r.value) else HeadAnswered(n, r))
    case HeadInsert(c) =>
      var HeadFetched(n, info) := s.calls[c];
      Goto(s.(caches := s.caches.(meta := s.caches.meta[CacheKey(n) := info])), c, HeadAnswered(n, Ok(info)))
    case Write(c, fails) =>
      var Writing(n, st) := s.calls[c];
      if fails then Goto(s, c, Finished(n, false))
      else Goto(s.(store := if st.Some? then s.store[n := st.value] else s.store - {n}), c, InvalidatingHot(n))
    case InvalidateHot(c) =>
      var n := s.calls[c].n;
      Goto(s.(caches := s.caches.(hot := s.caches.hot - {CacheKey(n)})), c, InvalidatingMeta(n))
    case InvalidateMeta(c) =>
      var n := s.calls[c].n;
      Goto(s.(caches := s.caches.(meta := s.caches.meta - {CacheKey(n)})), c, Finished(n, true))
    case Evict(hotKeys, metaKeys) => s.(caches := Caches(s.caches.hot - hotKeys, s.caches.meta - metaKeys))
    case Tick(elapsed) => s.(now := s.now + elapsed)
  }

  function Start(lim: Limits, store: Store, now: int): Shared { Shared(lim, store, Caches(map[], map[]), now, []) }

  /** A run together with every state it went through; the history steers nothing. */
  datatype Traced = Traced(current: Shared, past: seq<Shared>)

  ghost function Next(t: Traced, step: Step): Option<Traced> {
    if Enabled(t.current, step) then Some(Traced(Apply(t.current, step), t.past + [t.current])) else None
  }

  /** The same steps without the history. */
  ghost function NextShared(s: Shared, step: Step): Option<Shared> {
    if Enabled(s, step) then Some(Apply(s, step)) else None
  }

  // ---------------------------------------------------------------- where served objects come from

  /** At instant `f` the backend held exactly this object - body and attributes - under `n`. */
  ghost predicate HeldAt(t: Traced, f: nat, n: Name, o: Object) {
    f < |t.past| && n in t.past[f].store && t.past[f].store[n].obj == o
  }

  /** At instant `f` it held nothing there. */
  ghost predicate MissingAt(t: Traced, f: nat, n: Name) { f < |t.past| && n !in t.past[f].store }

  /** Expiry was computed at instant `i`. */
  ghost predicate StampedAt(t: Traced, i: nat, expiresAt: int) {
    i < |t.past| && expiresAt == t.past[i].now + t.current.lim.ttl
  }

  /** `o` was the backend's object at some instant f, and its expiry was computed at an instant i >= f. */
  ghost predicate Backed(t: Traced, n: Name, o: Object, expiresAt: int) {
    exists f, i :: HeldAt(t, f, n, o) && StampedAt(t, i, expiresAt) && f <= i
  }

  /** What a call in each phase may rely on. */
  ghost predicate CallOk(t: Traced, call: Call) {
    && NameOk(call.n)
    && match call
       case Checking(n, e) => Backed(t, n, Serve(e), e.expiresAt)
       case Fetched(n, o) => SizeOk(o) && 0 < o.size && exists f :: HeldAt(t, f, n, o)
       case Stamped(n, o, expiresAt) => Backed(t, n, o, expiresAt)
       case AddingMeta(n, o) => exists f :: HeldAt(t, f, n, o)
       case Answered(n, r) =>
         && (r.Ok? ==> exists f :: HeldAt(t, f, n, r.value))
         && (r == Err(NotFound) ==> exists f :: MissingAt(t, f, n))
       case Served(n, o, at) => exists e :: e - t.current.lim.ttl <= at < e && Backed(t, n, o, e)
       case Writing(n, st) => st.Some? ==> SizeOk(st.value.obj)
       case _ => true
  }

  ghost predicate CallsOk(t: Traced) { forall c :: 0 <= c < |t.current.calls| ==> CallOk(t, t.current.calls[c]) }

  ghost predicate HotOk(t: Traced) {
    forall n :: NameOk(n) && CacheKey(n) in t.current.caches.hot ==>
      Backed(t, n, Serve(t.current.caches.hot[CacheKey(n)]), t.current.caches.hot[CacheKey(n)].expiresAt)
  }

  /** Time never runs backwards along a run. */
  ghost predicate ClockOk(t: Traced) {
    && (forall i, j :: 0 <= i <= j < |t.past| ==> t.past[i].now <= t.past[j].now)
    && (forall i :: 0 <= i < |t.past| ==> t.past[i].now <= t.current.now)
  }

  ghost predicate Inv(t: Traced) { SizesOk(t.current.store) && ClockOk(t) && CallsOk(t) && HotOk(t) }

  lemma BackedLater(t: Traced, u: Traced, n: Name, o: Object, expiresAt: int)
    requires Backed(t, n, o, expiresAt) && u.past == t.past + [t.current] && u.current.lim == t.current.lim
    ensures Backed(u, n, o, expiresAt)
  {
    var f, i :| HeldAt(t, f, n, o) && StampedAt(t, i, expiresAt) && f <= i;
    assert HeldAt(u, f, n, o) && StampedAt(u, i, expiresAt);
  }

  /** Facts about the past survive every step. */
  lemma CallOkLater(t: Traced, u: Traced, call: Call)
    requires CallOk(t, call) && u.past == t.past + [t.current] && u.current.lim == t.current.lim
    ensures CallOk(u, call)
  {
    match call
    case Checking(n, e) => BackedLater(t, u, n, Serve(e), e.expiresAt);
    case Fetched(n, o) =>
      var f :| HeldAt(t, f, n, o);
      assert HeldAt(u, f, n, o);
    case Stamped(n, o, expiresAt) => BackedLater(t, u, n, o, expiresAt);
    case AddingMeta(n, o) =>
      var f :| HeldAt(t, f, n, o);
      assert HeldAt(u, f, n, o);
    case Answered(n, r) =>
      if r.Ok? {
        var f :| HeldAt(t, f, n, r.value);
        assert HeldAt(u, f, n, r.value);
      } else if r == Err(NotFound) {
        var f :| MissingAt(t, f, n);
        assert MissingAt(u, f, n);
      }
    case Served(n, o, at) =>
      var e :| e - t.current.lim.ttl <= at < e && Backed(t, n, o, e);
      BackedLater(t, u, n, o, e);
    case _ =>
  }

  /** The call that moved is fine in its new phase. */
  lemma MovedCallOk(t: Traced, step: Step, c: nat)
    requires Inv(t) && Enabled(t.current, step) && c < |t.current.calls|
    requires Apply(t.current, step).calls[c] != t.current.calls[c]
    ensures CallOk(Next(t, step).value, Apply(t.current, step).calls[c])
  {
    match step
    case Look(d) => LookOk(t, c);
    case CheckClock(d) => CheckClockOk(t, c);
    case Fetch(d, fails) => AskedOk(t, step, c);
    case ReadBody(d, fails) => ReadBodyOk(t, c, fails);
    case AddHot(d) => CallOkLater(t, Next(t, step).value, t.current.calls[c]);
    case AddMeta(d) => CallOkLater(t, Next(t, step).value, t.current.calls[c]);
    case Refetch(d, fails) => AskedOk(t, step, c);
    case _ =>
  }

  /** What the backend holds now it held at the instant that is added to the past. */
  lemma NowOk(t: Traced, step: Step, n: Name)
    requires Enabled(t.current, step)
    ensures var u := Next(t, step).value;
            if n in t.current.store then HeldAt(u, |t.past|, n, t.current.store[n].obj) else MissingAt(u, |t.past|, n)
  {
  }

  lemma AskedOk(t: Traced, step: Step, c: nat)
    requires Inv(t) && Enabled(t.current, step) && (step.Fetch? || step.Refetch?) && step.c == c
    ensures CallOk(Next(t, step).value, Apply(t.current, step).calls[c])
  {
    assert CallOk(t, t.current.calls[c]);
    NowOk(t, step, t.current.calls[c].n);
  }

  lemma LookOk(t: Traced, c: nat)
    requires Inv(t) && Enabled(t.current, Look(c))
    ensures CallOk(Next(t, Look(c)).value, Apply(t.current, Look(c)).calls[c])
  {
    var n := t.current.calls[c].n;
    assert CallOk(t, t.current.calls[c]);
    if CacheKey(n) in t.current.caches.hot {
      var e := t.current.caches.hot[CacheKey(n)];
      BackedLater(t, Next(t, Look(c)).value, n, Serve(e), e.expiresAt);
    }
  }

  lemma CheckClockOk(t: Traced, c: nat)
    requires Inv(t) && Enabled(t.current, CheckClock(c))
    ensures CallOk(Next(t, CheckClock(c)).value, Apply(t.current, CheckClock(c)).calls[c])
  {
    assert CallOk(t, t.current.calls[c]);
    var Checking(n, e) := t.current.calls[c];
    BackedLater(t, Next(t, CheckClock(c)).value, n, Serve(e), e.expiresAt);
    assert e.expiresAt - t.current.lim.ttl <= t.current.now by {
      var f, i :| HeldAt(t, f, n, Serve(e)) && StampedAt(t, i, e.expiresAt) && f <= i;
    }
  }

  lemma ReadBodyOk(t: Traced, c: nat, fails: bool)
    requires Inv(t) && Enabled(t.current, ReadBody(c, fails))
    ensures CallOk(Next(t, ReadBody(c, fails)).value, Apply(t.current, ReadBody(c, fails)).calls[c])
  {
    var u := Next(t, ReadBody(c, fails)).value;
    assert CallOk(t, t.current.calls[c]);
    var Fetched(n, o) := t.current.calls[c];
    CallOkLater(t, u, Fetched(n, o));
    if u.current.calls[c].Stamped? {
      var f :| HeldAt(u, f, n, o);
      assert o.body[..o.size] == o.body;
      assert StampedAt(u, |t.past|, t.current.now + t.current.lim.ttl);
    }
  }

  lemma StepCalls(t: Traced, step: Step)
    requires Inv(t) && Enabled(t.current, step)
    ensures CallsOk(Next(t, step).value)
  {
    var u := Next(t, step).value;
    forall c | 0 <= c < |u.current.calls| ensures CallOk(u, u.current.calls[c]) {
      if c < |t.current.calls| {
        CallOkLater(t, u, t.current.calls[c]);
        if u.current.calls[c] != t.current.calls[c] { MovedCallOk(t, step, c); }
      }
    }
  }

  lemma StepHot(t: Traced, step: Step)
    requires Inv(t) && Enabled(t.current, step)
    ensures HotOk(Next(t, step).value)
  {
    var u := Next(t, step).value;
    forall n | NameOk(n) && CacheKey(n) in u.current.caches.hot
      ensures Backed(u, n, Serve(u.current.caches.hot[CacheKey(n)]), u.current.caches.hot[CacheKey(n)].expiresAt)
    {
      if step.AddHot? && CacheKey(n) == CacheKey(t.current.calls[step.c].n) {
        var call := t.current.calls[step.c];
        SlashFreeKeys(n, call.n);
        BackedLater(t, u, n, call.o, call.expiresAt);
      } else {
        assert CacheKey(n) in t.current.caches.hot;
        BackedLater(t, u, n, Serve(t.current.caches.hot[CacheKey(n)]), t.current.caches.hot[CacheKey(n)].expiresAt);
      }
    }
  }

  lemma StepKept(t: Traced, step: Step)
    requires Inv(t) && Enabled(t.current, step)
    ensures Inv(Next(t, step).value) && Next(t, step).value.current.lim == t.current.lim
  {
    StepCalls(t, step);
    StepHot(t, step);
    StoreSizes(t.current, step);
    assert t.current.now <= Apply(t.current, step).now;
  }

  lemma TracedInv(lim: Limits, store: Store, now: int, steps: seq<Step>, t: Traced)
    requires SizesOk(store) && Reaches(Next, Traced(Start(lim, store, now), []), steps, t)
    ensures Inv(t) && t.current.lim == lim
  {
    var inv := (u: Traced) => Inv(u) && u.current.lim == lim;
    forall u, step | inv(u) && Next(u, step).Some? ensures inv(Next(u, step).value) { StepKept(u, step); }
    RunKeeps(Next, inv, Traced(Start(lim, store, now), []), steps, t);
  }

  lemma StoreSizes(s: Shared, step: Step)
    requires SizesOk(s.store) && Enabled(s, step)
    requires forall c :: 0 <= c < |s.calls| && s.calls[c].Writing? && s.calls[c].st.Some? ==>
             SizeOk(s.calls[c].st.value.obj)
    ensures SizesOk(Apply(s, step).store) && Apply(s, step).lim == s.lim
  {
  }

  /**
   * Bounded staleness: in every interleaving, an object served from the hot cache at time `at` is one
   * version the backend really held - body and attributes together - at an instant f, and its expiry
   * was set at an instant i with time(f) <= time(i) <= at < time(i) + ttl.
   */
  lemma BoundedStaleness(lim: Limits, store: Store, now: int, steps: seq<Step>, t: Traced, c: nat)
    returns (f: nat, i: nat)
    requires SizesOk(store) && Reaches(Next, Traced(Start(lim, store, now), []), steps, t)
    requires c < |t.current.calls| && t.current.calls[c].Served?
    ensures f <= i < |t.past|
    ensures var Served(n, o, at) := t.current.calls[c];
            && n in t.past[f].store && t.past[f].store[n].obj == o
            && t.past[f].now <= t.past[i].now <= at < t.past[i].now + lim.ttl
  {
    TracedInv(lim, store, now, steps, t);
    var Served(n, o, at) := t.current.calls[c];
    assert CallOk(t, t.current.calls[c]);
    var e :| e - lim.ttl <= at < e && Backed(t, n, o, e);
    f, i :| HeldAt(t, f, n, o) && StampedAt(t, i, e) && f <= i;
  }

  /**
   * Answers from the backend are real too: in every interleaving the object a Get answers was the backend's at some
   * instant, and one that answers not-found did so of an instant when there was none.
   */
  lemma AnswersAreReal(lim: Limits, store: Store, now: int, steps: seq<Step>, t: Traced, c: nat) returns (f: nat)
    requires SizesOk(store) && Reaches(Next, Traced(Start(lim, store, now), []), steps, t)
    requires c < |t.current.calls| && t.current.calls[c].Answered? && t.current.calls[c].r != Err(Unavailable)
    ensures f < |t.past|
    ensures var Answered(n, r) := t.current.calls[c];
            if r.Ok? then n in t.past[f].store && t.past[f].store[n].obj == r.value else n !in t.past[f].store
  {
    TracedInv(lim, store, now, steps, t);
    var Answered(n, r) := t.current.calls[c];
    assert CallOk(t, t.current.calls[c]);
    if r.Ok? {
      f :| HeldAt(t, f, n, r.value);
    } else {
      assert r.error.NotFound?;
      f :| MissingAt(t, f, n);
    }
  }

  /** Only a Write that succeeds changes the backend: to what the Put was given, or by removing what is deleted. */
  lemma OnlyWritesWrite(s: Shared, step: Step)
    requires Enabled(s, step)
    ensures !(step.Write? && !step.fails) ==> Apply(s, step).store == s.store
    ensures step.Write? && !step.fails ==>
              var Writing(n, st) := s.calls[step.c];
              && (forall m :: m in Apply(s, step).store <==> if m == n then st.Some? else m in s.store)
              && (forall m :: m in Apply(s, step).store ==>
                    Apply(s, step).store[m] == if m == n then st.value else s.store[m])
    ensures step.Write? ==>
              Apply(s, step).calls[step.c] ==
                if step.fails then Finished(s.calls[step.c].n, false) else InvalidatingHot(s.calls[step.c].n)
  {
  }

  // ---------------------------------------------------------------- the bound is needed

  lemma StepPair(init: Shared, steps: seq<Step>, s: Shared, a: Step, b: Step) returns (t: Shared)
    requires Reaches(NextShared, init, steps, s)
    requires Enabled(s, a) && Enabled(Apply(s, a), b)
    ensures t == Apply(Apply(s, a), b) && Reaches(NextShared, init, steps + [a] + [b], t)
  {
    t := Apply(Apply(s, a), b);
    ReachesTwo(NextShared, init, steps, s, a, Apply(s, a), b, t);
  }

  /** A slow Get has read the object's body and computed its expiry, and stops there. */
  lemma SlowGet(lim: Limits, n: Name, before: Stored, now: int) returns (steps: seq<Step>, t: Shared)
    requires NameOk(n) && Cacheable(lim, before.obj) && before.obj.size == |before.obj.body|
    ensures Reaches(NextShared, Start(lim, map[n := before], now), steps, t)
    ensures t == Start(lim, map[n := before], now).(calls := [Stamped(n, before.obj, now + lim.ttl)])
  {
    var s0 := Start(lim, map[n := before], now);
    assert before.obj.body[..before.obj.size] == before.obj.body;
    t := StepPair(s0, [], s0, Begin(Looking(n)), Look(0));
    steps := [] + [Begin(Looking(n))] + [Look(0)];
    t := StepPair(s0, steps, t, Fetch(0, false), ReadBody(0, false));
    steps := steps + [Fetch(0, false)] + [ReadBody(0, false)];
  }

  /** A whole Put runs, from its start to its return. */
  lemma WholePut(init: Shared, before: seq<Step>, s: Shared, n: Name, st: Stored) returns (steps: seq<Step>, t: Shared)
    requires Reaches(NextShared, init, before, s) && NameOk(n) && SizeOk(st.obj) && |s.calls| == 1
    ensures Reaches(NextShared, init, steps, t)
    ensures t == s.(store := s.store[n := st], calls := s.calls + [Finished(n, true)],
                    caches := Caches(s.caches.hot - {CacheKey(n)}, s.caches.meta - {CacheKey(n)}))
  {
    t := StepPair(init, before, s, Begin(Writing(n, Some(st))), Write(1, false));
    steps := before + [Begin(Writing(n, Some(st)))] + [Write(1, false)];
    t := StepPair(init, steps, t, InvalidateHot(1), InvalidateMeta(1));
    steps := steps + [InvalidateHot(1)] + [InvalidateMeta(1)];
  }

  /** The slow Get wakes up and fills the caches with what it read. */
  lemma SlowGetOverlapsPut(lim: Limits, n: Name, before: Stored, after: Stored, now: int)
      returns (steps: seq<Step>, t: Shared)
    requires NameOk(n) && Cacheable(lim, before.obj) && before.obj.size == |before.obj.body| && SizeOk(after.obj)
    ensures Reaches(NextShared, Start(lim, map[n := before], now), steps, t)
    ensures t.calls == [Answered(n, Ok(before.obj)), Finished(n, true)] && t.store == map[n := after] && t.now == now
    ensures t.caches.hot == map[CacheKey(n) := Entry(before.obj.body, InfoOf(n, before.obj), now + lim.ttl)]
    ensures t.caches.meta == map[CacheKey(n) := InfoOf(n, before.obj)]
  {
    var s0 := Start(lim, map[n := before], now);
    steps, t := SlowGet(lim, n, before, now);
    steps, t := WholePut(s0, steps, t, n, after);
    assert t.calls == [Stamped(n, before.obj, now + lim.ttl), Finished(n, true)];
    steps, t := SlowGetInserts(s0, steps, t, n, before.obj, now + lim.ttl);
    assert t.store == map[n := after];
  }

  lemma SlowGetInserts(init: Shared, before: seq<Step>, s: Shared, n: Name, o: Object, expiresAt: int)
      returns (steps: seq<Step>, t: Shared)
    requires Reaches(NextShared, init, before, s) && s.calls == [Stamped(n, o, expiresAt), Finished(n, true)]
    ensures Reaches(NextShared, init, steps, t)
    ensures t == s.(calls := [Answered(n, Ok(o)), Finished(n, true)],
                    caches := Caches(s.caches.hot[CacheKey(n) := Entry(o.body, InfoOf(n, o), expiresAt)],
                        s.caches.meta[CacheKey(n) := InfoOf(n, o)]))
  {
    t := StepPair(init, before, s, AddHot(0), AddMeta(0));
    steps := before + [AddHot(0)] + [AddMeta(0)];
  }

  /**
   * Staleness is real: a Get that starts after a Put has returned can still be served the overwritten
   * object, because a slow Get inserted it after the Put's invalidation; the metadata cache, which has
   * no time to live, then holds the old attributes too.
   */
  lemma StaleAfterPutReturned(lim: Limits, n: Name, before: Stored, after: Stored, now: int)
    returns (steps: seq<Step>, mid: Shared, t: Shared)
    requires NameOk(n) && Cacheable(lim, before.obj) && before.obj.size == |before.obj.body| && SizeOk(after.obj)
    requires lim.ttl > 0
    ensures Reaches(NextShared, Start(lim, map[n := before], now), steps, mid)
    ensures mid.calls == [Answered(n, Ok(before.obj)), Finished(n, true)] && mid.store == map[n := after]
    ensures Reaches(NextShared, Start(lim, map[n := before], now),
            steps + [Begin(Looking(n))] + [Look(2)] + [CheckClock(2)], t)
    ensures t.calls == mid.calls + [Served(n, before.obj, now)] && t.store == map[n := after]
    ensures t.caches.meta == map[CacheKey(n) := InfoOf(n, before.obj)]
  {
    steps, mid := SlowGetOverlapsPut(lim, n, before, after, now);
    var s0 := Start(lim, map[n := before], now);
    t := StepPair(s0, steps, mid, Begin(Looking(n)), Look(2));
    var u := Apply(t, CheckClock(2));
    ReachesSnoc(NextShared, s0, steps + [Begin(Looking(n))] + [Look(2)], t, CheckClock(2), u);
    t := u;
  }
}
