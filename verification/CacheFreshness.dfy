// When a write can be relied on: from which moments on the interleaved caching layer answers a name only with objects
// that the backend has held since that moment, and what stands in the way right after a write has invalidated the
// hot cache.
module CacheFreshness {
  import opened Core
  import opened Runs
  import opened ObjectCache
  import I = CacheInterleaving

  /** The backend holds `o` under `n`. */
  predicate Holds(s: I.Shared, n: Name, o: Object) { n in s.store && s.store[n].obj == o }

  /** The backend has held `o` under `n` at some moment of the run, its beginning included. */
  ghost predicate Since(t: I.Traced, n: Name, o: Object) {
    Holds(t.current, n, o) || exists f :: I.HeldAt(t, f, n, o)
  }

  /** A finished Get of `n` that answered `o`, from the hot cache or from the backend. */
  predicate Gives(call: I.Call, n: Name, o: Object) {
    call == I.Answered(n, Ok(o)) || (call.Served? && call.n == n && call.o == o)
  }

  /**
   * However the calls in flight at `s` and later ones interleave, a Get of `n` begun after `s` answers no older object.
   */
  ghost predicate FreshFrom(s: I.Shared, n: Name) {
    forall steps, t, d, o ::
      Reaches(I.Next, I.Traced(s, []), steps, t) && |s.calls| <= d < |t.current.calls|
          && Gives(t.current.calls[d], n, o)
      ==> Since(t, n, o)
  }

  /** The hot cache would serve an outdated object. */
  predicate StaleEntry(s: I.Shared, n: Name) {
    Fresh(s.caches, CacheKey(n), s.now) && !Holds(s, n, Serve(s.caches.hot[CacheKey(n)]))
  }

  /** A Get in flight that may still put an outdated object there. */
  predicate Lingers(s: I.Shared, n: Name, call: I.Call) {
    match call
    case Fetched(m, o) => m == n && !Holds(s, n, o) && |o.body| >= o.size && s.lim.ttl > 0
    case Stamped(m, o, expiresAt) => m == n && !Holds(s, n, o) && s.now < expiresAt
    case _ => false
  }

  ghost predicate NothingLingers(s: I.Shared, n: Name) {
    forall d :: 0 <= d < |s.calls| ==> !Lingers(s, n, s.calls[d])
  }

  // ---------------------------------------------------------------- what every reachable state has

  ghost predicate SoundCall(call: I.Call) {
    && I.NameOk(call.n)
    && (call.Fetched? ==> SizeOk(call.o) && 0 < call.o.size)
    && (call.Writing? && call.st.Some? ==> SizeOk(call.st.value.obj))
  }

  ghost predicate Sound(s: I.Shared) {
    SizesOk(s.store) && forall d :: 0 <= d < |s.calls| ==> SoundCall(s.calls[d])
  }

  lemma SoundKept(s: I.Shared, step: I.Step)
    requires Sound(s) && I.Enabled(s, step)
    ensures Sound(I.Apply(s, step)) && I.Apply(s, step).lim == s.lim
  {
    I.StoreSizes(s, step);
    var t := I.Apply(s, step);
    forall d | 0 <= d < |t.calls| ensures SoundCall(t.calls[d]) {
      if d < |s.calls| { assert SoundCall(s.calls[d]); }
    }
  }

  // ---------------------------------------------------------------- nothing stale, nothing lingering: fresh

  /** The hot entry of `n` is dead or not outdated. */
  ghost predicate HotFresh(t: I.Traced, n: Name) {
    CacheKey(n) in t.current.caches.hot ==>
      var e := t.current.caches.hot[CacheKey(n)]; e.expiresAt <= t.current.now || Since(t, n, Serve(e))
  }

  /** A Get that was in flight at the beginning will not make it outdated. */
  ghost predicate OldFresh(t: I.Traced, n: Name, call: I.Call) {
    match call
    case Fetched(m, o) => m == n ==> Since(t, n, o) || |o.body| < o.size || t.current.lim.ttl <= 0
    case Stamped(m, o, expiresAt) => m == n ==> Since(t, n, o) || expiresAt <= t.current.now
    case _ => true
  }

  /** A Get begun later carries no outdated object. */
  ghost predicate NewFresh(t: I.Traced, n: Name, call: I.Call) {
    match call
    case Checking(m, e) => m == n ==> e.expiresAt <= t.current.now || Since(t, n, Serve(e))
    case Fetched(m, o) => m == n ==> Since(t, n, o)
    case Stamped(m, o, _) => m == n ==> Since(t, n, o)
    case AddingMeta(m, o) => m == n ==> Since(t, n, o)
    case Answered(m, r) => m == n && r.Ok? ==> Since(t, n, r.value)
    case Served(m, o, _) => m == n ==> Since(t, n, o)
    case _ => true
  }

  ghost predicate CallFresh(t: I.Traced, n: Name, base: nat, d: nat)
    requires d < |t.current.calls|
  {
    if d < base then OldFresh(t, n, t.current.calls[d]) else NewFresh(t, n, t.current.calls[d])
  }

  ghost predicate AllFresh(t: I.Traced, n: Name, base: nat) {
    && Sound(t.current) && I.NameOk(n) && base <= |t.current.calls|
    && HotFresh(t, n)
    && forall d :: 0 <= d < |t.current.calls| ==> CallFresh(t, n, base, d)
  }

  lemma SinceLater(t: I.Traced, u: I.Traced, n: Name, o: Object)
    requires Since(t, n, o) && u.past == t.past + [t.current]
    ensures Since(u, n, o)
  {
    if Holds(t.current, n, o) {
      assert I.HeldAt(u, |t.past|, n, o);
    } else {
      var f :| I.HeldAt(t, f, n, o);
      assert I.HeldAt(u, f, n, o);
    }
  }

  /** What was fresh stays fresh. */
  lemma OldFreshLater(t: I.Traced, u: I.Traced, n: Name, call: I.Call)
    requires OldFresh(t, n, call) && u.past == t.past + [t.current]
    requires u.current.lim == t.current.lim && t.current.now <= u.current.now
    ensures OldFresh(u, n, call)
  {
    match call
    case Fetched(m, o) => if Since(t, n, o) { SinceLater(t, u, n, o); }
    case Stamped(m, o, expiresAt) => if Since(t, n, o) { SinceLater(t, u, n, o); }
    case _ =>
  }

  lemma NewFreshLater(t: I.Traced, u: I.Traced, n: Name, call: I.Call)
    requires NewFresh(t, n, call) && u.past == t.past + [t.current] && t.current.now <= u.current.now
    ensures NewFresh(u, n, call)
  {
    match call
    case Checking(m, e) => if Since(t, n, Serve(e)) { SinceLater(t, u, n, Serve(e)); }
    case Fetched(m, o) => if m == n { SinceLater(t, u, n, o); }
    case Stamped(m, o, _) => if m == n { SinceLater(t, u, n, o); }
    case AddingMeta(m, o) => if m == n { SinceLater(t, u, n, o); }
    case Answered(m, r) => if m == n && r.Ok? { SinceLater(t, u, n, r.value); }
    case Served(m, o, _) => if m == n { SinceLater(t, u, n, o); }
    case _ =>
  }

  lemma StepAdvances(t: I.Traced, step: I.Step)
    requires I.Enabled(t.current, step)
    ensures var u := I.Next(t, step).value;
            && u.past == t.past + [t.current] && u.current == I.Apply(t.current, step)
            && u.current.lim == t.current.lim && t.current.now <= u.current.now
  {
  }

  /** A whole body read into memory is the object itself. */
  lemma InMemoryIsWhole(o: Object)
    requires SizeOk(o) && 0 < o.size <= |o.body|
    ensures I.InMemory(o) == o
  {
    assert o.body[..o.size] == o.body;
  }

  lemma OldMoves(t: I.Traced, n: Name, base: nat, step: I.Step, d: nat)
    requires AllFresh(t, n, base) && I.Enabled(t.current, step) && d < base
    requires I.Apply(t.current, step).calls[d] != t.current.calls[d]
    ensures OldFresh(I.Next(t, step).value, n, I.Apply(t.current, step).calls[d])
  {
    var u := I.Next(t, step).value;
    match step
    case Fetch(c, fails) =>
      if n in t.current.store { assert Holds(u.current, n, t.current.store[n].obj); }
    case ReadBody(c, fails) =>
      var m, o := t.current.calls[c].n, t.current.calls[c].o;
      assert SoundCall(t.current.calls[c]) && CallFresh(t, n, base, c);
      if u.current.calls[c].Stamped? {
        InMemoryIsWhole(o);
        if m == n && Since(t, n, o) { SinceLater(t, u, n, o); }
      }
    case _ =>
  }

  lemma NewMoves(t: I.Traced, n: Name, base: nat, step: I.Step, d: nat)
    requires AllFresh(t, n, base) && I.Enabled(t.current, step) && base <= d < |t.current.calls|
    requires I.Apply(t.current, step).calls[d] != t.current.calls[d]
    ensures NewFresh(I.Next(t, step).value, n, I.Apply(t.current, step).calls[d])
  {
    var u := I.Next(t, step).value;
    assert CallFresh(t, n, base, d) && SoundCall(t.current.calls[d]);
    match step
    case Look(c) => LookMoves(t, n, base, c);
    case CheckClock(c) =>
      var m, e := t.current.calls[c].n, t.current.calls[c].e;
      if m == n && u.current.calls[c].Served? { SinceLater(t, u, n, Serve(e)); }
    case ReadBody(c, fails) =>
      var m, o := t.current.calls[c].n, t.current.calls[c].o;
      if u.current.calls[c].Stamped? {
        InMemoryIsWhole(o);
        if m == n { SinceLater(t, u, n, o); }
      }
    case AddHot(c) => if t.current.calls[c].n == n { SinceLater(t, u, n, t.current.calls[c].o); }
    case AddMeta(c) => if t.current.calls[c].n == n { SinceLater(t, u, n, t.current.calls[c].o); }
    case _ =>
  }

  lemma LookMoves(t: I.Traced, n: Name, base: nat, c: nat)
    requires AllFresh(t, n, base) && I.Enabled(t.current, I.Look(c))
    ensures NewFresh(I.Next(t, I.Look(c)).value, n, I.Apply(t.current, I.Look(c)).calls[c])
  {
    var u := I.Next(t, I.Look(c)).value;
    var m := t.current.calls[c].n;
    if m == n && CacheKey(n) in t.current.caches.hot {
      var e := t.current.caches.hot[CacheKey(n)];
      if e.expiresAt > t.current.now { SinceLater(t, u, n, Serve(e)); }
    }
  }

  lemma HotKept(t: I.Traced, n: Name, base: nat, step: I.Step)
    requires AllFresh(t, n, base) && I.Enabled(t.current, step)
    ensures HotFresh(I.Next(t, step).value, n)
  {
    var u := I.Next(t, step).value;
    StepAdvances(t, step);
    if step.AddHot? && CacheKey(t.current.calls[step.c].n) == CacheKey(n) {
      var m, o := t.current.calls[step.c].n, t.current.calls[step.c].o;
      assert SoundCall(t.current.calls[step.c]) && CallFresh(t, n, base, step.c);
      SlashFreeKeys(m, n);
      assert Serve(u.current.caches.hot[CacheKey(n)]) == o;
      if Since(t, n, o) { SinceLater(t, u, n, o); }
    } else if CacheKey(n) in u.current.caches.hot {
      var e := t.current.caches.hot[CacheKey(n)];
      assert u.current.caches.hot[CacheKey(n)] == e;
      if Since(t, n, Serve(e)) { SinceLater(t, u, n, Serve(e)); }
    }
  }

  lemma FreshKept(t: I.Traced, n: Name, base: nat, step: I.Step)
    requires AllFresh(t, n, base) && I.Enabled(t.current, step)
    ensures AllFresh(I.Next(t, step).value, n, base)
  {
    var u := I.Next(t, step).value;
    StepAdvances(t, step);
    SoundKept(t.current, step);
    HotKept(t, n, base, step);
    forall d | 0 <= d < |u.current.calls| ensures CallFresh(u, n, base, d) {
      if d < |t.current.calls| {
        assert CallFresh(t, n, base, d);
        if u.current.calls[d] == t.current.calls[d] {
          if d < base {
            OldFreshLater(t, u, n, t.current.calls[d]);
          } else {
            NewFreshLater(t, u, n, t.current.calls[d]);
          }
        } else {
          if d < base { OldMoves(t, n, base, step, d); } else { NewMoves(t, n, base, step, d); }
        }
      }
    }
  }

  lemma NothingStaleIsFresh(s: I.Shared, n: Name)
    requires Sound(s) && I.NameOk(n) && !StaleEntry(s, n) && NothingLingers(s, n)
    ensures FreshFrom(s, n)
  {
    forall steps, t, d, o |
      Reaches(I.Next, I.Traced(s, []), steps, t) && |s.calls| <= d < |t.current.calls|
          && Gives(t.current.calls[d], n, o)
      ensures Since(t, n, o)
    {
      var inv := (u: I.Traced) => AllFresh(u, n, |s.calls|);
      forall u, step | inv(u) && I.Next(u, step).Some? ensures inv(I.Next(u, step).value) {
        FreshKept(u, n, |s.calls|, step);
      }
      StartsFresh(s, n);
      RunKeeps(I.Next, inv, I.Traced(s, []), steps, t);
      assert CallFresh(t, n, |s.calls|, d);
    }
  }

  lemma StartsFresh(s: I.Shared, n: Name)
    requires Sound(s) && I.NameOk(n) && !StaleEntry(s, n) && NothingLingers(s, n)
    ensures AllFresh(I.Traced(s, []), n, |s.calls|)
  {
    forall d | 0 <= d < |s.calls| ensures CallFresh(I.Traced(s, []), n, |s.calls|, d) {
      assert !Lingers(s, n, s.calls[d]);
    }
  }

  // ---------------------------------------------------------------- something stale or lingering: not fresh

  /** A run from `s` during which no write reached the backend. */
  ghost predicate Idle(s: I.Shared, t: I.Traced) {
    t.current.store == s.store && forall f :: 0 <= f < |t.past| ==> t.past[f].store == s.store
  }

  lemma NotSince(s: I.Shared, t: I.Traced, n: Name, o: Object)
    requires Idle(s, t) && !Holds(s, n, o)
    ensures !Since(t, n, o)
  {
  }

  lemma IdleStep(s: I.Shared, steps: seq<I.Step>, t: I.Traced, a: I.Step) returns (u: I.Traced)
    requires Reaches(I.Next, I.Traced(s, []), steps, t) && Idle(s, t)
    requires I.Enabled(t.current, a) && I.Apply(t.current, a).store == t.current.store
    ensures Reaches(I.Next, I.Traced(s, []), steps + [a], u) && Idle(s, u) && u.current == I.Apply(t.current, a)
  {
    u := I.Traced(I.Apply(t.current, a), t.past + [t.current]);
    ReachesSnoc(I.Next, I.Traced(s, []), steps, t, a, u);
  }

  /** A stale entry is served to the next Get. */
  lemma StaleIsServed(s: I.Shared, steps: seq<I.Step>, t: I.Traced, n: Name)
    requires Reaches(I.Next, I.Traced(s, []), steps, t) && Idle(s, t) && |t.current.calls| == |s.calls|
    requires I.NameOk(n) && StaleEntry(t.current, n)
    ensures !FreshFrom(s, n)
  {
    var d, e := |s.calls|, t.current.caches.hot[CacheKey(n)];
    var u := IdleStep(s, steps, t, I.Begin(I.Looking(n)));
    var run := steps + [I.Begin(I.Looking(n))];
    u := IdleStep(s, run, u, I.Look(d));
    run := run + [I.Look(d)];
    assert u.current.calls[d] == I.Checking(n, e);
    u := IdleStep(s, run, u, I.CheckClock(d));
    assert Gives(u.current.calls[d], n, Serve(e));
    NotSince(s, u, n, Serve(e));
  }

  /** A Get that has stamped an outdated object inserts it, and the next Get is served it. */
  lemma StampedLingers(s: I.Shared, steps: seq<I.Step>, t: I.Traced, n: Name, d: nat)
    requires Reaches(I.Next, I.Traced(s, []), steps, t) && Idle(s, t) && |t.current.calls| == |s.calls|
    requires I.NameOk(n) && d < |s.calls| && t.current.calls[d].Stamped? && Lingers(t.current, n, t.current.calls[d])
    ensures !FreshFrom(s, n)
  {
    var u := IdleStep(s, steps, t, I.AddHot(d));
    StaleIsServed(s, steps + [I.AddHot(d)], u, n);
  }

  /** A Get that has fetched one reads and stamps it first. */
  lemma FetchedLingers(s: I.Shared, n: Name, d: nat)
    requires Sound(s) && I.NameOk(n) && d < |s.calls| && s.calls[d].Fetched? && Lingers(s, n, s.calls[d])
    ensures !FreshFrom(s, n)
  {
    assert SoundCall(s.calls[d]);
    InMemoryIsWhole(s.calls[d].o);
    var u := IdleStep(s, [], I.Traced(s, []), I.ReadBody(d, false));
    assert u.current.calls[d] == I.Stamped(n, s.calls[d].o, s.now + s.lim.ttl);
    StampedLingers(s, [] + [I.ReadBody(d, false)], u, n, d);
  }

  // ---------------------------------------------------------------- the exact condition

  lemma FreshExactly(s: I.Shared, n: Name)
    requires Sound(s) && I.NameOk(n)
    ensures FreshFrom(s, n) <==> !StaleEntry(s, n) && NothingLingers(s, n)
  {
    if StaleEntry(s, n) {
      StaleIsServed(s, [], I.Traced(s, []), n);
    } else if !NothingLingers(s, n) {
      var d :| 0 <= d < |s.calls| && Lingers(s, n, s.calls[d]);
      if s.calls[d].Fetched? { FetchedLingers(s, n, d); } else { StampedLingers(s, [], I.Traced(s, []), n, d); }
    } else {
      NothingStaleIsFresh(s, n);
    }
  }

  lemma ReachableSound(lim: Limits, store: Store, now: int, steps: seq<I.Step>, t: I.Traced)
    requires SizesOk(store) && Reaches(I.Next, I.Traced(I.Start(lim, store, now), []), steps, t)
    ensures Sound(t.current)
  {
    I.TracedInv(lim, store, now, steps, t);
    forall d | 0 <= d < |t.current.calls| ensures SoundCall(t.current.calls[d]) {
      assert I.CallOk(t, t.current.calls[d]);
    }
  }

  /** Invalidating the hot cache neither adds nor removes a Get that lingers. */
  lemma SameLingers(s: I.Shared, c: nat, n: Name)
    requires I.Enabled(s, I.InvalidateHot(c))
    ensures NothingLingers(I.Apply(s, I.InvalidateHot(c)), n) <==> NothingLingers(s, n)
  {
    var t := I.Apply(s, I.InvalidateHot(c));
    forall d | 0 <= d < |s.calls| ensures Lingers(t, n, t.calls[d]) <==> Lingers(s, n, s.calls[d]) {
      if d != c { assert t.calls[d] == s.calls[d]; }
    }
  }

  /**
   * Reading after writing, exactly: when a Put or Delete of `n` has just removed the hot entry, every Get of `n` begun
   * from then on, in every interleaving, answers only objects the backend holds then or later if and only if no Get in
   * flight has fetched another object of `n` that it can still read and cache, or stamped one that is still fresh.
   */
  lemma ReadAfterWriteExactly(lim: Limits, store: Store, now: int, steps: seq<I.Step>, t: I.Traced, c: nat)
    requires SizesOk(store) && Reaches(I.Next, I.Traced(I.Start(lim, store, now), []), steps, t)
    requires I.Enabled(t.current, I.InvalidateHot(c))
    ensures var n := t.current.calls[c].n;
            FreshFrom(I.Apply(t.current, I.InvalidateHot(c)), n) <==> NothingLingers(t.current, n)
  {
    var n, s := t.current.calls[c].n, I.Apply(t.current, I.InvalidateHot(c));
    ReachableSound(lim, store, now, steps, t);
    SoundKept(t.current, I.InvalidateHot(c));
    assert SoundCall(t.current.calls[c]);
    FreshExactly(s, n);
    SameLingers(t.current, c, n);
  }
}
