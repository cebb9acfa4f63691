// The metadata cache of the same interleaved layer.  It has no time to live, so what matters is whether attributes that
// the backend no longer has can get into it: from which moments on it holds only attributes the backend has had since,
// and what stands in the way right after a write has invalidated it.
module MetadataFreshness {
  import opened Core
  import opened Runs
  import opened ObjectCache
  import I = CacheInterleaving

  /** The backend has these attributes - size, ETag, time and user metadata - under `n`. */
  predicate Has(s: I.Shared, n: Name, info: Info) { n in s.store && SameHead(info, HeadOf(n, s.store[n])) }

  ghost predicate HadAt(t: I.Traced, f: nat, n: Name, info: Info) { f < |t.past| && Has(t.past[f], n, info) }

  /** The backend has had them at some moment of the run, its beginning included. */
  ghost predicate Since(t: I.Traced, n: Name, info: Info) {
    Has(t.current, n, info) || exists f :: HadAt(t, f, n, info)
  }

  /** The metadata cache holds nothing of `n` but attributes the backend has had during the run. */
  ghost predicate CacheOk(t: I.Traced, n: Name) {
    CacheKey(n) in t.current.caches.meta ==> Since(t, n, t.current.caches.meta[CacheKey(n)])
  }

  /** So do the answers of the Heads begun during the run. */
  ghost predicate AnswersOk(t: I.Traced, n: Name, base: nat) {
    forall d, info :: base <= d < |t.current.calls| && t.current.calls[d] == I.HeadAnswered(n, Ok(info)) ==>
        Since(t, n, info)
  }

  /** However the calls in flight at `s` and later ones interleave, no older attributes are cached or answered. */
  ghost predicate FreshFrom(s: I.Shared, n: Name) {
    forall steps, t :: Reaches(I.Next, I.Traced(s, []), steps, t) ==> CacheOk(t, n) && AnswersOk(t, n, |s.calls|)
  }

  /** A call in flight that may still cache other attributes than the backend's. */
  predicate Lingers(s: I.Shared, n: Name, call: I.Call) {
    match call
    case Fetched(m, o) => m == n && |o.body| >= o.size && !Has(s, n, InfoOf(n, o))
    case Stamped(m, o, _) => m == n && !Has(s, n, InfoOf(n, o))
    case AddingMeta(m, o) => m == n && !Has(s, n, InfoOf(n, o))
    case HeadFetched(m, info) => m == n && !Has(s, n, info)
    case _ => false
  }

  ghost predicate NothingLingers(s: I.Shared, n: Name) {
    forall d :: 0 <= d < |s.calls| ==> !Lingers(s, n, s.calls[d])
  }

  predicate StaleEntry(s: I.Shared, n: Name) {
    CacheKey(n) in s.caches.meta && !Has(s, n, s.caches.meta[CacheKey(n)])
  }

  /** Names are ordinary, and objects are read into memory only if their size is positive. */
  ghost predicate SoundCall(call: I.Call) { I.NameOk(call.n) && (call.Fetched? ==> 0 < call.o.size) }

  ghost predicate Sound(s: I.Shared) { forall d :: 0 <= d < |s.calls| ==> SoundCall(s.calls[d]) }

  lemma SoundKept(s: I.Shared, step: I.Step)
    requires Sound(s) && I.Enabled(s, step)
    ensures Sound(I.Apply(s, step))
  {
    var t := I.Apply(s, step);
    forall d | 0 <= d < |t.calls| ensures SoundCall(t.calls[d]) {
      if d < |s.calls| { assert SoundCall(s.calls[d]); }
    }
  }

  // ---------------------------------------------------------------- nothing stale, nothing lingering: fresh

  /** A call in flight carries no attributes the backend has not had during the run. */
  ghost predicate CarriesOk(t: I.Traced, n: Name, call: I.Call) {
    match call
    case Fetched(m, o) => m == n ==> |o.body| < o.size || Since(t, n, InfoOf(n, o))
    case Stamped(m, o, _) => m == n ==> Since(t, n, InfoOf(n, o))
    case AddingMeta(m, o) => m == n ==> Since(t, n, InfoOf(n, o))
    case HeadFetched(m, info) => m == n ==> Since(t, n, info)
    case _ => true
  }

  ghost predicate AnswerOk(t: I.Traced, n: Name, call: I.Call) {
    call.HeadAnswered? && call.n == n && call.i.Ok? ==> Since(t, n, call.i.value)
  }

  ghost predicate CallOk(t: I.Traced, n: Name, base: nat, d: nat)
    requires d < |t.current.calls|
  {
    CarriesOk(t, n, t.current.calls[d]) && (base <= d ==> AnswerOk(t, n, t.current.calls[d]))
  }

  ghost predicate AllOk(t: I.Traced, n: Name, base: nat) {
    && Sound(t.current) && I.NameOk(n) && base <= |t.current.calls| && CacheOk(t, n)
    && forall d :: 0 <= d < |t.current.calls| ==> CallOk(t, n, base, d)
  }

  lemma SinceLater(t: I.Traced, u: I.Traced, n: Name, info: Info)
    requires Since(t, n, info) && u.past == t.past + [t.current]
    ensures Since(u, n, info)
  {
    if Has(t.current, n, info) {
      assert HadAt(u, |t.past|, n, info);
    } else {
      var f :| HadAt(t, f, n, info);
      assert HadAt(u, f, n, info);
    }
  }

  lemma CarriesLater(t: I.Traced, u: I.Traced, n: Name, call: I.Call)
    requires CarriesOk(t, n, call) && u.past == t.past + [t.current]
    ensures CarriesOk(u, n, call)
  {
    match call
    case Fetched(m, o) => if m == n && |o.body| >= o.size { SinceLater(t, u, n, InfoOf(n, o)); }
    case Stamped(m, o, _) => if m == n { SinceLater(t, u, n, InfoOf(n, o)); }
    case AddingMeta(m, o) => if m == n { SinceLater(t, u, n, InfoOf(n, o)); }
    case HeadFetched(m, info) => if m == n { SinceLater(t, u, n, info); }
    case _ =>
  }

  lemma AnswerLater(t: I.Traced, u: I.Traced, n: Name, call: I.Call)
    requires AnswerOk(t, n, call) && u.past == t.past + [t.current]
    ensures AnswerOk(u, n, call)
  {
    if call.HeadAnswered? && call.n == n && call.i.Ok? { SinceLater(t, u, n, call.i.value); }
  }

  /** The call that moved carries what it carried before, or what the backend has now. */
  lemma MovedCarries(t: I.Traced, n: Name, base: nat, step: I.Step, d: nat)
    requires AllOk(t, n, base) && I.Enabled(t.current, step) && d < |t.current.calls|
    requires I.Apply(t.current, step).calls[d] != t.current.calls[d]
    ensures CarriesOk(I.Next(t, step).value, n, I.Apply(t.current, step).calls[d])
  {
    var u := I.Next(t, step).value;
    assert CallOk(t, n, base, d);
    var call := t.current.calls[d];
    match step
    case Fetch(c, fails) =>
      if call.n in t.current.store { FetchedAttributes(t, u, call.n, t.current.store[call.n]); }
    case HeadFetch(c, fails) =>
      if call.n in t.current.store { FetchedAttributes(t, u, call.n, t.current.store[call.n]); }
    case ReadBody(c, fails) =>
      if call.n == n && u.current.calls[d].Stamped? {
        assert InfoOf(n, I.InMemory(call.o)) == InfoOf(n, call.o);
        SinceLater(t, u, n, InfoOf(n, call.o));
      }
    case AddHot(c) => if call.n == n { SinceLater(t, u, n, InfoOf(n, call.o)); }
    case _ =>
  }

  /** What the backend has just given is what it has. */
  lemma FetchedAttributes(t: I.Traced, u: I.Traced, n: Name, st: Stored)
    requires n in t.current.store && t.current.store[n] == st && u.past == t.past + [t.current]
    ensures Since(u, n, HeadOf(n, st)) && Since(u, n, InfoOf(n, st.obj))
  {
    assert HadAt(u, |t.past|, n, HeadOf(n, st)) && HadAt(u, |t.past|, n, InfoOf(n, st.obj));
  }

  lemma MovedAnswers(t: I.Traced, n: Name, base: nat, step: I.Step, d: nat)
    requires AllOk(t, n, base) && I.Enabled(t.current, step) && d < |t.current.calls|
    requires I.Apply(t.current, step).calls[d] != t.current.calls[d]
    ensures AnswerOk(I.Next(t, step).value, n, I.Apply(t.current, step).calls[d])
  {
    var u, call := I.Next(t, step).value, t.current.calls[d];
    assert CallOk(t, n, base, d);
    if step.HeadLook? && call.n == n && CacheKey(n) in t.current.caches.meta {
      SinceLater(t, u, n, t.current.caches.meta[CacheKey(n)]);
    }
    if step.HeadInsert? && call.n == n { SinceLater(t, u, n, call.info); }
  }

  lemma CacheKept(t: I.Traced, n: Name, base: nat, step: I.Step)
    requires AllOk(t, n, base) && I.Enabled(t.current, step)
    ensures CacheOk(I.Next(t, step).value, n)
  {
    var u := I.Next(t, step).value;
    if (step.AddMeta? || step.HeadInsert?) && CacheKey(t.current.calls[step.c].n) == CacheKey(n) {
      var call := t.current.calls[step.c];
      assert CallOk(t, n, base, step.c);
      SlashFreeKeys(call.n, n);
      SinceLater(t, u, n, if call.AddingMeta? then InfoOf(n, call.o) else call.info);
    } else if CacheKey(n) in u.current.caches.meta {
      assert u.current.caches.meta[CacheKey(n)] == t.current.caches.meta[CacheKey(n)];
      SinceLater(t, u, n, t.current.caches.meta[CacheKey(n)]);
    }
  }

  lemma AllKept(t: I.Traced, n: Name, base: nat, step: I.Step)
    requires AllOk(t, n, base) && I.Enabled(t.current, step)
    ensures AllOk(I.Next(t, step).value, n, base)
  {
    var u := I.Next(t, step).value;
    SoundKept(t.current, step);
    CacheKept(t, n, base, step);
    forall d | 0 <= d < |u.current.calls| ensures CallOk(u, n, base, d) {
      if d < |t.current.calls| {
        assert CallOk(t, n, base, d);
        if u.current.calls[d] == t.current.calls[d] {
          CarriesLater(t, u, n, t.current.calls[d]);
          if base <= d { AnswerLater(t, u, n, t.current.calls[d]); }
        } else {
          MovedCarries(t, n, base, step, d);
          MovedAnswers(t, n, base, step, d);
        }
      }
    }
  }

  lemma StartsOk(s: I.Shared, n: Name)
    requires Sound(s) && I.NameOk(n) && !StaleEntry(s, n) && NothingLingers(s, n)
    ensures AllOk(I.Traced(s, []), n, |s.calls|)
  {
    forall d | 0 <= d < |s.calls| ensures CallOk(I.Traced(s, []), n, |s.calls|, d) {
      assert !Lingers(s, n, s.calls[d]);
    }
  }

  lemma NothingStaleIsFresh(s: I.Shared, n: Name)
    requires Sound(s) && I.NameOk(n) && !StaleEntry(s, n) && NothingLingers(s, n)
    ensures FreshFrom(s, n)
  {
    forall steps, t | Reaches(I.Next, I.Traced(s, []), steps, t) ensures CacheOk(t, n) && AnswersOk(t, n, |s.calls|) {
      var inv := (u: I.Traced) => AllOk(u, n, |s.calls|);
      forall u, step | inv(u) && I.Next(u, step).Some? ensures inv(I.Next(u, step).value) {
        AllKept(u, n, |s.calls|, step);
      }
      StartsOk(s, n);
      RunKeeps(I.Next, inv, I.Traced(s, []), steps, t);
      forall d, info | |s.calls| <= d < |t.current.calls| && t.current.calls[d] == I.HeadAnswered(n, Ok(info))
        ensures Since(t, n, info)
      {
        assert CallOk(t, n, |s.calls|, d);
      }
    }
  }

  // ---------------------------------------------------------------- something stale or lingering: not fresh

  /** A run from `s` during which no write reached the backend. */
  ghost predicate Idle(s: I.Shared, t: I.Traced) {
    t.current.store == s.store && forall f :: 0 <= f < |t.past| ==> t.past[f].store == s.store
  }

  lemma IdleStep(s: I.Shared, steps: seq<I.Step>, t: I.Traced, a: I.Step) returns (u: I.Traced)
    requires Reaches(I.Next, I.Traced(s, []), steps, t) && Idle(s, t)
    requires I.Enabled(t.current, a) && I.Apply(t.current, a).store == t.current.store
    ensures Reaches(I.Next, I.Traced(s, []), steps + [a], u) && Idle(s, u) && u.current == I.Apply(t.current, a)
  {
    u := I.Traced(I.Apply(t.current, a), t.past + [t.current]);
    ReachesSnoc(I.Next, I.Traced(s, []), steps, t, a, u);
  }

  lemma StaleShows(s: I.Shared, steps: seq<I.Step>, t: I.Traced, n: Name)
    requires Reaches(I.Next, I.Traced(s, []), steps, t) && Idle(s, t) && StaleEntry(t.current, n)
    ensures !FreshFrom(s, n)
  {
    assert !Since(t, n, t.current.caches.meta[CacheKey(n)]);
    assert !CacheOk(t, n);
  }

  /** The last step of a call that lingers. */
  lemma Inserts(s: I.Shared, steps: seq<I.Step>, t: I.Traced, n: Name, d: nat)
    requires Reaches(I.Next, I.Traced(s, []), steps, t) && Idle(s, t) && d < |t.current.calls|
    requires Lingers(t.current, n, t.current.calls[d])
             && (t.current.calls[d].AddingMeta? || t.current.calls[d].HeadFetched?)
    ensures !FreshFrom(s, n)
  {
    var a := if t.current.calls[d].AddingMeta? then I.AddMeta(d) else I.HeadInsert(d);
    var u := IdleStep(s, steps, t, a);
    StaleShows(s, steps + [a], u, n);
  }

  lemma StampedInserts(s: I.Shared, steps: seq<I.Step>, t: I.Traced, n: Name, d: nat)
    requires Reaches(I.Next, I.Traced(s, []), steps, t) && Idle(s, t) && d < |t.current.calls|
    requires Lingers(t.current, n, t.current.calls[d]) && t.current.calls[d].Stamped?
    ensures !FreshFrom(s, n)
  {
    var u := IdleStep(s, steps, t, I.AddHot(d));
    assert u.current.calls[d] == I.AddingMeta(n, t.current.calls[d].o);
    Inserts(s, steps + [I.AddHot(d)], u, n, d);
  }

  lemma FetchedInserts(s: I.Shared, n: Name, d: nat)
    requires Sound(s) && d < |s.calls| && Lingers(s, n, s.calls[d]) && s.calls[d].Fetched?
    ensures !FreshFrom(s, n)
  {
    var u := IdleStep(s, [], I.Traced(s, []), I.ReadBody(d, false));
    assert u.current.calls[d] == I.Stamped(n, I.InMemory(s.calls[d].o), s.now + s.lim.ttl);
    StampedInserts(s, [] + [I.ReadBody(d, false)], u, n, d);
  }

  // ---------------------------------------------------------------- the exact condition

  lemma FreshExactly(s: I.Shared, n: Name)
    requires Sound(s) && I.NameOk(n)
    ensures FreshFrom(s, n) <==> !StaleEntry(s, n) && NothingLingers(s, n)
  {
    var start := I.Traced(s, []);
    if StaleEntry(s, n) {
      StaleShows(s, [], start, n);
    } else if !NothingLingers(s, n) {
      var d :| 0 <= d < |s.calls| && Lingers(s, n, s.calls[d]);
      if s.calls[d].Fetched? {
        FetchedInserts(s, n, d);
      } else if s.calls[d].Stamped? {
        StampedInserts(s, [], start, n, d);
      } else {
        Inserts(s, [], start, n, d);
      }
    } else {
      NothingStaleIsFresh(s, n);
    }
  }

  lemma ReachableSound(lim: Limits, store: Store, now: int, steps: seq<I.Step>, s: I.Shared)
    requires Reaches(I.NextShared, I.Start(lim, store, now), steps, s)
    ensures Sound(s)
  {
    forall s, step | Sound(s) && I.NextShared(s, step).Some? ensures Sound(I.NextShared(s, step).value) {
      SoundKept(s, step);
    }
    RunKeeps(I.NextShared, Sound, I.Start(lim, store, now), steps, s);
  }

  lemma SameLingers(s: I.Shared, c: nat, n: Name)
    requires I.Enabled(s, I.InvalidateMeta(c))
    ensures NothingLingers(I.Apply(s, I.InvalidateMeta(c)), n) <==> NothingLingers(s, n)
  {
    var t := I.Apply(s, I.InvalidateMeta(c));
    forall d | 0 <= d < |s.calls| ensures Lingers(t, n, t.calls[d]) <==> Lingers(s, n, s.calls[d]) {
      if d != c { assert t.calls[d] == s.calls[d]; }
    }
  }

  /**
   * Attributes after a write, exactly: when a Put or Delete of `n` has just removed the metadata entry, then in every
   * interleaving the metadata cache holds, and every Head begun later answers from it or from the backend, only
   * attributes the backend has then or later if and only if no Get or Head in flight holds other attributes that it can
   * still cache.
   */
  lemma HeadAfterWriteExactly(lim: Limits, store: Store, now: int, steps: seq<I.Step>, s: I.Shared, c: nat)
    requires Reaches(I.NextShared, I.Start(lim, store, now), steps, s) && I.Enabled(s, I.InvalidateMeta(c))
    ensures FreshFrom(I.Apply(s, I.InvalidateMeta(c)), s.calls[c].n) <==> NothingLingers(s, s.calls[c].n)
  {
    ReachableSound(lim, store, now, steps, s);
    SoundKept(s, I.InvalidateMeta(c));
    FreshExactly(I.Apply(s, I.InvalidateMeta(c)), s.calls[c].n);
    SameLingers(s, c, s.calls[c].n);
  }
}
