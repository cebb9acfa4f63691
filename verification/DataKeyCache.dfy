// The data-key cache of internal/kms/cache.go: entries with a time to live over key arrays that are wiped in
// place when they leave.  Key arrays are shared with callers by reference, so ownership is the whole story.
module DataKeyCache {
  import opened Core

  /** A DataKey: what matters is the array its PlaintextKey refers to. */
  datatype DataKey = DataKey(keyId: string, plaintextKey: array<Byte>)

  datatype Entry = Entry(dataKey: DataKey, expiresAt: int)

  const DEFAULT_TTL: int := 5 * 60 * 1_000_000_000

  ghost predicate Wiped(a: array<Byte>)
    reads a
  {
    forall i :: 0 <= i < a.Length ==> a[i] == 0
  }

  /** The bytes a Get at time `now` gives access to, given the entries and the bytes they were put with. */
  ghost function ServedFrom(cache: map<string, Entry>, handed: map<array<Byte>, Bytes>, key: string,
      now: int): Option<Bytes> {
    if key in cache && now <= cache[key].expiresAt && cache[key].dataKey.plaintextKey in handed
    then Some(handed[cache[key].dataKey.plaintextKey]) else None
  }

  function Unexpired(cache: map<string, Entry>, now: int): map<string, Entry> {
    map k | k in cache && now <= cache[k].expiresAt :: cache[k]
  }

  /** The entries left when the keys in `visited` have been looked at. */
  ghost function Swept(cache: map<string, Entry>, visited: set<string>, now: int): map<string, Entry> {
    map k | k in cache && (k in visited ==> now <= cache[k].expiresAt) :: cache[k]
  }

  lemma SweepOne(cache: map<string, Entry>, visited: set<string>, key: string, now: int)
    requires key in cache && key !in visited
    ensures key in Swept(cache, visited, now) && Swept(cache, visited, now)[key] == cache[key]
    ensures Swept(cache, visited + {key}, now)
         == if now > cache[key].expiresAt then Swept(cache, visited, now) - {key} else Swept(cache, visited, now)
  {
  }

  lemma SweepEnds(cache: map<string, Entry>, now: int)
    ensures Swept(cache, {}, now) == cache && Swept(cache, cache.Keys, now) == Unexpired(cache, now)
  {
  }

  /** Dropping what has expired by `now` changes no answer from `now` on, and dropping anything else would. */
  lemma CleanupInvisible(cache: map<string, Entry>, handed: map<array<Byte>, Bytes>, kept: set<string>, now: int)
    requires kept <= cache.Keys && forall k :: k in cache ==> cache[k].dataKey.plaintextKey in handed
    ensures (forall key, t :: t >= now ==>
               ServedFrom(map k | k in kept :: cache[k], handed, key, t) == ServedFrom(cache, handed, key, t))
        <==> Unexpired(cache, now).Keys <= kept
  {
    if exists key :: key in Unexpired(cache, now) && key !in kept {
      var key :| key in Unexpired(cache, now) && key !in kept;
      assert ServedFrom(map k | k in kept :: cache[k], handed, key, now) != ServedFrom(cache, handed, key, now);
    }
  }

  /** No two entries share a key array. */
  ghost predicate Distinct(cache: map<string, Entry>) {
    forall k, m :: k in cache && m in cache && k != m ==> cache[k].dataKey.plaintextKey != cache[m].dataKey.plaintextKey
  }

  class DataKeyCache {
    var cache: map<string, Entry>
    const ttl: int
    var stopped: bool
    ghost var handed: map<array<Byte>, Bytes>   // every key array handed to Put, with its bytes at that time

    ghost predicate Holds(a: array<Byte>)
      reads `cache
    {
      exists k :: k in cache && cache[k].dataKey.plaintextKey == a
    }

    /** Each entry has an array of its own, still holding the bytes that were put. */
    ghost predicate Owned()
      reads `cache, `handed, handed.Keys
    {
      && (forall k :: k in cache ==> cache[k].dataKey.plaintextKey in handed)
      && (forall k :: k in cache ==> cache[k].dataKey.plaintextKey[..] == handed[cache[k].dataKey.plaintextKey])
      && Distinct(cache)
    }

    /** Key conservation: every key ever handed over is held by an entry or has been wiped. */
    ghost predicate Conserved()
      reads `cache, `handed, handed.Keys
    {
      forall a :: a in handed ==> Holds(a) || Wiped(a)
    }

    /** What every sequence of calls keeps, whatever arrays it hands over. */
    ghost predicate Kept()
      reads `cache, `handed, handed.Keys
    {
      (forall k :: k in cache ==> cache[k].dataKey.plaintextKey in handed) && Conserved() && "" !in cache
    }

    ghost predicate Valid()
      reads `cache, `handed, handed.Keys
    {
      Kept() && Owned()
    }

    /** The bytes a Get at time `now` gives access to while entries own their arrays. */
    ghost function Served(key: string, now: int): Option<Bytes>
      reads `cache, `handed
    {
      ServedFrom(cache, handed, key, now)
    }

    constructor (ttl: int)
      ensures Valid() && cache == map[] && handed == map[] && !stopped
      ensures this.ttl == if ttl <= 0 then 300_000_000_000 else ttl
    {
      this.ttl := if ttl <= 0 then DEFAULT_TTL else ttl;
      cache, handed, stopped := map[], map[], false;
    }

    method ClearSensitiveData(dataKey: DataKey)
      modifies dataKey.plaintextKey
      ensures Wiped(dataKey.plaintextKey)
    {
      var a := dataKey.plaintextKey;
      for i := 0 to a.Length
        invariant forall j :: 0 <= j < i ==> a[j] == 0
      {
        a[i] := 0;
      }
    }

    /**
     * An unexpired Get returns the entry's key, whose array holds exactly the bytes put; an expired or unknown one
     * nothing.
     */
    method Get(key: string, now: int) returns (dataKey: Option<DataKey>)
      requires Kept()
      ensures dataKey == if key in cache && now <= cache[key].expiresAt then Some(cache[key].dataKey) else None
      ensures dataKey.Some? == Served(key, now).Some?
      ensures Owned() && dataKey.Some? ==> Some(dataKey.value.plaintextKey[..]) == Served(key, now)
    {
      if key == "" || key !in cache { return None; }
      var entry := cache[key];
      if now > entry.expiresAt { return None; }
      return Some(entry.dataKey);
    }

    /** Is this the replaced entry's own array, with nothing left in it? */
    ghost predicate OwnAndWiped(key: string, a: array<Byte>)
      reads `cache, a
    {
      key in cache && cache[key].dataKey.plaintextKey == a && Wiped(a)
    }

    /**
     * Put wipes the entry it replaces and keeps every key held or wiped, whatever array it is handed. Exactly, entries
     * go on owning their bytes if and only if the array is not held by any entry, or is the replaced entry's own and
     * was all zero already: another entry's array is shared from then on, and the replaced entry's own array is wiped.
     */
    method Put(key: string, dataKey: DataKey, now: int)
      requires Kept()
      modifies this, handed.Keys
      ensures Kept() && stopped == old(stopped)
      ensures key == "" ==> cache == old(cache) && handed == old(handed) && (old(Owned()) ==> Owned())
      ensures key != "" ==> cache == old(cache)[key := Entry(dataKey, now + ttl)]
      ensures key != "" ==> handed == old(handed)[dataKey.plaintextKey := old(dataKey.plaintextKey[..])]
      ensures forall a :: a in handed ==>
                if key in old(cache) && a == old(cache)[key].dataKey.plaintextKey then Wiped(a) else a[..] == old(a[..])
      ensures key != "" && old(Owned()) ==>
                (Owned() <==> !old(Holds(dataKey.plaintextKey)) || old(OwnAndWiped(key, dataKey.plaintextKey)))
    {
      if key == "" { return; }
      ghost var before, given, owned := cache, dataKey.plaintextKey[..], Owned();
      StoreEntry(key, dataKey, now);
      if owned { PutOwns(before, key, dataKey.plaintextKey, given); }
    }

    /** Wiping the old entry and storing the new one. */
    method StoreEntry(key: string, dataKey: DataKey, now: int)
      requires Kept() && key != ""
      modifies `cache, `handed, handed.Keys
      ensures Kept()
      ensures cache == old(cache)[key := Entry(dataKey, now + ttl)]
      ensures handed == old(handed)[dataKey.plaintextKey := old(dataKey.plaintextKey[..])]
      ensures forall a :: a in handed ==>
                if key in old(cache) && a == old(cache)[key].dataKey.plaintextKey then Wiped(a) else a[..] == old(a[..])
    {
      ghost var before, given := cache, dataKey.plaintextKey[..];
      WipeEntry(key);
      cache := cache[key := Entry(dataKey, now + ttl)];
      handed := handed[dataKey.plaintextKey := given];
      PutConserves(before, key, dataKey.plaintextKey);
    }

    /** What is about to be replaced is wiped, so whatever is not wiped is held by another entry. */
    method WipeEntry(key: string)
      requires Kept()
      modifies handed.Keys
      ensures forall a :: a in handed ==>
                if key in cache && a == cache[key].dataKey.plaintextKey then Wiped(a) else a[..] == old(a[..])
      ensures forall a :: a in handed && !Wiped(a) ==>
              exists k :: k in cache && k != key && cache[k].dataKey.plaintextKey == a
    {
      if key in cache { ClearSensitiveData(cache[key].dataKey); }
      forall a | a in handed && !Wiped(a)
          ensures exists k :: k in cache && k != key && cache[k].dataKey.plaintextKey == a {
        assert old(Holds(a));
        var k :| k in cache && cache[k].dataKey.plaintextKey == a;
      }
    }

    /** After a replacement, what is not wiped is the new key or held by another entry, and so still held. */
    lemma PutConserves(before: map<string, Entry>, key: string, added: array<Byte>)
      requires key in cache && cache == before[key := cache[key]] && cache[key].dataKey.plaintextKey == added
      requires forall a :: a in handed && !Wiped(a) && a != added ==>
                 exists k :: k in before && k != key && before[k].dataKey.plaintextKey == a
      ensures Conserved()
    {
      forall a | a in handed && !Wiped(a) ensures Holds(a) {
        if a != added {
          var k :| k in before && k != key && before[k].dataKey.plaintextKey == a;
          assert cache[k].dataKey.plaintextKey == a;
        }
      }
    }

    ghost predicate HeldIn(entries: map<string, Entry>, a: array<Byte>) {
      exists k :: k in entries && entries[k].dataKey.plaintextKey == a
    }

    ghost predicate OwnZeros(before: map<string, Entry>, key: string, added: array<Byte>, given: Bytes) {
      key in before && before[key].dataKey.plaintextKey == added && forall i :: 0 <= i < |given| ==> given[i] == 0
    }

    /** Whether entries own their bytes after a replacement. */
    lemma PutOwns(before: map<string, Entry>, key: string, added: array<Byte>, given: Bytes)
      requires Distinct(before) && forall k :: k in before ==> before[k].dataKey.plaintextKey in handed
      requires key in cache && cache == before[key := cache[key]] && cache[key].dataKey.plaintextKey == added
      requires added in handed && handed[added] == given && |given| == added.Length
      requires key in before && before[key].dataKey.plaintextKey == added ==> Wiped(added)
      requires !(key in before && before[key].dataKey.plaintextKey == added) ==> added[..] == given
      requires forall k :: k in before && k != key && before[k].dataKey.plaintextKey != added ==>
                 before[k].dataKey.plaintextKey[..] == handed[before[k].dataKey.plaintextKey]
      ensures Owned() <==> (!HeldIn(before, added) || OwnZeros(before, key, added, given))
    {
      if key in before && before[key].dataKey.plaintextKey == added {
        assert Owned() ==> added[..] == given;
        if forall i :: 0 <= i < |given| ==> given[i] == 0 { assert added[..] == given; }
      } else if HeldIn(before, added) {
        var k :| k in before && before[k].dataKey.plaintextKey == added;
        assert k in cache && k != key && cache[k].dataKey.plaintextKey == cache[key].dataKey.plaintextKey;
      }
    }

    /** Delete drops exactly that entry and wipes its array - which leaves an entry sharing the array with zeros. */
    method Delete(key: string)
      requires Kept()
      modifies this, handed.Keys
      ensures Kept() && handed == old(handed) && (old(Owned()) ==> Owned())
      ensures cache == old(cache) - {key}
      ensures forall a :: a in handed ==>
                if key in old(cache) && a == old(cache)[key].dataKey.plaintextKey then Wiped(a) else a[..] == old(a[..])
    {
      if key == "" { return; }
      if key in cache { RemoveWiped(key); }
    }

    /** Wiping one entry's key and dropping the entry. */
    method RemoveWiped(key: string)
      requires Kept() && key in cache
      modifies `cache, handed.Keys
      ensures Kept() && cache == old(cache) - {key} && (old(Owned()) ==> Owned())
      ensures forall a :: a in handed ==>
                if a == old(cache)[key].dataKey.plaintextKey then Wiped(a) else a[..] == old(a[..])
    {
      ClearSensitiveData(cache[key].dataKey);
      ghost var before := cache;
      cache := cache - {key};
      forall a | a in handed ensures Holds(a) || Wiped(a) {
        if old(Holds(a)) {
          var k :| k in before && before[k].dataKey.plaintextKey == a;
          if k != key { assert cache[k].dataKey.plaintextKey == a; }
        }
      }
    }

    /** Wiping every key array an entry refers to. */
    method WipeAll()
      requires Kept()
      modifies handed.Keys
      ensures forall a :: a in handed ==> Wiped(a)
    {
      var todo := cache.Keys;
      while todo != {}
        invariant todo <= cache.Keys && cache == old(cache) && handed == old(handed)
        invariant forall a :: a in handed ==> Wiped(a) || exists k :: k in todo && cache[k].dataKey.plaintextKey == a
        decreases todo
      {
        var key :| key in todo;
        ClearSensitiveData(cache[key].dataKey);
        ghost var before := todo;
        todo := todo - {key};
        forall a | a in handed ensures Wiped(a) || exists k :: k in todo && cache[k].dataKey.plaintextKey == a {
          if !Wiped(a) {
            var k :| k in before && cache[k].dataKey.plaintextKey == a;
            assert k in todo;
          }
        }
      }
    }

    /** Clear leaves no entry and no key unwiped. */
    method Clear()
      requires Kept()
      modifies this, handed.Keys
      ensures Valid() && cache == map[] && handed == old(handed) && stopped == old(stopped)
      ensures forall a :: a in handed ==> Wiped(a)
    {
      WipeAll();
      cache := map[];
    }

    /** Cleanup on its way: the keys in `visited` have been looked at. */
    ghost predicate Sweeping(cache0: map<string, Entry>, visited: set<string>, now: int)
      reads `cache, `handed, handed.Keys
    {
      && Kept() && cache == Swept(cache0, visited, now)
      && (forall k :: k in cache0 ==> cache0[k].dataKey.plaintextKey in handed)
      && (forall k :: k in visited && k in cache0 && now > cache0[k].expiresAt ==>
          Wiped(cache0[k].dataKey.plaintextKey))
    }

    /** The body of cleanup's loop. */
    method DropIfExpired(key: string, now: int, ghost cache0: map<string, Entry>, ghost visited: set<string>)
      requires Sweeping(cache0, visited, now) && key in cache0 && key !in visited
      modifies `cache, handed.Keys
      ensures Sweeping(cache0, visited + {key}, now) && (old(Owned()) ==> Owned())
    {
      SweepOne(cache0, visited, key, now);
      if now > cache[key].expiresAt { RemoveWiped(key); }
    }

    /** The loop of cleanup over a snapshot of the keys. */
    method DropExpired(now: int)
      requires Kept()
      modifies `cache, handed.Keys
      ensures Kept() && (old(Owned()) ==> Owned()) && cache == Unexpired(old(cache), now)
      ensures forall k :: k in old(cache) && now > old(cache)[k].expiresAt ==> Wiped(old(cache)[k].dataKey.plaintextKey)
    {
      var todo := cache.Keys;
      ghost var cache0, visited := cache, {};
      SweepEnds(cache0, now);
      while todo != {}
        invariant Sweeping(cache0, visited, now) && (old(Owned()) ==> Owned())
        invariant todo == cache0.Keys - visited && visited <= cache0.Keys
        decreases todo
      {
        var key :| key in todo;
        DropIfExpired(key, now, cache0, visited);
        todo := todo - {key};
        visited := visited + {key};
      }
      assert visited == cache0.Keys;
    }

    /**
     * Cleanup removes exactly the expired entries and wipes their arrays - and is invisible: no Get at any time from
     * `now` on is answered differently.
     */
    method Cleanup(now: int)
      requires Kept()
      modifies `cache, handed.Keys
      ensures Kept() && (old(Owned()) ==> Owned()) && cache == Unexpired(old(cache), now)
      ensures forall k :: k in old(cache) && now > old(cache)[k].expiresAt ==> Wiped(old(cache)[k].dataKey.plaintextKey)
      ensures forall k, t :: t >= now ==> Served(k, t) == old(Served(k, t))
      ensures forall k :: k in cache <==> k in old(cache) && old(cache)[k].expiresAt >= now
      ensures forall k :: k in cache ==> cache[k] == old(cache)[k]
    {
      DropExpired(now);
    }

    /** Close wipes everything once; a second Close does nothing. */
    method Close()
      requires Kept()
      modifies this, handed.Keys
      ensures Kept() && (old(Owned()) ==> Owned()) && stopped && handed == old(handed)
      ensures old(stopped) ==> cache == old(cache)
      ensures !old(stopped) ==> cache == map[] && forall a :: a in handed ==> Wiped(a)
    {
      if stopped { return; }
      stopped := true;
      WipeAll();
      cache := map[];
    }
  }

  /**
   * When two entries share an array - as after a Put of an array that another entry holds -, deleting one zeroes the
   * other.
   */
  method SharedKeyIsLost(c: DataKeyCache, first: string, second: string, now: int) returns (served: Option<DataKey>)
    requires c.Kept() && first != second && first in c.cache && second in c.cache
    requires c.cache[first].dataKey.plaintextKey == c.cache[second].dataKey.plaintextKey
    modifies c, c.handed.Keys
    ensures now <= old(c.cache)[second].expiresAt ==>
              served == Some(old(c.cache)[second].dataKey) && Wiped(old(c.cache)[second].dataKey.plaintextKey)
  {
    c.Delete(first);
    served := c.Get(second, now);
  }
}
