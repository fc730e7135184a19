/**
 `CacheEntry` and `CacheManager` of core/infrastructure/cache_manager.py:
 a memory tier and a disk tier of entries with a time to live, lazy expiry
 on read, promotion from disk to memory, explicit delete, sweep and clear,
 and the hit/miss rule of the `cached` decorator.

 The clock is the parameter `now` (whole seconds). The disk tier is a map
 from key to what reading the key's file yields: an entry, or `Corrupt`
 when unpickling fails. How writing a file ends is the parameter `write`.
 */
module Caching {
  import opened Common

  /** `set` sweeps once the memory tier holds more entries than this. */
  const CleanupThreshold := 1000

  datatype Entry<V> = Entry(key: string, value: V, createdAt: int, ttl: int, lastAccessed: int, accessCount: nat)

  /** `now > created_at + ttl`, evaluated afresh at every read. */
  predicate Expired<V>(e: Entry<V>, now: int) {
    now > e.createdAt + e.ttl
  }

  /** Once expired, an entry stays expired: expiry is a point in time
      (`created_at + ttl`) that the clock only moves past. */
  lemma ExpiryIsPermanent<V>(e: Entry<V>, now: int, later: int)
    requires now <= later
    ensures Expired(e, now) ==> Expired(e, later)
    ensures !Expired(e, later) ==> !Expired(e, now)
  {
  }

  /** `CacheEntry(key, value, ttl)` created at `now`. */
  function NewEntry<V>(key: string, value: V, ttl: int, now: int): (e: Entry<V>)
    ensures e.key == key && e.value == value && e.ttl == ttl
    ensures e.createdAt == now && e.lastAccessed == now && e.accessCount == 0
    // alive exactly through `now + ttl`
    ensures forall t :: Expired(e, t) <==> t > now + ttl
  {
    Entry(key, value, now, ttl, now, 0)
  }

  /** `CacheEntry.access`: one more access, at `now`. Reading an entry does
      not extend its life. */
  function Access<V>(e: Entry<V>, now: int): (r: Entry<V>)
    ensures r.accessCount == e.accessCount + 1 && r.lastAccessed == now
    ensures r.(lastAccessed := e.lastAccessed, accessCount := e.accessCount) == e
    ensures forall t :: Expired(r, t) <==> Expired(e, t)
  {
    e.(lastAccessed := now, accessCount := e.accessCount + 1)
  }

  /** What reading a key's cache file yields. */
  datatype DiskSlot<V> = Stored(entry: Entry<V>) | Corrupt

  datatype Cache<V> = Cache(memory: map<string, Entry<V>>, disk: map<string, DiskSlot<V>>)

  /** A new `CacheManager` on a cache directory that already holds the
      files `files` (`mkdir(exist_ok=True)` keeps them): memory starts
      empty, and the disk tier is whatever those files hold. */
  function OpenCache<V>(files: map<string, DiskSlot<V>>): (c: Cache<V>)
    ensures c.memory == map[] && c.disk == files
    ensures (forall k :: k in files && files[k].Stored? ==> files[k].entry.key == k) <==> Keyed(c)
  {
    Cache(map[], files)
  }

  /** Every entry sits under its own key, in both tiers. */
  ghost predicate Keyed<V>(c: Cache<V>) {
    && (forall k :: k in c.memory ==> c.memory[k].key == k)
    && (forall k :: k in c.disk && c.disk[k].Stored? ==> c.disk[k].entry.key == k)
  }

  /** The memory tier has no live entry for `key`. */
  predicate MemoryMiss<V>(c: Cache<V>, key: string, now: int) {
    key !in c.memory || Expired(c.memory[key], now)
  }

  datatype Read<V> = Read(cache: Cache<V>, value: V)

  /** `CacheManager.get`: a live memory entry answers (and is marked
      accessed); an expired one is dropped; then a live disk entry is
      promoted into memory and answers, an expired one is deleted, and an
      unreadable one is left in place. Otherwise `default`. */
  function Get<V>(c: Cache<V>, key: string, now: int, default: V): (r: Read<V>)
    ensures !MemoryMiss(c, key, now) ==>
      && r.value == c.memory[key].value
      && r.cache == c.(memory := c.memory[key := Access(c.memory[key], now)])
    ensures MemoryMiss(c, key, now) && key in c.disk && c.disk[key].Stored?
            && !Expired(c.disk[key].entry, now) ==>
      && r.value == c.disk[key].entry.value
      && r.cache == c.(memory := c.memory[key := c.disk[key].entry])
    ensures MemoryMiss(c, key, now) && key in c.disk && c.disk[key].Stored?
            && Expired(c.disk[key].entry, now) ==>
      r == Read(Cache(c.memory - {key}, c.disk - {key}), default)
    ensures MemoryMiss(c, key, now) && (key !in c.disk || c.disk[key].Corrupt?) ==>
      r == Read(Cache(c.memory - {key}, c.disk), default)
    ensures Keyed(c) ==> Keyed(r.cache)
  {
    if !MemoryMiss(c, key, now) then
      var e := c.memory[key];
      Read(c.(memory := c.memory[key := Access(e, now)]), e.value)
    else
      var mem := c.memory - {key};
      if key in c.disk && c.disk[key].Stored? then
        var e := c.disk[key].entry;
        if !Expired(e, now) then Read(Cache(mem[key := e], c.disk), e.value)
        else Read(Cache(mem, c.disk - {key}), default)
      else Read(Cache(mem, c.disk), default)
  }

  /** `CacheManager.cleanup`: memory keeps exactly its live entries; the
      disk keeps exactly its readable live entries. */
  function Cleanup<V>(c: Cache<V>, now: int): (r: Cache<V>)
    ensures forall k :: k in r.memory <==> k in c.memory && !Expired(c.memory[k], now)
    ensures forall k :: k in r.memory ==> r.memory[k] == c.memory[k]
    ensures forall k :: k in r.disk <==> k in c.disk && c.disk[k].Stored? && !Expired(c.disk[k].entry, now)
    ensures forall k :: k in r.disk ==> r.disk[k] == c.disk[k]
    ensures Keyed(c) ==> Keyed(r)
  {
    Cache(
      map k | k in c.memory && !Expired(c.memory[k], now) :: c.memory[k],
      map k | k in c.disk && c.disk[k].Stored? && !Expired(c.disk[k].entry, now) :: c.disk[k])
  }

  /** How writing the cache file ends: the entry is pickled into it;
      `open(path, 'wb')` fails, leaving any earlier file as it was; or the
      file is opened (which truncates it) and `pickle.dump` then fails,
      leaving an empty or partial file that no longer unpickles. */
  datatype Write = Written | OpenFailed | DumpFailed

  /** The new entry in memory, swept when memory then holds more than
      `CleanupThreshold` entries. */
  function InsertSwept<V>(c: Cache<V>, e: Entry<V>, now: int): (r: Cache<V>)
    ensures |c.memory[e.key := e]| <= CleanupThreshold ==> r == c.(memory := c.memory[e.key := e])
    ensures |c.memory[e.key := e]| > CleanupThreshold ==> r == Cleanup(c.(memory := c.memory[e.key := e]), now)
    ensures !Expired(e, now) ==> e.key in r.memory
    ensures e.key in r.memory ==> r.memory[e.key] == e
    ensures forall k :: k in r.memory && k != e.key ==> k in c.memory && r.memory[k] == c.memory[k]
    ensures forall k :: k in r.disk ==> k in c.disk && r.disk[k] == c.disk[k]
    ensures Keyed(c) ==> Keyed(r)
  {
    var inserted := c.(memory := c.memory[e.key := e]);
    if |inserted.memory| > CleanupThreshold then Cleanup(inserted, now) else inserted
  }

  /** Writing the entry's file; memory is not touched. */
  function WriteFile<V>(c: Cache<V>, e: Entry<V>, write: Write): (r: Cache<V>)
    ensures r.memory == c.memory
    ensures write == Written ==> r.disk == c.disk[e.key := Stored(e)]
    ensures write == DumpFailed ==> r.disk == c.disk[e.key := Corrupt]
    ensures write == OpenFailed ==> r.disk == c.disk
    ensures Keyed(c) ==> Keyed(r)
  {
    match write
    case Written => c.(disk := c.disk[e.key := Stored(e)])
    case DumpFailed => c.(disk := c.disk[e.key := Corrupt])
    case OpenFailed => c
  }

  /** Without a sweep, inserting and writing touch only the entry's key. */
  lemma UnsweptWriteFrame<V>(c: Cache<V>, e: Entry<V>, now: int, write: Write)
    ensures var r := WriteFile(InsertSwept(c, e, now), e, write);
      |c.memory[e.key := e]| <= CleanupThreshold ==>
        && r.memory == c.memory[e.key := e]
        && r.disk - {e.key} == c.disk - {e.key}
        && (write == OpenFailed ==> r.disk == c.disk)
  {
    if |c.memory[e.key := e]| <= CleanupThreshold {
      var r := WriteFile(InsertSwept(c, e, now), e, write);
      assert InsertSwept(c, e, now).disk == c.disk;
      assert r.disk - {e.key} == c.disk - {e.key};
    }
  }

  /** `set` with the sweep it intends: store the new entry in memory, sweep
      when memory then holds more than `CleanupThreshold` entries, and then
      write the entry's file. */
  function Set<V>(c: Cache<V>, key: string, value: V, ttl: int, now: int, write: Write): (r: Cache<V>)
    ensures ttl >= 0 ==> key in r.memory
    ensures key in r.memory ==> r.memory[key] == NewEntry(key, value, ttl, now)
    ensures write == Written ==> key in r.disk && r.disk[key] == Stored(NewEntry(key, value, ttl, now))
    ensures write == DumpFailed ==> key in r.disk && r.disk[key] == Corrupt
    // a file that could not be opened leaves whatever file was there (unless the sweep removed it)
    ensures write == OpenFailed && key in r.disk ==> key in c.disk && r.disk[key] == c.disk[key]
    // other keys are only ever dropped by the sweep, never changed
    ensures forall k :: k in r.memory && k != key ==> k in c.memory && r.memory[k] == c.memory[k]
    ensures forall k :: k in r.disk && k != key ==> k in c.disk && r.disk[k] == c.disk[k]
    // without a sweep, no other key is touched
    ensures |c.memory[key := NewEntry(key, value, ttl, now)]| <= CleanupThreshold ==>
      && r.memory == c.memory[key := NewEntry(key, value, ttl, now)]
      && r.disk - {key} == c.disk - {key}
      && (write == OpenFailed ==> r.disk == c.disk)
    ensures Keyed(c) ==> Keyed(r)
  {
    var e := NewEntry(key, value, ttl, now);
    UnsweptWriteFrame(c, e, now, write);
    WriteFile(InsertSwept(c, e, now), e, write)
  }

  /** With a sweep, `set` leaves exactly what `cleanup` leaves of the state
      with the new entry inserted, and then writes the entry's file. */
  lemma SetSweepIsCleanup<V>(c: Cache<V>, key: string, value: V, ttl: int, now: int, write: Write)
    requires |c.memory[key := NewEntry(key, value, ttl, now)]| > CleanupThreshold
    ensures var swept := Cleanup(c.(memory := c.memory[key := NewEntry(key, value, ttl, now)]), now);
      var r := Set(c, key, value, ttl, now, write);
      && r.memory == swept.memory
      && r.disk - {key} == swept.disk - {key}
      && (write == OpenFailed ==> r.disk == swept.disk)
  {
    var r := Set(c, key, value, ttl, now, write);
    var swept := InsertSwept(c, NewEntry(key, value, ttl, now), now);
    assert r.disk - {key} == swept.disk - {key};
  }

  /** `set` as written: it holds the manager's non-reentrant lock while it
      calls `cleanup`, which takes the same lock again, so once memory holds
      more than `CleanupThreshold` entries the call never returns (`None`). */
  function SetAsWritten<V>(c: Cache<V>, key: string, value: V, ttl: int, now: int, write: Write): (r: Option<Cache<V>>)
    ensures r.Some? <==> |c.memory[key := NewEntry(key, value, ttl, now)]| <= CleanupThreshold
    ensures r.Some? ==> r.value == Set(c, key, value, ttl, now, write)
  {
    var e := NewEntry(key, value, ttl, now);
    if |c.memory[key := e]| > CleanupThreshold then None
    else Some(Set(c, key, value, ttl, now, write))
  }

  /** `delete`: the key leaves both tiers; nothing else changes. */
  function Delete<V>(c: Cache<V>, key: string): (r: Cache<V>)
    ensures key !in r.memory && key !in r.disk
    ensures r.memory - {key} == c.memory - {key} && r.disk - {key} == c.disk - {key}
    ensures Keyed(c) ==> Keyed(r)
  {
    Cache(c.memory - {key}, c.disk - {key})
  }

  /** `clear`: both tiers empty. */
  function Clear<V>(c: Cache<V>): (r: Cache<V>)
    ensures r.memory == map[] && r.disk == map[]
  {
    Cache(map[], map[])
  }

  datatype CachedCall<R> = CachedCall(cache: Cache<Option<R>>, result: Option<R>, computed: bool)

  /** One call of a function wrapped by `cached(ttl)`, under the key derived
      from its name and arguments. `outcome` is what the function returns if
      it is called; `computed` tells whether it was. A `None` found in the
      cache counts as a miss. */
  function Cached<R>(c: Cache<Option<R>>, key: string, ttl: int, now: int, outcome: Option<R>, write: Write)
    : (r: CachedCall<R>)
    // a hit is never None, and the function runs exactly on a miss
    ensures !r.computed ==> r.result.Some? && r.result == Get(c, key, now, None).value
    // a hit changes the cache only as the read does
    ensures !r.computed ==> r.cache == Get(c, key, now, None).cache
    ensures r.computed ==> r.result == outcome && Get(c, key, now, None).value == None
    ensures r.computed ==> r.cache == Set(Get(c, key, now, None).cache, key, outcome, ttl, now, write)
  {
    var hit := Get(c, key, now, None);
    if hit.value.Some? then CachedCall(hit.cache, hit.value, false)
    else CachedCall(Set(hit.cache, key, outcome, ttl, now, write), outcome, true)
  }

  // ---- properties of the cache ----

  /** Round trip: after `set`, `get` returns the value until the entry's
      time to live has run out, whatever the disk did. */
  lemma SetThenGet<V>(c: Cache<V>, key: string, v: V, ttl: int, t0: int, t: int, write: Write, default: V)
    requires t0 <= t <= t0 + ttl
    ensures Get(Set(c, key, v, ttl, t0, write), key, t, default).value == v
  {
    var r := Set(c, key, v, ttl, t0, write);
    assert !MemoryMiss(r, key, t);
  }

  /** Round trip across a restart: with the file written, a new manager on
      the same directory still reads the value, from disk. */
  lemma SetThenRestartThenGet<V>(c: Cache<V>, key: string, v: V, ttl: int, t0: int, t: int, default: V)
    requires t0 <= t <= t0 + ttl
    ensures var restarted := OpenCache(Set(c, key, v, ttl, t0, Written).disk);
      Get(restarted, key, t, default).value == v
  {
  }

  /** A failed `pickle.dump` loses the value an earlier `set` wrote: after a
      restart the key reads as absent, and when the file could not even be
      opened the earlier value is served instead of the newer one. */
  lemma FailedWriteAfterRestart<V>(c: Cache<V>, key: string, v1: V, v2: V, ttl: int, t0: int, t1: int, t: int,
                                   default: V)
    requires t0 <= t1 <= t <= t0 + ttl
    requires |c.memory| < CleanupThreshold
    ensures var first := Set(c, key, v1, ttl, t0, Written);
      && Get(OpenCache(Set(first, key, v2, ttl, t1, DumpFailed).disk), key, t, default).value == default
      && Get(OpenCache(Set(first, key, v2, ttl, t1, OpenFailed).disk), key, t, default).value == v1
  {
    var first := Set(c, key, v1, ttl, t0, Written);
    assert |first.memory| <= CleanupThreshold by {
      assert first.memory.Keys <= c.memory.Keys + {key};
      assert |c.memory.Keys + {key}| <= |c.memory.Keys| + 1;
    }
  }

  /** Expiry: once the time to live has run out, `get` returns the default
      and the key is gone from both tiers, whether or not a sweep ran. */
  lemma SetThenGetAfterExpiry<V>(c: Cache<V>, key: string, v: V, ttl: int, t0: int, t: int, default: V)
    requires t > t0 + ttl
    ensures var r := Get(Set(c, key, v, ttl, t0, Written), key, t, default);
      r.value == default && key !in r.cache.memory && key !in r.cache.disk
  {
    var s := Set(c, key, v, ttl, t0, Written);
    assert MemoryMiss(s, key, t);
  }

  /** A sweep is invisible to readers: `get` answers the same with or
      without a preceding `cleanup` at the same time. */
  lemma CleanupInvisibleToGet<V>(c: Cache<V>, key: string, now: int, default: V)
    ensures Get(Cleanup(c, now), key, now, default).value == Get(c, key, now, default).value
  {
    var s := Cleanup(c, now);
    if !MemoryMiss(c, key, now) {
      assert !MemoryMiss(s, key, now);
    } else {
      assert MemoryMiss(s, key, now);
    }
  }

  /** Sweeping twice at the same time is sweeping once. */
  lemma CleanupIdempotent<V>(c: Cache<V>, now: int)
    ensures Cleanup(Cleanup(c, now), now) == Cleanup(c, now)
  {
  }

  /** Deleting an absent key changes nothing; after any delete the key reads as absent. */
  lemma DeleteThenGet<V>(c: Cache<V>, key: string, now: int, default: V)
    ensures key !in c.memory && key !in c.disk ==> Delete(c, key) == c
    ensures Get(Delete(c, key), key, now, default) == Read(Delete(c, key), default)
  {
    if key !in c.memory && key !in c.disk {
      assert c.memory - {key} == c.memory;
      assert c.disk - {key} == c.disk;
    }
    var d := Delete(c, key);
    assert d.memory - {key} == d.memory;
  }

  /** After `clear` every key reads as absent and the cache stays empty. */
  lemma ClearThenGet<V>(c: Cache<V>, key: string, now: int, default: V)
    ensures Get(Clear(c), key, now, default) == Read(Clear(c), default)
  {
    assert Clear(c).memory - {key} == map[];
  }

  /** Finding: `set` as written blocks forever when it adds a key to a
      memory tier that already holds `CleanupThreshold` entries. */
  lemma SetAsWrittenDeadlocks<V>(c: Cache<V>, key: string, value: V, ttl: int, now: int, write: Write)
    requires |c.memory| >= CleanupThreshold && key !in c.memory
    ensures SetAsWritten(c, key, value, ttl, now, write) == None
  {
  }

  /** The corrected `set` sweeps instead: afterwards memory holds exactly
      the live entries, the new one among them, and the disk keeps exactly
      the readable live files of the other keys. */
  lemma SetSweepsWhenFull<V>(c: Cache<V>, key: string, value: V, ttl: int, now: int, write: Write)
    requires |c.memory| >= CleanupThreshold && key !in c.memory && ttl >= 0
    ensures var r := Set(c, key, value, ttl, now, write);
      && key in r.memory
      && (forall k :: k in r.memory ==> !Expired(r.memory[k], now))
      && (forall k :: k in c.memory && !Expired(c.memory[k], now) ==> k in r.memory && r.memory[k] == c.memory[k])
      && (forall k :: k != key ==>
            (k in r.disk <==> k in c.disk && c.disk[k].Stored? && !Expired(c.disk[k].entry, now)))
  {
    var r := Set(c, key, value, ttl, now, write);
    var inserted := c.(memory := c.memory[key := NewEntry(key, value, ttl, now)]);
    assert |inserted.memory| > CleanupThreshold by {
      assert inserted.memory.Keys == c.memory.Keys + {key};
    }
    forall k | k != key
      ensures k in r.disk <==> k in c.disk && c.disk[k].Stored? && !Expired(c.disk[k].entry, now)
    {
      assert k in r.disk <==> k in r.disk - {key};
      assert k in Cleanup(inserted, now).disk <==> k in Cleanup(inserted, now).disk - {key};
    }
  }

  /** `cached` serves a computed non-None result from the cache, without
      calling the function again, until the result's time to live runs out. */
  lemma CachedServesUntilExpiry<R>(c: Cache<Option<R>>, key: string, ttl: int, t0: int, t: int,
                                   outcome: Option<R>, later: Option<R>, w1: Write, w2: Write)
    requires t0 <= t <= t0 + ttl
    requires outcome.Some?
    ensures var first := Cached(c, key, ttl, t0, outcome, w1);
      var second := Cached(first.cache, key, ttl, t, later, w2);
      first.computed ==> !second.computed && second.result == outcome
  {
    var first := Cached(c, key, ttl, t0, outcome, w1);
    if first.computed {
      SetThenGet(Get(c, key, t0, None).cache, key, outcome, ttl, t0, t, w1, None);
    }
  }

  /** A `None` result is never served from the cache: the next call, at
      any time, computes again. */
  lemma CachedNoneAlwaysRecomputed<R>(c: Cache<Option<R>>, key: string, ttl: int, t0: int, t: int,
                                      later: Option<R>, w1: Write, w2: Write)
    requires t0 <= t && w1 != OpenFailed
    ensures var first := Cached(c, key, ttl, t0, None, w1);
      first.computed ==> Cached(first.cache, key, ttl, t, later, w2).computed
  {
  }
}
