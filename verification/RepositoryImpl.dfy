/** Cache and repository as they run. */
module RepositoryImpl {
  import opened Events
  import opened EventStores
  import opened EventStoreImpl
  import opened CacheKeys
  import opened Repository
  import opened RepositoryFresh
  import Snowflake

  const CHUNK := 100

  /** What a SCAN promises: every matching key that is there throughout, in any
      order and perhaps more than once, and no key that does not match. */
  ghost predicate ScanOf(entries: map<string, Entry>, pattern: string, scan: seq<string>) {
    && (forall k :: k in entries && Glob(pattern, k) ==> k in scan)
    && (forall k :: k in scan ==> Glob(pattern, k))
  }

  class Cache {
    var entries: map<string, Entry>

    constructor ()
      ensures entries == map[]
    {
      entries := map[];
    }

    method GetBytes(key: string) returns (e: Option<Entry>)
      ensures e == if key in entries then Some(entries[key]) else None
    {
      e := if key in entries then Some(entries[key]) else None;
    }

    method Set(key: string, e: Entry)
      modifies this
      ensures entries == old(entries)[key := e]
    {
      entries := entries[key := e];
    }

    /** DEL with any number of keys. */
    method Del(keys: seq<string>)
      modifies this
      ensures entries == old(entries) - (set k | k in keys)
    {
      entries := entries - (set k | k in keys);
    }

    /** Collects the scanned keys and deletes them a hundred at a time: exactly
        the matching keys are gone, however the scan reported them. */
    method DeleteByPattern(pattern: string, scan: seq<string>)
      requires ScanOf(entries, pattern, scan)
      modifies this
      ensures entries == Cleared(old(entries), pattern)
    {
      var keysToDelete: seq<string> := [];
      for i := 0 to |scan|
        invariant |keysToDelete| < CHUNK
        invariant entries - (set k | k in keysToDelete) == old(entries) - (set k | k in scan[..i])
      {
        assert scan[..i + 1] == scan[..i] + [scan[i]];
        OneMore(entries, keysToDelete, old(entries), scan[..i], scan[i]);
        keysToDelete := keysToDelete + [scan[i]];
        if |keysToDelete| >= CHUNK {
          Del(keysToDelete);
          keysToDelete := [];
        }
      }
      assert scan[..|scan|] == scan;
      if |keysToDelete| > 0 {
        Del(keysToDelete);
      }
      ScannedIsCleared(old(entries), pattern, scan);
    }

    method InvalidateEvents(scan: seq<string>)
      requires ScanOf(entries, EVENTS_PATTERN, scan)
      modifies this
      ensures entries == Cleared(old(entries), EVENTS_PATTERN)
    {
      DeleteByPattern(EVENTS_PATTERN, scan);
    }

    method InvalidateStats(scan: seq<string>)
      requires ScanOf(entries, STATS_PATTERN, scan)
      modifies this
      ensures entries == Cleared(old(entries), STATS_PATTERN)
    {
      DeleteByPattern(STATS_PATTERN, scan);
    }
  }

  lemma OneMore(now: map<string, Entry>, keys: seq<string>, before: map<string, Entry>, seen: seq<string>, x: string)
    requires now - (set k | k in keys) == before - (set k | k in seen)
    ensures now - (set k | k in keys + [x]) == before - (set k | k in seen + [x])
  {
    assert (set k | k in keys + [x]) == (set k | k in keys) + {x};
    assert (set k | k in seen + [x]) == (set k | k in seen) + {x};
    assert now - ((set k | k in keys) + {x}) == now - (set k | k in keys) - {x};
    assert before - ((set k | k in seen) + {x}) == before - (set k | k in seen) - {x};
  }

  lemma ScannedIsCleared(entries: map<string, Entry>, pattern: string, scan: seq<string>)
    requires ScanOf(entries, pattern, scan)
    ensures entries - (set k | k in scan) == Cleared(entries, pattern)
  {
  }

  class CachedEventRepository {
    const store: EventStore
    const cache: Cache?

    ghost function Repo(): Repo
      reads this, store, cache
    {
      Repository.Repo(store.State(), if cache == null then map[] else cache.entries, cache != null)
    }

    /** Every cached page and type id is what the store holds now. */
    ghost predicate Valid()
      reads this, store, cache
    {
      Fresh(Repo())
    }

    constructor (store: EventStore, cache: Cache?)
      requires store.Valid() && (cache != null ==> cache.entries == map[])
      ensures this.store == store && this.cache == cache
      ensures Valid()
    {
      this.store, this.cache := store, cache;
      new;
      StartFresh(store.State(), cache != null);
    }

    /** Looks in the cache, and on a miss asks the store and fills the cache (the
        second look inside the single flight cannot hit when calls do not
        overlap). The answer is the store's either way. */
    method GetPaginatedCached(page: nat, limit: nat, user: Option<int>, q: Queries) returns (e: Option<Entry>)
      requires Valid()
      modifies cache
      ensures Valid()
      ensures (Repo(), e) == ReadPage(old(Repo()), page, limit, user, q)
      ensures store.Valid() && (e.Some? ==> e.value == PageEntry(Answer(store.State(), page, limit, user)))
      ensures e.None? ==> !Answered(q, page, limit) && Repo() == old(Repo())
    {
      ReadKeeps(Repo(), page, limit, user, q);
      ReadAnswers(Repo(), page, limit, user, q);
      e := ReadThrough(page, limit, user, q);
    }

    /** The two queries of a cache miss, one after the other. */
    method Fetch(page: nat, limit: nat, user: Option<int>, q: Queries) returns (response: Option<Page>)
      requires ValidTypes(store.State().types)
      ensures response == if Answered(q, page, limit) then Some(Answer(store.State(), page, limit, user)) else None
    {
      if q.PageQueryFails? {
        return None;
      }
      var events := store.GetPaginated(page, limit, user);
      if events.None? || q.CountQueryFails? {
        return None;
      }
      var total := store.GetTotal(user);
      response := Some(Page(events.value, limit, page, total));
    }

    method ReadThrough(page: nat, limit: nat, user: Option<int>, q: Queries) returns (e: Option<Entry>)
      requires ValidTypes(store.State().types)
      modifies cache
      ensures (Repo(), e) == ReadPage(old(Repo()), page, limit, user, q)
    {
      var cacheKey := EventsKey(page, limit, user);
      if cache != null {
        var data := cache.GetBytes(cacheKey);
        if data.Some? {
          return data;
        }
      }
      e := Fill(cacheKey, page, limit, user, q);
    }

    /** A miss: the answer is fetched and remembered. */
    method Fill(cacheKey: string, page: nat, limit: nat, user: Option<int>, q: Queries) returns (e: Option<Entry>)
      requires ValidTypes(store.State().types)
      modifies cache
      ensures e == if Answered(q, page, limit) then Some(PageEntry(Answer(store.State(), page, limit, user))) else None
      ensures Repo() == if e.Some? then Put(old(Repo()), cacheKey, e.value) else old(Repo())
    {
      var response := Fetch(page, limit, user, q);
      if response.None? {
        return None;
      }
      e := Some(PageEntry(response.value));
      if cache != null {
        cache.Set(cacheKey, e.value);
      }
    }

    /** Both families of keys are cleared; other keys stay. */
    method InvalidateCaches(events: seq<string>, stats: seq<string>)
      requires cache != null ==> ScanOf(cache.entries, EVENTS_PATTERN, events) && ScanOf(cache.entries, STATS_PATTERN, stats)
      modifies cache
      ensures Repo() == Invalidated(old(Repo()))
    {
      if cache == null {
        return;
      }
      cache.InvalidateEvents(events);
      cache.InvalidateStats(stats);
    }

    method CreateEventWithType(
        userID: int, name: string, metadata: string, reply: Snowflake.Reply, f: Faults,
        events: seq<string>, stats: seq<string>) returns (created: Option<NewRow>)
      requires Valid()
      requires cache != null ==> ScanOf(cache.entries, EVENTS_PATTERN, events) && ScanOf(cache.entries, STATS_PATTERN, stats)
      modifies store, cache
      ensures Valid()
      ensures (Repo(), created) == CreateEvent(old(Repo()), userID, name, metadata, reply, f)
    {
      CreateFresh(Repo(), userID, name, metadata, reply, f);
      created := store.CreateEventWithType(userID, name, metadata, reply, f);
      if created.None? {
        return;
      }
      InvalidateCaches(events, stats);
    }

    method InsertEventWithID(
        id: int, userID: int, typeID: int, metadata: string, f: Faults,
        events: seq<string>, stats: seq<string>) returns (ok: bool)
      requires Valid()
      requires cache != null ==> ScanOf(cache.entries, EVENTS_PATTERN, events) && ScanOf(cache.entries, STATS_PATTERN, stats)
      modifies store, cache
      ensures Valid()
      ensures (Repo(), ok) == InsertEvent(old(Repo()), id, userID, typeID, metadata, f)
    {
      InsertFresh(Repo(), id, userID, typeID, metadata, f);
      ok := store.InsertEventWithID(id, userID, typeID, metadata, f);
      if ok {
        InvalidateCaches(events, stats);
      }
    }

    method GetOrCreateTypeID(name: string, f: Faults) returns (e: Option<Entry>)
      requires Valid()
      modifies store, cache
      ensures Valid()
      ensures (Repo(), e) == TypeId(old(Repo()), name, f)
    {
      TypeFresh(Repo(), name, f);
      var cacheKey := EventTypeIdKey(name);
      if cache != null {
        var cached := cache.GetBytes(cacheKey);
        if cached.Some? {
          return cached;
        }
      }
      var typeID := store.GetOrCreateTypeID(name, f);
      if typeID.None? {
        return None;
      }
      e := Some(TypeEntry(typeID.value));
      if cache != null {
        cache.Set(cacheKey, e.value);
      }
    }
  }
}
