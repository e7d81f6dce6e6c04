/** Cached reads agree with the store in every sequential run of reads and
    synchronous writes; a queue flush makes exactly the pages it touches stale. */
module RepositoryFresh {
  import Pages = Pagination
  import opened Events
  import opened EventStores
  import opened CacheKeys
  import opened Repository
  import Snowflake
  import Machines

  // ------------------------------------------------------------ each operation

  lemma PagesStay(s: State, u: State, entries: map<string, Entry>)
    requires Valid(s) && Valid(u) && Grows(s.types, u.types) && u.rows == s.rows
    requires PagesFresh(s, entries)
    ensures PagesFresh(u, entries)
  {
    forall page: nat, limit: nat, user ensures PageFits(u, entries, page, limit, user) {
      PageStays(s, u, entries, page, limit, user);
    }
  }

  lemma PageStays(s: State, u: State, entries: map<string, Entry>, page: nat, limit: nat, user: Option<int>)
    requires Valid(s) && Valid(u) && Grows(s.types, u.types) && u.rows == s.rows
    requires PageFits(s, entries, page, limit, user)
    ensures PageFits(u, entries, page, limit, user)
  {
    AnswerStable(s, u, page, limit, user);
  }

  lemma NoPagesLeft(entries: map<string, Entry>, s: State)
    requires ValidTypes(s.types)
    ensures PagesFresh(s, Cleared(Cleared(entries, EVENTS_PATTERN), STATS_PATTERN))
  {
    var e := Cleared(Cleared(entries, EVENTS_PATTERN), STATS_PATTERN);
    forall page: nat, limit: nat, user ensures PageFits(s, e, page, limit, user) {
      FamiliesApart(page, limit, user, "");
    }
  }

  lemma TypesStay(t: Types, u: Types, entries: map<string, Entry>, some: map<string, Entry>)
    requires Grows(t, u) && TypesFresh(t, entries)
    requires forall k :: k in some ==> k in entries && some[k] == entries[k]
    ensures TypesFresh(u, some)
  {
    forall name ensures TypeFits(u, some, name) {
      assert TypeFits(t, entries, name);
    }
  }

  lemma KeysApart(page: nat, limit: nat, user: Option<int>, name: string)
    ensures EventsKey(page, limit, user) != EventTypeIdKey(name)
  {
    FamiliesApart(page, limit, user, name);
  }

  lemma PutOne(s: State, entries: map<string, Entry>, key: string, a: Entry, p: nat, l: nat, u: Option<int>)
    requires ValidTypes(s.types) && PageFits(s, entries, p, l, u)
    requires EventsKey(p, l, u) == key ==> a == PageEntry(Answer(s, p, l, u))
    ensures PageFits(s, entries[key := a], p, l, u)
  {
  }

  lemma SamePage(s: State, page: nat, limit: nat, user: Option<int>, p: nat, l: nat, u: Option<int>)
    requires ValidTypes(s.types)
    ensures EventsKey(p, l, u) == EventsKey(page, limit, user) ==> Answer(s, page, limit, user) == Answer(s, p, l, u)
  {
    if EventsKey(p, l, u) == EventsKey(page, limit, user) {
      EventsKeyInjective(p, l, u, page, limit, user);
    }
  }

  /** Putting a page under its key disturbs no other page. */
  lemma PutPage(s: State, entries: map<string, Entry>, page: nat, limit: nat, user: Option<int>)
    requires ValidTypes(s.types) && PagesFresh(s, entries)
    ensures PagesFresh(s, entries[EventsKey(page, limit, user) := PageEntry(Answer(s, page, limit, user))])
  {
    var key, a := EventsKey(page, limit, user), PageEntry(Answer(s, page, limit, user));
    var e := entries[key := a];
    forall p: nat, l: nat, u ensures PageFits(s, e, p, l, u) {
      SamePage(s, page, limit, user, p, l, u);
      PutOne(s, entries, key, a, p, l, u);
    }
  }

  lemma PutPageTypes(t: Types, entries: map<string, Entry>, page: nat, limit: nat, user: Option<int>, a: Entry)
    requires TypesFresh(t, entries)
    ensures TypesFresh(t, entries[EventsKey(page, limit, user) := a])
  {
    var e := entries[EventsKey(page, limit, user) := a];
    forall name ensures TypeFits(t, e, name) {
      assert TypeFits(t, entries, name);
      KeysApart(page, limit, user, name);
    }
  }

  lemma PutType(t: Types, entries: map<string, Entry>, name: string)
    requires TypesFresh(t, entries) && name in t.table
    ensures TypesFresh(t, entries[EventTypeIdKey(name) := TypeEntry(t.table[name])])
  {
    var key := EventTypeIdKey(name);
    var e := entries[key := TypeEntry(t.table[name])];
    forall n ensures TypeFits(t, e, n) {
      assert TypeFits(t, entries, n);
      if EventTypeIdKey(n) == key {
        EventTypeIdKeyInjective(n, name);
      }
    }
  }

  lemma PutTypePages(s: State, entries: map<string, Entry>, name: string, a: Entry)
    requires ValidTypes(s.types) && PagesFresh(s, entries)
    ensures PagesFresh(s, entries[EventTypeIdKey(name) := a])
  {
    var key := EventTypeIdKey(name);
    var e := entries[key := a];
    forall p: nat, l: nat, u ensures PageFits(s, e, p, l, u) {
      KeysApart(p, l, u, name);
      PutOne(s, entries, key, a, p, l, u);
    }
  }

  lemma ReadKeeps(r: Repo, page: nat, limit: nat, user: Option<int>, q: Queries)
    requires Fresh(r)
    ensures Fresh(ReadPage(r, page, limit, user, q).0)
  {
    PutPage(r.store, r.entries, page, limit, user);
    PutPageTypes(r.store.types, r.entries, page, limit, user, PageEntry(Answer(r.store, page, limit, user)));
  }

  /** A cached read returns what an uncached one would, and an error, which
      changes nothing, only when it has to ask and a query fails. */
  lemma ReadAnswers(r: Repo, page: nat, limit: nat, user: Option<int>, q: Queries)
    requires Fresh(r)
    ensures var (r', e) := ReadPage(r, page, limit, user, q);
      && (e.Some? ==> e.value == PageEntry(Answer(r.store, page, limit, user)))
      && (e.None? ==> !Answered(q, page, limit) && r' == r)
      && r'.store == r.store
  {
    assert PageFits(r.store, r.entries, page, limit, user);
  }

  lemma ReadsUnless(r: Repo, page: nat, limit: nat, user: Option<int>, q: Queries)
    requires ValidTypes(r.store.types)
    ensures ReadPage(r, page, limit, user, q).1.Some? <==>
      Lookup(r, EventsKey(page, limit, user)).Some? || (q.BothAnswer? && !Pages.TooFar(page, limit))
  {
  }

  /** A page that was read is remembered: the next read of it needs no query. */
  lemma ReadIsRemembered(r: Repo, page: nat, limit: nat, user: Option<int>, q: Queries, q': Queries)
    requires ValidTypes(r.store.types) && r.enabled && ReadPage(r, page, limit, user, q).1.Some?
    ensures ReadPage(r, page, limit, user, q).0.store == r.store
    ensures ReadPage(ReadPage(r, page, limit, user, q).0, page, limit, user, q') == ReadPage(r, page, limit, user, q)
  {
    var a := ReadPage(r, page, limit, user, q);
    HitOrPut(r, page, limit, user, q);
    RememberedIs(r, a.0, EventsKey(page, limit, user), a.1.value);
    HitReturns(a.0, page, limit, user, q', a.1.value);
  }

  /** Reading a page changes no other entry. */
  lemma ReadLeavesOthers(r: Repo, page: nat, limit: nat, user: Option<int>, q: Queries, k: string)
    requires ValidTypes(r.store.types) && r.enabled && ReadPage(r, page, limit, user, q).1.Some?
    requires k != EventsKey(page, limit, user)
    ensures Lookup(ReadPage(r, page, limit, user, q).0, k) == Lookup(r, k)
  {
    HitOrPut(r, page, limit, user, q);
  }

  lemma RememberedIs(r: Repo, r': Repo, key: string, e: Entry)
    requires r.enabled && ((r' == r && Lookup(r, key) == Some(e)) || r' == r.(entries := r.entries[key := e]))
    ensures Lookup(r', key) == Some(e) && r'.store == r.store
  {
  }

  lemma HitOrPut(r: Repo, page: nat, limit: nat, user: Option<int>, q: Queries)
    requires ValidTypes(r.store.types) && r.enabled && ReadPage(r, page, limit, user, q).1.Some?
    ensures var (r', e) := ReadPage(r, page, limit, user, q);
      var key := EventsKey(page, limit, user);
      (r' == r && Lookup(r, key) == e) || r' == r.(entries := r.entries[key := e.value])
  {
  }

  lemma HitReturns(r: Repo, page: nat, limit: nat, user: Option<int>, q: Queries, e: Entry)
    requires ValidTypes(r.store.types) && Lookup(r, EventsKey(page, limit, user)) == Some(e)
    ensures ReadPage(r, page, limit, user, q) == (r, Some(e))
  {
  }

  /** So is a type id. */
  lemma TypeIsRemembered(r: Repo, name: string, f: Faults, f': Faults)
    requires Fresh(r) && r.enabled && TypeId(r, name, f).1.Some?
    ensures var (r', e) := TypeId(r, name, f);
      && name in r'.store.types.table && e.value == TypeEntry(r'.store.types.table[name])
      && TypeId(r', name, f') == (r', e)
  {
    assert TypeFits(r.store.types, r.entries, name);
    GetTypeKeeps(r.store.types, name, f.names);
  }

  /** After a create or an insert that succeeded no page and no stats entry is left
      and every other entry is as it was; after one that failed all are. */
  lemma WritesClear(r: Repo, r': Repo, wrote: bool, u: State)
    requires r' == (if wrote then Invalidated(r.(store := u)) else r.(store := u)) && r.enabled
    ensures !wrote ==> r'.entries == r.entries
    ensures wrote ==> forall k :: k in r'.entries <==> k in r.entries && !("events:" <= k) && !("stats:" <= k)
    ensures forall k :: k in r'.entries ==> k in r.entries && r'.entries[k] == r.entries[k]
  {
    InvalidatedIs(r.(store := u));
  }

  lemma CreateClears(r: Repo, userID: int, name: string, metadata: string, reply: Snowflake.Reply, f: Faults)
    requires r.enabled
    ensures var (r', created) := CreateEvent(r, userID, name, metadata, reply, f);
      && (created.None? ==> r'.entries == r.entries)
      && (created.Some? ==> forall k :: k in r'.entries <==> k in r.entries && !("events:" <= k) && !("stats:" <= k))
      && (forall k :: k in r'.entries ==> k in r.entries && r'.entries[k] == r.entries[k])
  {
    var (u, created) := Create(r.store, userID, name, metadata, reply, f);
    WritesClear(r, CreateEvent(r, userID, name, metadata, reply, f).0, created.Some?, u);
  }

  lemma InsertClears(r: Repo, id: int, userID: int, typeID: int, metadata: string, f: Faults)
    requires r.enabled
    ensures var (r', ok) := InsertEvent(r, id, userID, typeID, metadata, f);
      && (!ok ==> r'.entries == r.entries)
      && (ok ==> forall k :: k in r'.entries <==> k in r.entries && !("events:" <= k) && !("stats:" <= k))
      && (forall k :: k in r'.entries ==> k in r.entries && r'.entries[k] == r.entries[k])
  {
    var (u, ok) := InsertWithID(r.store, id, userID, typeID, metadata, f);
    WritesClear(r, InsertEvent(r, id, userID, typeID, metadata, f).0, ok, u);
  }

  /** The store moved from s to u; the cache was cleared if a row appeared. */
  lemma WriteKeeps(r: Repo, u: State, wrote: bool)
    requires Fresh(r) && Valid(u) && Grows(r.store.types, u.types)
    requires !wrote ==> u.rows == r.store.rows
    ensures var m := r.(store := u); Fresh(if wrote then Invalidated(m) else m)
  {
    TypesStay(r.store.types, u.types, r.entries, r.entries);
    if wrote {
      NoPagesLeft(r.entries, u);
      TypesStay(r.store.types, u.types, r.entries, Cleared(Cleared(r.entries, EVENTS_PATTERN), STATS_PATTERN));
    } else {
      PagesStay(r.store, u, r.entries);
    }
  }

  lemma CreateFresh(r: Repo, userID: int, name: string, metadata: string, reply: Snowflake.Reply, f: Faults)
    requires Fresh(r)
    ensures Fresh(CreateEvent(r, userID, name, metadata, reply, f).0)
  {
    var (u, created) := Create(r.store, userID, name, metadata, reply, f);
    CreateKeeps(r.store, userID, name, metadata, reply, f);
    WriteKeeps(r, u, created.Some?);
  }

  lemma InsertFresh(r: Repo, id: int, userID: int, typeID: int, metadata: string, f: Faults)
    requires Fresh(r)
    ensures Fresh(InsertEvent(r, id, userID, typeID, metadata, f).0)
  {
    var (u, ok) := InsertWithID(r.store, id, userID, typeID, metadata, f);
    EventStores.PerformKeeps(r.store, EventStores.InsertOp(id, userID, typeID, metadata, f));
    WriteKeeps(r, u, ok);
  }

  lemma TypeFresh(r: Repo, name: string, f: Faults)
    requires Fresh(r)
    ensures Fresh(TypeId(r, name, f).0)
  {
    var (t, id) := GetType(r.store.types, name, f.names);
    var u := r.store.(types := t);
    GetTypeKeeps(r.store.types, name, f.names);
    RowsStayValid(r.store.rows, r.store.known, r.store.types, t);
    WriteKeeps(r, u, false);
    if id.Some? {
      PutType(t, r.entries, name);
      PutTypePages(u, r.entries, name, TypeEntry(t.table[name]));
    }
    TypeIdCases(r, name, f);
  }

  /** GetOrCreateTypeID changes nothing, or the types, or these and one entry. */
  lemma TypeIdCases(r: Repo, name: string, f: Faults)
    ensures var (t, id) := GetType(r.store.types, name, f.names);
      var u := r.store.(types := t);
      var r' := TypeId(r, name, f).0;
      || r' == r
      || r' == r.(store := u)
      || (id.Some? && r' == Repo(u, r.entries[EventTypeIdKey(name) := TypeEntry(id.value)], r.enabled))
  {
  }

  lemma PageRemains(s: State, entries: map<string, Entry>, some: map<string, Entry>, p: nat, l: nat, u: Option<int>)
    requires ValidTypes(s.types) && PageFits(s, entries, p, l, u)
    requires forall k :: k in some ==> k in entries && some[k] == entries[k]
    ensures PageFits(s, some, p, l, u)
  {
  }

  lemma ExpireFresh(r: Repo, keys: set<string>)
    requires Fresh(r)
    ensures Fresh(Expire(r, keys))
  {
    var e := r.entries - keys;
    TypesStay(r.store.types, r.store.types, r.entries, e);
    forall p: nat, l: nat, u ensures PageFits(r.store, e, p, l, u) {
      PageRemains(r.store, r.entries, e, p, l, u);
    }
  }

  // ------------------------------------------------------------------ all runs

  ghost predicate Next(r: Repo, r': Repo) {
    ValidTypes(r.store.types) && exists op :: r' == Serve(r, op)
  }

  ghost function NextOf(): (Repo, Repo) -> bool {
    (r, r') => Next(r, r')
  }

  ghost function FreshOf(): Repo -> bool {
    r => Fresh(r)
  }

  lemma ServeFresh(r: Repo, op: Request)
    requires Fresh(r)
    ensures Fresh(Serve(r, op))
  {
    match op
    case ReadRequest(page, limit, user, q) => ReadKeeps(r, page, limit, user, q);
    case CreateRequest(userID, name, metadata, reply, f) => CreateFresh(r, userID, name, metadata, reply, f);
    case InsertRequest(id, userID, typeID, metadata, f) => InsertFresh(r, id, userID, typeID, metadata, f);
    case TypeRequest(name, f) => TypeFresh(r, name, f);
    case ExpireRequest(keys) => ExpireFresh(r, keys);
  }

  lemma NextKeepsFresh(p: Repo, q: Repo)
    requires FreshOf()(p) && NextOf()(p, q)
    ensures FreshOf()(q)
  {
    var op :| q == Serve(p, op);
    ServeFresh(p, op);
  }

  lemma StartFresh(start: State, enabled: bool)
    requires Valid(start)
    ensures FreshOf()(Repo(start, map[], enabled))
  {
  }

  /** In every state that cached reads, creates, inserts, type look-ups and
      expiry lead to from an empty cache, every cached page and type id is what
      the store holds now. */
  lemma FreshInEveryRun(start: State, enabled: bool, k: nat, r: Repo)
    requires Valid(start)
    requires Machines.Reaches(Repo(start, map[], enabled), NextOf(), k, r)
    ensures Fresh(r)
  {
    var init, next, inv := Repo(start, map[], enabled), NextOf(), FreshOf();
    StartFresh(start, enabled);
    forall p, q | inv(p) && next(p, q) ensures inv(q) {
      NextKeepsFresh(p, q);
    }
    Machines.Invariance(init, next, inv, k, r);
    assert inv(r);
  }

  /** So a cached read returns what an uncached one would. */
  lemma CachedReadsAgree(start: State, enabled: bool, k: nat, r: Repo, page: nat, limit: nat, user: Option<int>, q: Queries)
    requires Valid(start)
    requires Machines.Reaches(Repo(start, map[], enabled), NextOf(), k, r)
    ensures ValidTypes(r.store.types)
    ensures var e := ReadPage(r, page, limit, user, q).1;
      if e.Some? then e.value == PageEntry(Answer(r.store, page, limit, user)) else !q.BothAnswer? || Pages.TooFar(page, limit)
    ensures ReadPage(r, page, limit, user, q).1.Some? <==>
      Lookup(r, EventsKey(page, limit, user)).Some? || (q.BothAnswer? && !Pages.TooFar(page, limit))
  {
    FreshInEveryRun(start, enabled, k, r);
    ReadAnswers(r, page, limit, user, q);
    ReadsUnless(r, page, limit, user, q);
  }

  // ------------------------------------------------------------- queue flushes

  ghost predicate Touches(es: seq<Event>, user: Option<int>) {
    exists i :: 0 <= i < |es| && (user.None? || es[i].userID == user.value)
  }

  lemma FlushedRows(s: State, es: seq<Event>, f: Faults)
    requires Valid(s) && Batch(s, es, f).1.Ok?
    ensures var u := Batch(s, es, f).0;
      && (forall id :: id in s.rows ==> id in u.rows && u.rows[id] == s.rows[id])
      && (forall id :: id in u.rows && id !in s.rows ==> exists i :: 0 <= i < |es| && es[i].id == id)
      && (forall i :: 0 <= i < |es| ==>
            es[i].id !in s.rows && es[i].id in u.rows && u.rows[es[i].id].userID == es[i].userID)
  {
    BatchRows(s, es, f);
    FaultsOnlyFail(s, es, f);
    BatchSucceedsIff(s, es);
    assert forall i :: 0 <= i < |es| ==> Acceptable(s, es[i]);
  }

  /** A queue flush does not clear the cache. A page that was right before it is
      still right after it if and only if no event in it belongs to the page's
      user. */
  lemma FlushStaleIff(s: State, es: seq<Event>, f: Faults, page: nat, limit: nat, user: Option<int>)
    requires Valid(s) && Batch(s, es, f).1.Ok?
    ensures ValidTypes(Batch(s, es, f).0.types)
    ensures Answer(Batch(s, es, f).0, page, limit, user) == Answer(s, page, limit, user) <==> !Touches(es, user)
  {
    var u := Batch(s, es, f).0;
    BatchKeeps(s, es, f);
    FlushedRows(s, es, f);
    if Touches(es, user) {
      TouchedGrows(s, u, es, user);
    } else {
      UntouchedStays(s.rows, u.rows, es, user);
      AnswerStable(s, u, page, limit, user);
    }
  }

  lemma TouchedGrows(s: State, u: State, es: seq<Event>, user: Option<int>)
    requires Touches(es, user)
    requires forall id :: id in s.rows ==> id in u.rows && u.rows[id] == s.rows[id]
    requires forall i :: 0 <= i < |es| ==>
      es[i].id !in s.rows && es[i].id in u.rows && u.rows[es[i].id].userID == es[i].userID
    ensures |Matching(u.rows, user)| > |Matching(s.rows, user)|
  {
    var i :| 0 <= i < |es| && (user.None? || es[i].userID == user.value);
    var before, after := Matching(s.rows, user), Matching(u.rows, user);
    assert es[i].id in after && es[i].id !in before;
    forall id | id in before ensures id in after - {es[i].id} {
      assert id in s.rows;
    }
    SubsetSize(before, after - {es[i].id});
  }

  lemma UntouchedStays(old_: map<int, Row>, new_: map<int, Row>, es: seq<Event>, user: Option<int>)
    requires !Touches(es, user)
    requires forall id :: id in old_ ==> id in new_ && new_[id] == old_[id]
    requires forall id :: id in new_ && id !in old_ ==> exists i :: 0 <= i < |es| && es[i].id == id
    requires forall i :: 0 <= i < |es| ==> es[i].id in new_ && new_[es[i].id].userID == es[i].userID
    ensures Matching(new_, user) == Matching(old_, user)
    ensures forall id :: id in Matching(old_, user) ==> new_[id] == old_[id]
  {
    forall id | id in Matching(new_, user) ensures id in Matching(old_, user) {
      assert id in new_;
    }
    forall id | id in Matching(old_, user) ensures id in Matching(new_, user) && new_[id] == old_[id] {
      assert id in old_;
    }
  }
}
