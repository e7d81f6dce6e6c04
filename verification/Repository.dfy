/** The cached repository: what the page cache may hold, and why a cached read
    is as good as a query. */
module Repository {
  import opened Events
  import opened EventStores
  import opened CacheKeys
  import opened Pagination
  import Snowflake
  import SnowflakeFleet

  // -------------------------------------------------------------- the queries

  /** A row of the page query, with the type's name joined in. */
  datatype Listed = Listed(id: int, row: Row, typeName: string)
  datatype Page = Page(data: seq<Listed>, limit: nat, page: nat, total: nat)

  /** Rows of one user, or of all. */
  function Matching(rows: map<int, Row>, user: Option<int>): set<int> {
    set id | id in rows && (user.None? || rows[id].userID == user.value)
  }

  function Joined(s: State, user: Option<int>): set<int> {
    set id | id in Matching(s.rows, user) && s.rows[id].typeID in s.types.table.Values
  }

  /** The one name with this id. */
  function TypeName(t: Types, typeID: int): (name: string)
    requires ValidTypes(t) && typeID in t.table.Values
    ensures name in t.table && t.table[name] == typeID
  {
    var name :| name in t.table && t.table[name] == typeID;
    name
  }

  function ListedRow(s: State, id: int): Listed
    requires ValidTypes(s.types)
    requires id in s.rows && s.rows[id].typeID in s.types.table.Values
  {
    Listed(id, s.rows[id], TypeName(s.types, s.rows[id].typeID))
  }

  /** The whole list that the page query cuts its page from. */
  function FullList(s: State, user: Option<int>): seq<Listed>
    requires ValidTypes(s.types)
  {
    var ids := OrderedDesc(Joined(s, user));
    seq(|ids|, i requires 0 <= i < |ids| => assert ids[i] in ids; ListedRow(s, ids[i]))
  }

  /** GetPaginated and GetTotal: what an uncached read returns. */
  function Answer(s: State, page: nat, limit: nat, user: Option<int>): Page
    requires ValidTypes(s.types)
  {
    Page(GetPage(FullList(s, user), page, limit), limit, page, |Matching(s.rows, user)|)
  }

  /** No row is lost in the join. */
  lemma JoinKeepsAll(s: State, user: Option<int>)
    requires Valid(s)
    ensures Joined(s, user) == Matching(s.rows, user)
  {
    forall id | id in Matching(s.rows, user) ensures id in Joined(s, user) {
      assert id in s.rows;
    }
  }

  lemma ListEntry(s: State, user: Option<int>, i: nat)
    requires Valid(s) && i < |FullList(s, user)|
    ensures |OrderedDesc(Joined(s, user))| == |FullList(s, user)|
    ensures var x := FullList(s, user)[i];
      && x.id == OrderedDesc(Joined(s, user))[i]
      && x.id in s.rows && x.row == s.rows[x.id]
      && x.typeName in s.types.table && s.types.table[x.typeName] == x.row.typeID
      && (user.Some? ==> x.row.userID == user.value)
  {
    var ids := OrderedDesc(Joined(s, user));
    assert ids[i] in ids;
  }

  /** The list holds every row of the user, or of all users, once, the larger id
      first, each as it is stored, with its own id and the name of its type. */
  lemma FullListIs(s: State, user: Option<int>)
    requires Valid(s)
    ensures forall i :: 0 <= i < |FullList(s, user)| ==>
      var x := FullList(s, user)[i];
      && x.id in s.rows && x.row == s.rows[x.id]
      && x.typeName in s.types.table && s.types.table[x.typeName] == x.row.typeID
      && (user.Some? ==> x.row.userID == user.value)
    ensures forall i, j :: 0 <= i < j < |FullList(s, user)| ==> FullList(s, user)[i].id > FullList(s, user)[j].id
    ensures forall id :: id in s.rows && (user.None? || s.rows[id].userID == user.value) ==>
      exists i :: 0 <= i < |FullList(s, user)| && FullList(s, user)[i].id == id
  {
    var list := FullList(s, user);
    forall i | 0 <= i < |list|
      ensures list[i].id in s.rows && list[i].row == s.rows[list[i].id]
      ensures list[i].typeName in s.types.table && s.types.table[list[i].typeName] == list[i].row.typeID
      ensures user.Some? ==> list[i].row.userID == user.value
    {
      ListEntry(s, user, i);
    }
    forall i, j | 0 <= i < j < |list| ensures list[i].id > list[j].id {
      ListEntry(s, user, i);
      ListEntry(s, user, j);
    }
    forall id | id in s.rows && (user.None? || s.rows[id].userID == user.value)
      ensures exists i :: 0 <= i < |list| && list[i].id == id
    {
      var i := ListedAt(s, user, id);
    }
  }

  lemma ListedAt(s: State, user: Option<int>, id: int) returns (i: nat)
    requires Valid(s) && id in s.rows && (user.None? || s.rows[id].userID == user.value)
    ensures i < |FullList(s, user)| && FullList(s, user)[i].id == id
  {
    var ids := OrderedDesc(Joined(s, user));
    JoinKeepsAll(s, user);
    assert id in Matching(s.rows, user);
    assert id in ids;
    i :| 0 <= i < |ids| && ids[i] == id;
    ListEntry(s, user, i);
  }

  /** Where a page's entries stand in the list. */
  lemma PageEntryAt<T>(list: seq<T>, page: nat, limit: nat)
    ensures |GetPage(list, page, limit)| <= limit
    ensures forall i :: 0 <= i < |GetPage(list, page, limit)| ==>
      Offset(page, limit) + i < |list| && GetPage(list, page, limit)[i] == list[Offset(page, limit) + i]
  {
  }

  lemma PageRows(s: State, page: nat, limit: nat, user: Option<int>, i: nat)
    requires Valid(s) && i < |GetPage(FullList(s, user), page, limit)|
    ensures var x := GetPage(FullList(s, user), page, limit)[i];
      && x.id in s.rows && x.row == s.rows[x.id]
      && x.typeName in s.types.table && s.types.table[x.typeName] == x.row.typeID
      && (user.Some? ==> x.row.userID == user.value)
  {
    PageEntryAt(FullList(s, user), page, limit);
    ListEntry(s, user, Offset(page, limit) + i);
  }

  lemma PageDescends(s: State, page: nat, limit: nat, user: Option<int>, i: nat, j: nat)
    requires Valid(s) && i < j < |GetPage(FullList(s, user), page, limit)|
    ensures GetPage(FullList(s, user), page, limit)[i].id > GetPage(FullList(s, user), page, limit)[j].id
  {
    PageEntryAt(FullList(s, user), page, limit);
    ListEntry(s, user, Offset(page, limit) + i);
    ListEntry(s, user, Offset(page, limit) + j);
  }

  lemma AnswerParts(s: State, page: nat, limit: nat, user: Option<int>)
    requires Valid(s)
    ensures var a := Answer(s, page, limit, user);
      && a.page == page && a.limit == limit && a.total == |FullList(s, user)| && |a.data| <= limit
      && a.data == GetPage(FullList(s, user), page, limit)
  {
    JoinKeepsAll(s, user);
    PageEntryAt(FullList(s, user), page, limit);
  }

  /** What an uncached read returns: the page and limit asked for, the number of
      the user's rows, and stored rows as they are, larger ids first. */
  lemma AnswerIs(s: State, page: nat, limit: nat, user: Option<int>)
    requires Valid(s)
    ensures var a := Answer(s, page, limit, user);
      a.page == page && a.limit == limit && a.total == |FullList(s, user)| && |a.data| <= limit
    ensures var data := Answer(s, page, limit, user).data;
      && (forall i, j :: 0 <= i < j < |data| ==> data[i].id > data[j].id)
      && (forall i :: 0 <= i < |data| ==>
            && data[i].id in s.rows && data[i].row == s.rows[data[i].id]
            && data[i].typeName in s.types.table && s.types.table[data[i].typeName] == data[i].row.typeID
            && (user.Some? ==> data[i].row.userID == user.value))
  {
    AnswerParts(s, page, limit, user);
    var data := GetPage(FullList(s, user), page, limit);
    forall i | 0 <= i < |data|
      ensures data[i].id in s.rows && data[i].row == s.rows[data[i].id]
      ensures data[i].typeName in s.types.table && s.types.table[data[i].typeName] == data[i].row.typeID
      ensures user.Some? ==> data[i].row.userID == user.value
    {
      PageRows(s, page, limit, user, i);
    }
    forall i, j | 0 <= i < j < |data| ensures data[i].id > data[j].id {
      PageDescends(s, page, limit, user, i, j);
    }
  }

  /** The reported total is the length of the list, and the pages it announces
      make up the list. */
  lemma PagesOfStore(s: State, user: Option<int>, limit: nat)
    requires Valid(s) && limit > 0 && |s.rows| <= TWO64
    ensures |FullList(s, user)| == Answer(s, 1, limit, user).total
    ensures Pages(FullList(s, user), limit, PageCount(Answer(s, 1, limit, user).total, limit)) == FullList(s, user)
  {
    JoinKeepsAll(s, user);
    MatchingBound(s.rows, user);
    PagesAreList(FullList(s, user), limit);
  }

  lemma MatchingBound(rows: map<int, Row>, user: Option<int>)
    ensures |Matching(rows, user)| <= |rows|
  {
    SubsetSize(Matching(rows, user), rows.Keys);
  }

  lemma {:induction false} SubsetSize<T>(a: set<T>, b: set<T>)
    requires a <= b
    ensures |a| <= |b|
  {
    if a != {} {
      var x := Element(a);
      SubsetSize(a - {x}, b - {x});
    }
  }

  function ListedIds(list: seq<Listed>): seq<int> {
    seq(|list|, i requires 0 <= i < |list| => list[i].id)
  }

  /** When one generator made the ids of the stored events, the list of all
      events, and that of any user's, is in reverse order of generation: events
      that were never stored or belong to others are passed over. */
  lemma NewestEventsFirst(g: Snowflake.Gen, fleet: SnowflakeFleet.Fleet, s: State, user: Option<int>)
    requires SnowflakeFleet.Fresh([g]) && SnowflakeFleet.GoodEpoch(g.epoch)
    requires SnowflakeFleet.Reachable([g], fleet)
    requires Valid(s) && forall id :: id in s.rows ==> id in Ids(fleet.log)
    ensures ListedIds(FullList(s, user)) == Reversed(Kept(Ids(fleet.log), Matching(s.rows, user)))
  {
    JoinKeepsAll(s, user);
    NewestFirst(g, fleet, Matching(s.rows, user));
    assert ListedIds(FullList(s, user)) == OrderedDesc(Joined(s, user));
  }

  /** Looking at the same rows with more types known gives the same answers. */
  lemma AnswerStable(s: State, u: State, page: nat, limit: nat, user: Option<int>)
    requires Valid(s) && Valid(u) && Grows(s.types, u.types)
    requires Matching(u.rows, user) == Matching(s.rows, user)
    requires forall id :: id in Matching(s.rows, user) ==> u.rows[id] == s.rows[id]
    ensures Answer(u, page, limit, user) == Answer(s, page, limit, user)
  {
    JoinKeepsAll(s, user);
    JoinKeepsAll(u, user);
    forall id | id in Joined(s, user) ensures ListedRow(u, id) == ListedRow(s, id) {
      NameStable(s.types, u.types, s.rows[id].typeID);
    }
    ListStable(s, u, user);
  }

  lemma ListStable(s: State, u: State, user: Option<int>)
    requires ValidTypes(s.types) && ValidTypes(u.types) && Joined(u, user) == Joined(s, user)
    requires forall id :: id in Joined(s, user) ==> ListedRow(u, id) == ListedRow(s, id)
    ensures FullList(u, user) == FullList(s, user)
  {
    var ids, a, b := OrderedDesc(Joined(s, user)), FullList(s, user), FullList(u, user);
    forall i | 0 <= i < |ids| ensures a[i] == b[i] {
      assert ids[i] in ids;
    }
  }

  lemma NameStable(t: Types, u: Types, typeID: int)
    requires ValidTypes(t) && ValidTypes(u) && Grows(t, u) && typeID in t.table.Values
    ensures typeID in u.table.Values && TypeName(u, typeID) == TypeName(t, typeID)
  {
    assert u.table[TypeName(t, typeID)] == typeID;
  }

  // ---------------------------------------------------------------- the cache

  /** What the cache stores under a key: a page, or a type's id. */
  datatype Entry = PageEntry(page: Page) | TypeEntry(typeID: int)

  /** Store and cache together; `enabled` is whether there is a cache. */
  datatype Repo = Repo(store: State, entries: map<string, Entry>, enabled: bool)

  /** The page, if cached, is what the query would return now. */
  ghost predicate PageFits(s: State, entries: map<string, Entry>, page: nat, limit: nat, user: Option<int>)
    requires ValidTypes(s.types)
  {
    var key := EventsKey(page, limit, user);
    key in entries ==> entries[key] == PageEntry(Answer(s, page, limit, user))
  }

  /** The type id, if cached, is the table's. */
  ghost predicate TypeFits(t: Types, entries: map<string, Entry>, name: string) {
    var key := EventTypeIdKey(name);
    key in entries ==> name in t.table && entries[key] == TypeEntry(t.table[name])
  }

  ghost predicate PagesFresh(s: State, entries: map<string, Entry>)
    requires ValidTypes(s.types)
  {
    forall page: nat, limit: nat, user :: PageFits(s, entries, page, limit, user)
  }

  ghost predicate TypesFresh(t: Types, entries: map<string, Entry>) {
    forall name :: TypeFits(t, entries, name)
  }

  ghost predicate Fresh(r: Repo) {
    && Valid(r.store) && PagesFresh(r.store, r.entries) && TypesFresh(r.store.types, r.entries)
    && (!r.enabled ==> r.entries == map[])
  }

  function Lookup(r: Repo, key: string): Option<Entry> {
    if r.enabled && key in r.entries then Some(r.entries[key]) else None
  }

  function Put(r: Repo, key: string, e: Entry): Repo {
    if r.enabled then r.(entries := r.entries[key := e]) else r
  }

  /** How the two queries of a miss go. */
  datatype Queries = BothAnswer | PageQueryFails | CountQueryFails

  /** Both queries answer; the page query also has to have an offset the database
      takes. */
  predicate Answered(q: Queries, page: nat, limit: nat) {
    q.BothAnswer? && !TooFar(page, limit)
  }

  /** GetPaginatedCached: the entry itself on a hit, the queries on a miss; an
      error is returned and not remembered. */
  function ReadPage(r: Repo, page: nat, limit: nat, user: Option<int>, q: Queries): (Repo, Option<Entry>)
    requires ValidTypes(r.store.types)
  {
    var key := EventsKey(page, limit, user);
    match Lookup(r, key)
    case Some(e) => (r, Some(e))
    case None =>
      if !Answered(q, page, limit) then (r, None)
      else
        var e := PageEntry(Answer(r.store, page, limit, user));
        (Put(r, key, e), Some(e))
  }

  /** Everything a pattern matches is gone. */
  function Cleared(entries: map<string, Entry>, pattern: string): map<string, Entry> {
    map k | k in entries && !Glob(pattern, k) :: entries[k]
  }

  /** invalidateCaches */
  function Invalidated(r: Repo): Repo {
    if r.enabled then r.(entries := Cleared(Cleared(r.entries, EVENTS_PATTERN), STATS_PATTERN)) else r
  }

  /** With a cache, no page and no stats entry is left and every other entry stays;
      the store is not touched. */
  lemma InvalidatedIs(r: Repo)
    ensures Invalidated(r).store == r.store && Invalidated(r).enabled == r.enabled
    ensures r.enabled ==> forall k :: k in Invalidated(r).entries <==>
      k in r.entries && !("events:" <= k) && !("stats:" <= k)
    ensures forall k :: k in Invalidated(r).entries ==> k in r.entries && Invalidated(r).entries[k] == r.entries[k]
    ensures !r.enabled ==> Invalidated(r) == r
  {
    forall k ensures (Glob(EVENTS_PATTERN, k) <==> "events:" <= k) && (Glob(STATS_PATTERN, k) <==> "stats:" <= k) {
      PatternsAreFamilies(k);
    }
  }

  function CreateEvent(r: Repo, userID: int, name: string, metadata: string, reply: Snowflake.Reply, f: Faults): (Repo, Option<NewRow>) {
    var (s, created) := Create(r.store, userID, name, metadata, reply, f);
    (if created.Some? then Invalidated(r.(store := s)) else r.(store := s), created)
  }

  function InsertEvent(r: Repo, id: int, userID: int, typeID: int, metadata: string, f: Faults): (Repo, bool) {
    var (s, ok) := InsertWithID(r.store, id, userID, typeID, metadata, f);
    (if ok then Invalidated(r.(store := s)) else r.(store := s), ok)
  }

  /** GetOrCreateTypeID, with its own family of cache keys. */
  function TypeId(r: Repo, name: string, f: Faults): (Repo, Option<Entry>) {
    var key := EventTypeIdKey(name);
    match Lookup(r, key)
    case Some(e) => (r, Some(e))
    case None =>
      var (t, id) := GetType(r.store.types, name, f.names);
      var r' := r.(store := r.store.(types := t));
      if id.None? then (r', None) else (Put(r', key, TypeEntry(id.value)), Some(TypeEntry(id.value)))
  }

  /** Entries expire at any time. */
  function Expire(r: Repo, keys: set<string>): Repo {
    r.(entries := r.entries - keys)
  }

  datatype Request =
    | ReadRequest(page: nat, limit: nat, user: Option<int>, q: Queries)
    | CreateRequest(userID: int, name: string, metadata: string, reply: Snowflake.Reply, f: Faults)
    | InsertRequest(id: int, userID: int, typeID: int, metadata: string, f: Faults)
    | TypeRequest(name: string, f: Faults)
    | ExpireRequest(keys: set<string>)

  function Serve(r: Repo, op: Request): Repo
    requires ValidTypes(r.store.types)
  {
    match op
    case ReadRequest(page, limit, user, q) => ReadPage(r, page, limit, user, q).0
    case CreateRequest(userID, name, metadata, reply, f) => CreateEvent(r, userID, name, metadata, reply, f).0
    case InsertRequest(id, userID, typeID, metadata, f) => InsertEvent(r, id, userID, typeID, metadata, f).0
    case TypeRequest(name, f) => TypeId(r, name, f).0
    case ExpireRequest(keys) => Expire(r, keys)
  }
}
