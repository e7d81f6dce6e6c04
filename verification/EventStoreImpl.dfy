/** The event store as it runs: tables and cache updated in place, and the
    batch insert with its map, its list of names and its column arrays. */
module EventStoreImpl {
  import opened Events
  import opened EventStores
  import Persistence
  import Snowflake
  import Pagination
  import Repository

  class EventStore {
    var table: map<string, int>
    var next: int
    var cache: map<string, int>
    var rows: map<int, Row>
    const known: Known
    var warmed: bool

    function State(): State
      reads this
    {
      EventStores.State(Types(table, next, cache), rows, known, warmed)
    }

    ghost predicate Valid()
      reads this
    {
      EventStores.Valid(State())
    }

    constructor (types: Types, rows: map<int, Row>, known: Known)
      requires types.cache == map[]
      requires EventStores.Valid(EventStores.State(types, rows, known, false))
      ensures Valid() && State() == EventStores.State(types, rows, known, false)
    {
      table, next, cache := types.table, types.next, map[];
      this.rows, this.known, warmed := rows, known, false;
    }

    /** Loads the type table, or the part of it that the query returned. */
    method WarmTypeCache(f: Faults) returns (ok: bool)
      requires !warmed
      modifies this`cache, this`warmed
      ensures State() == Warm(old(State()), f) && ok == !f.warm
    {
      Load(map n | n in table && (f.warm ==> n in f.loaded) :: table[n]);
      warmed := true;
      ok := !f.warm;
    }

    /** Stores row by row, in the order they come. */
    method Load(seen: map<string, int>)
      modifies this`cache
      ensures cache == old(cache) + seen
    {
      var left := seen.Keys;
      assert Only(seen, left) == seen;
      while left != {}
        invariant left <= seen.Keys
        invariant cache + Only(seen, left) == old(cache) + seen
        decreases |left|
      {
        var n := Persistence.PickKey(left);
        LoadOne(cache, seen, left, n);
        cache := cache[n := seen[n]];
        left := left - {n};
      }
      assert Only(seen, {}) == map[];
    }

    /** The id is the table's and the cache's, and stays so; there is none only
        for a name not cached that is too long or whose query failed. */
    method GetOrCreateTypeID(name: string, f: Faults) returns (id: Option<int>)
      requires ValidTypes(State().types)
      modifies this`table, this`next, this`cache
      ensures ValidTypes(State().types) && Grows(old(State()).types, State().types)
      ensures id.Some? ==> name in table && table[name] == id.value && name in cache && cache[name] == id.value
      ensures id.None? <==> name !in old(cache) && (name in f.names || |name| > 255)
      ensures (Types(table, next, cache), id) == GetType(old(State()).types, name, f.names)
    {
      GetTypeKeeps(State().types, name, f.names);
      id := LookUp(name, f);
    }

    /** The cache, then the upsert. */
    method LookUp(name: string, f: Faults) returns (id: Option<int>)
      modifies this`table, this`next, this`cache
      ensures (Types(table, next, cache), id) == GetType(old(State()).types, name, f.names)
    {
      if name in cache {
        return Some(cache[name]);
      }
      if name in f.names || |name| > MAX_NAME {
        return None;
      }
      var drawn := next;
      next := next + 1;
      if name !in table {
        table := table[name := drawn];
      }
      cache := cache[name := table[name]];
      id := Some(table[name]);
    }

    /** The page query; the database refuses an offset of more than 63 bits. */
    method GetPaginated(page: nat, limit: nat, user: Option<int>) returns (data: Option<seq<Repository.Listed>>)
      requires ValidTypes(State().types)
      ensures data == Pagination.QueryPage(Repository.FullList(State(), user), page, limit)
    {
      var offset := Pagination.Offset(page, limit);
      if Pagination.TooFar(page, limit) {
        return None;
      }
      data := Some(Pagination.Slice(Repository.FullList(State(), user), offset, limit));
    }

    /** The count query. */
    method GetTotal(user: Option<int>) returns (total: nat)
      ensures total == |Repository.Matching(rows, user)|
    {
      total := |Repository.Matching(rows, user)|;
    }

    /** CreateEventWithType, with the generator's answer as an argument. */
    method CreateEventWithType(userID: int, name: string, metadata: string, reply: Snowflake.Reply, f: Faults)
        returns (created: Option<NewRow>)
      requires Valid()
      modifies this
      ensures Valid()
      ensures created.None? ==> rows == old(rows)
      ensures created.Some? ==>
                && reply == Snowflake.Id(created.value.id) && created.value.id !in old(rows)
                && rows == old(rows)[created.value.id := created.value.row]
                && created.value.row.userID == userID && name in table && created.value.row.typeID == table[name]
                && created.value.row.metadata == if metadata == "" then "{}" else metadata
      ensures (State(), created) == Create(old(State()), userID, name, metadata, reply, f)
    {
      CreateKeeps(State(), userID, name, metadata, reply, f);
      CreateRows(State(), userID, name, metadata, reply, f);
      created := CreateRow(userID, name, metadata, reply, f);
    }

    method CreateRow(userID: int, name: string, metadata: string, reply: Snowflake.Reply, f: Faults)
        returns (created: Option<NewRow>)
      modifies this
      ensures (State(), created) == Create(old(State()), userID, name, metadata, reply, f)
    {
      ghost var s := State();
      var data := if |metadata| == 0 then "{}" else metadata;
      if !warmed {
        var ok := WarmTypeCache(f);
        if !ok {
          return None;
        }
      }
      assert State() == Warm(s, f);
      var typeID := LookUp(name, f);
      if typeID.None? || !reply.Id? {
        return None;
      }
      var n := NewRow(reply.id, Row(userID, typeID.value, data));
      if f.insert || !Insertable(rows, known, table.Values, n) {
        return None;
      }
      rows := rows[n.id := n.row];
      created := Some(n);
    }

    method InsertEventWithID(id: int, userID: int, typeID: int, metadata: string, f: Faults) returns (ok: bool)
      requires Valid()
      modifies this`rows
      ensures Valid()
      ensures ok <==>
                && !f.insert && id !in old(rows) && typeID in table.Values
                && userID in known.users && known.json(if metadata == "" then "{}" else metadata)
      ensures rows == if ok then old(rows)[id := Row(userID, typeID, if metadata == "" then "{}" else metadata)] else old(rows)
      ensures (State(), ok) == InsertWithID(old(State()), id, userID, typeID, metadata, f)
    {
      PerformKeeps(State(), InsertOp(id, userID, typeID, metadata, f));
      var n := NewRow(id, Row(userID, typeID, if |metadata| == 0 then "{}" else metadata));
      if f.insert || !Insertable(rows, known, table.Values, n) {
        return false;
      }
      rows := rows[n.id := n.row];
      ok := true;
    }

    /** The first pass: refuses an empty type, lists each type once. */
    method UniqueTypes(es: seq<Event>) returns (ok: bool, names: seq<string>)
      ensures ok <==> "" !in Names(es)
      ensures ok ==> names == Firsts(Names(es))
    {
      var typeMap: map<string, int> := map[];
      names := [];
      for i := 0 to |es|
        invariant "" !in Names(es)[..i]
        invariant names == Firsts(Names(es)[..i])
        invariant forall n :: n in typeMap <==> n in Names(es)[..i]
      {
        var name := es[i].typeName;
        assert Names(es)[i] == name;
        assert Names(es)[..i + 1] == Names(es)[..i] + [name];
        if name == "" {
          return false, names;
        }
        if name !in typeMap {
          names := names + [name];
        }
        typeMap := typeMap[name := 0];
      }
      assert Names(es)[..|es|] == Names(es);
      ok := true;
    }

    /** The second pass: an id for each type. */
    method TypeIds(names: seq<string>, f: Faults) returns (bad: Option<string>, typeMap: map<string, int>)
      requires ValidTypes(State().types)
      modifies this`table, this`next, this`cache
      ensures (State().types, bad) == Resolve(old(State()).types, names, f.names)
      ensures bad.None? ==> Mirrors(typeMap, names, cache)
    {
      ghost var t := State().types;
      typeMap := map[];
      for i := 0 to |names|
        invariant (State().types, None) == Resolve(t, names[..i], f.names)
        invariant Mirrors(typeMap, names[..i], cache)
      {
        ghost var u := State().types;
        NextName(t, names, i, u, f.names);
        var id := LookUp(names[i], f);
        if id.None? {
          ResolveStops(t, names, i + 1, f.names);
          return Some(names[i]), typeMap;
        }
        MirrorsOneMore(typeMap, names[..i], u, State().types, names[i]);
        typeMap := typeMap[names[i] := id.value];
      }
      assert names[..|names|] == names;
      bad := None;
    }

    /** The third pass: one array per column. */
    method Columns(es: seq<Event>, typeMap: map<string, int>)
        returns (ids: array<int>, userIDs: array<int>, typeIDs: array<int>, metadata: array<string>)
      requires forall i :: 0 <= i < |es| ==> es[i].typeName in typeMap
      ensures ids.Length == userIDs.Length == typeIDs.Length == metadata.Length == |es|
      ensures forall k :: 0 <= k < |es| ==>
                && ids[k] == es[k].id && userIDs[k] == es[k].userID && typeIDs[k] == typeMap[es[k].typeName]
                && metadata[k] == if es[k].metadata == "" then "{}" else es[k].metadata
      ensures Unnest(ids[..], userIDs[..], typeIDs[..], metadata[..]) == RowsOf(typeMap, es)
    {
      ids, userIDs, typeIDs, metadata := new int[|es|], new int[|es|], new int[|es|], new string[|es|](_ => "");
      for i := 0 to |es|
        invariant forall k :: 0 <= k < i ==>
          && ids[k] == es[k].id && userIDs[k] == es[k].userID
          && typeIDs[k] == typeMap[es[k].typeName]
          && metadata[k] == if es[k].metadata == "" then "{}" else es[k].metadata
      {
        ids[i], userIDs[i] := es[i].id, es[i].userID;
        typeIDs[i] := typeMap[es[i].typeName];
        metadata[i] := if |es[i].metadata| == 0 then "{}" else es[i].metadata;
      }
    }

    /** Inserts a batch; what that means is in EventStores.Batch. */
    method BatchInsert(es: seq<Event>, f: Faults) returns (out: Outcome)
      requires Valid()
      modifies this
      ensures Valid()
      ensures !out.Ok? ==> rows == old(rows)
      ensures out.Ok? ==> rows.Keys == old(rows).Keys + IdSet(es)
      ensures out.Ok? ==> forall i :: 0 <= i < |es| ==>
                && es[i].typeName in table && es[i].id in rows
                && rows[es[i].id] == Row(es[i].userID, table[es[i].typeName], if es[i].metadata == "" then "{}" else es[i].metadata)
      ensures (State(), out) == Batch(old(State()), es, f)
    {
      BatchKeeps(State(), es, f);
      BatchRows(State(), es, f);
      out := BatchInsertContext(es, f);
    }

    method BatchInsertContext(es: seq<Event>, f: Faults) returns (out: Outcome)
      requires ValidTypes(State().types)
      modifies this
      ensures (State(), out) == Batch(old(State()), es, f)
    {
      ghost var s := State();
      if |es| == 0 {
        return Ok;
      }
      if !warmed {
        var ok := WarmTypeCache(f);
        if !ok {
          return WarmUpFailed;
        }
      }
      assert State() == Warm(s, f);
      WarmKeeps(s, f);
      var ok, names := UniqueTypes(es);
      if !ok {
        return EmptyType;
      }
      NamesListed(es);
      out := InsertNamed(es, names, f);
    }

    method InsertNamed(es: seq<Event>, names: seq<string>, f: Faults) returns (out: Outcome)
      requires ValidTypes(State().types)
      requires forall i :: 0 <= i < |es| ==> es[i].typeName in names
      modifies this
      ensures (State(), out) == InsertTyped(old(State()), es, names, f)
    {
      var bad, typeMap := TypeIds(names, f);
      if bad.Some? {
        return TypeFailed(bad.value);
      }
      var ids, userIDs, typeIDs, metadata := Columns(es, typeMap);
      assert RowsOf(typeMap, es) == RowsOf(cache, es);
      var r := InsertAll(rows, known, table.Values, Unnest(ids[..], userIDs[..], typeIDs[..], metadata[..]));
      if f.insert || r.None? {
        return InsertFailed;
      }
      rows := r.value;
      out := Ok;
    }
  }

  lemma NamesListed(es: seq<Event>)
    ensures forall i :: 0 <= i < |es| ==> es[i].typeName in Firsts(Names(es))
  {
    FirstsSame(Names(es));
    assert forall i :: 0 <= i < |es| ==> Names(es)[i] == es[i].typeName;
  }

  function Only(m: map<string, int>, keys: set<string>): map<string, int> {
    map n | n in m && n in keys :: m[n]
  }

  lemma LoadOne(c: map<string, int>, m: map<string, int>, left: set<string>, n: string)
    requires n in left && n in m
    ensures c[n := m[n]] + Only(m, left - {n}) == c + Only(m, left)
  {
  }

  /** The rows that parallel columns stand for. */
  function Unnest(ids: seq<int>, userIDs: seq<int>, typeIDs: seq<int>, metadata: seq<string>): seq<NewRow>
    requires |ids| == |userIDs| == |typeIDs| == |metadata|
  {
    seq(|ids|, i requires 0 <= i < |ids| => NewRow(ids[i], Row(userIDs[i], typeIDs[i], metadata[i])))
  }

  /** The batch's own map agrees with the cache on the names seen so far. */
  ghost predicate Mirrors(typeMap: map<string, int>, names: seq<string>, cache: map<string, int>) {
    forall n :: n in names ==> n in cache && n in typeMap && typeMap[n] == cache[n]
  }

  lemma MirrorsOneMore(typeMap: map<string, int>, names: seq<string>, t: Types, u: Types, name: string)
    requires Mirrors(typeMap, names, t.cache) && Grows(t, u)
    ensures name in u.cache ==> Mirrors(typeMap[name := u.cache[name]], names + [name], u.cache)
  {
  }

  /** Looking up one more name. */
  lemma NextName(t: Types, names: seq<string>, i: nat, u: Types, faults: set<string>)
    requires ValidTypes(t) && i < |names| && Resolve(t, names[..i], faults) == (u, None)
    ensures names[..i + 1] == names[..i] + [names[i]]
    ensures var (v, id) := GetType(u, names[i], faults);
      && Resolve(t, names[..i + 1], faults) == (v, if id.Some? then None else Some(names[i]))
      && Grows(u, v) && (id.Some? ==> names[i] in v.cache && v.cache[names[i]] == id.value)
  {
    assert names[..i + 1] == names[..i] + [names[i]];
    ResolveSnoc(t, names[..i], names[i], faults);
    ResolveKeeps(t, names[..i], faults);
    GetTypeKeeps(u, names[i], faults);
  }

  /** Nothing is looked up after a failure. */
  lemma {:induction false} ResolveStops(t: Types, names: seq<string>, k: nat, faults: set<string>)
    requires k <= |names| && Resolve(t, names[..k], faults).1.Some?
    ensures Resolve(t, names, faults) == Resolve(t, names[..k], faults)
    decreases |names|
  {
    if k < |names| {
      var pre := names[..|names| - 1];
      assert pre[..k] == names[..k];
      ResolveStops(t, pre, k, faults);
    } else {
      assert names[..k] == names;
    }
  }
}
