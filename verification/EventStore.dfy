/** The event store over its three tables and its in-memory type cache. Every
    statement is atomic; a statement may fail for reasons of its own. */
module EventStores {
  import opened Events
  import Snowflake

  const MAX_NAME := 255

  /** event_types with its id sequence, and the cache in front of it. */
  datatype Types = Types(table: map<string, int>, next: int, cache: map<string, int>)
  datatype Row = Row(userID: int, typeID: int, metadata: string)
  datatype NewRow = NewRow(id: int, row: Row)

  /** What the schema asks of a row besides its type: a user in the users table,
      and metadata that is JSON. */
  datatype Known = Known(users: set<int>, json: string -> bool)
  datatype State = State(types: Types, rows: map<int, Row>, known: Known, warmed: bool)

  /** What goes wrong in one call besides the constraints of the schema: the
      warm-up query breaking off after `loaded`, the type query of a name, the
      insert statement. */
  datatype Faults = Faults(warm: bool, loaded: set<string>, names: set<string>, insert: bool)
  const NO_FAULTS := Faults(false, {}, {}, false)

  datatype Outcome = Ok | WarmUpFailed | EmptyType | TypeFailed(name: string) | InsertFailed

  /** Distinct names have distinct ids, the id sequence is past them all, and
      the cache says nothing the table does not. */
  ghost predicate ValidTypes(t: Types) {
    && (forall a, b :: a in t.table && b in t.table && t.table[a] == t.table[b] ==> a == b)
    && (forall a :: a in t.table ==> t.table[a] < t.next && |a| <= MAX_NAME)
    && (forall a :: a in t.cache ==> a in t.table && t.cache[a] == t.table[a])
  }

  /** Every row's foreign keys exist. */
  ghost predicate RowsValid(rows: map<int, Row>, known: Known, t: Types) {
    forall id :: id in rows ==>
      rows[id].typeID in t.table.Values && rows[id].userID in known.users && known.json(rows[id].metadata)
  }

  ghost predicate Valid(s: State) {
    ValidTypes(s.types) && RowsValid(s.rows, s.known, s.types)
  }

  // ------------------------------------------------------------------- types

  /** GetOrCreateTypeID. The insert draws an id from the sequence even when the
      name is there already. */
  function GetType(t: Types, name: string, faults: set<string>): (Types, Option<int>) {
    if name in t.cache then (t, Some(t.cache[name]))
    else if name in faults || |name| > MAX_NAME then (t, None)
    else if name in t.table then
      (Types(t.table, t.next + 1, t.cache[name := t.table[name]]), Some(t.table[name]))
    else
      (Types(t.table[name := t.next], t.next + 1, t.cache[name := t.next]), Some(t.next))
  }

  /** Both maps only grow: a name keeps its id. */
  ghost predicate Grows(t: Types, u: Types) {
    && (forall a :: a in t.table ==> a in u.table && u.table[a] == t.table[a])
    && (forall a :: a in t.cache ==> a in u.cache && u.cache[a] == t.cache[a])
  }

  lemma GrowsTrans(t: Types, u: Types, v: Types)
    requires Grows(t, u) && Grows(u, v)
    ensures Grows(t, v)
  {
  }

  lemma GetTypeKeeps(t: Types, name: string, faults: set<string>)
    requires ValidTypes(t)
    ensures var (u, id) := GetType(t, name, faults);
      && ValidTypes(u) && Grows(t, u)
      && (id.Some? ==> name in u.cache && u.cache[name] == id.value)
  {
  }

  /** Looks the names up one after the other; stops at the first failure. */
  function Resolve(t: Types, names: seq<string>, faults: set<string>): (Types, Option<string>) {
    if |names| == 0 then (t, None)
    else
      var last := names[|names| - 1];
      var (u, bad) := Resolve(t, names[..|names| - 1], faults);
      if bad.Some? then (u, bad)
      else
        var (v, id) := GetType(u, last, faults);
        (v, if id.Some? then None else Some(last))
  }

  lemma ResolveSnoc(t: Types, names: seq<string>, n: string, faults: set<string>)
    ensures var (u, bad) := Resolve(t, names, faults);
      Resolve(t, names + [n], faults) ==
        if bad.Some? then (u, bad)
        else
          var (v, id) := GetType(u, n, faults);
          (v, if id.Some? then None else Some(n))
  {
    assert (names + [n])[..|names|] == names;
  }

  lemma {:induction false} ResolveKeeps(t: Types, names: seq<string>, faults: set<string>)
    requires ValidTypes(t)
    ensures var (u, bad) := Resolve(t, names, faults);
      && ValidTypes(u) && Grows(t, u)
      && (bad.None? ==> forall n :: n in names ==> n in u.cache)
  {
    if |names| > 0 {
      var pre, last := names[..|names| - 1], names[|names| - 1];
      ResolveKeeps(t, pre, faults);
      var (u, bad) := Resolve(t, pre, faults);
      if bad.None? {
        GetTypeKeeps(u, last, faults);
        GrowsTrans(t, u, GetType(u, last, faults).0);
      }
      assert names == pre + [last];
    }
  }

  /** Each name at its first occurrence. */
  function Firsts(names: seq<string>): seq<string> {
    if |names| == 0 then []
    else
      var pre, last := names[..|names| - 1], names[|names| - 1];
      if last in pre then Firsts(pre) else Firsts(pre) + [last]
  }

  lemma {:induction false} FirstsSame(names: seq<string>)
    ensures forall n :: n in Firsts(names) <==> n in names
    ensures forall i, j :: 0 <= i < j < |Firsts(names)| ==> Firsts(names)[i] != Firsts(names)[j]
  {
    if |names| > 0 {
      var pre, last := names[..|names| - 1], names[|names| - 1];
      assert names == pre + [last];
      FirstsSame(pre);
    }
  }

  /** Looking up each name once does exactly what looking up all of them does:
      the same table, the same id sequence, the same cache, the same failure. */
  lemma {:induction false} ResolveFirsts(t: Types, names: seq<string>, faults: set<string>)
    requires ValidTypes(t)
    ensures Resolve(t, Firsts(names), faults) == Resolve(t, names, faults)
  {
    if |names| > 0 {
      var pre, last := names[..|names| - 1], names[|names| - 1];
      assert names == pre + [last];
      ResolveFirsts(t, pre, faults);
      ResolveSnoc(t, pre, last, faults);
      if last in pre {
        ResolveKeeps(t, pre, faults);
      } else {
        ResolveSnoc(t, Firsts(pre), last, faults);
      }
    }
  }

  // -------------------------------------------------------------------- rows

  function Metadata(m: string): string {
    if |m| == 0 then "{}" else m
  }

  predicate Insertable(rows: map<int, Row>, known: Known, typeIDs: set<int>, n: NewRow) {
    n.id !in rows && n.row.userID in known.users && known.json(n.row.metadata) && n.row.typeID in typeIDs
  }

  /** One insert statement: all the rows or none. */
  function InsertAll(rows: map<int, Row>, known: Known, typeIDs: set<int>, new_: seq<NewRow>): Option<map<int, Row>> {
    if |new_| == 0 then Some(rows)
    else
      var last := new_[|new_| - 1];
      match InsertAll(rows, known, typeIDs, new_[..|new_| - 1])
      case None => None
      case Some(r) => if Insertable(r, known, typeIDs, last) then Some(r[last.id := last.row]) else None
  }

  lemma InsertAllSnoc(rows: map<int, Row>, known: Known, typeIDs: set<int>, new_: seq<NewRow>, n: NewRow)
    ensures InsertAll(rows, known, typeIDs, new_ + [n]) ==
      match InsertAll(rows, known, typeIDs, new_)
      case None => None
      case Some(r) => if Insertable(r, known, typeIDs, n) then Some(r[n.id := n.row]) else None
  {
    assert (new_ + [n])[..|new_|] == new_;
  }

  ghost predicate Fits(rows: map<int, Row>, known: Known, typeIDs: set<int>, new_: seq<NewRow>) {
    && (forall i :: 0 <= i < |new_| ==> Insertable(rows, known, typeIDs, new_[i]))
    && (forall i, j :: 0 <= i < j < |new_| ==> new_[i].id != new_[j].id)
  }

  /** The statement succeeds exactly when the ids are new and different and the
      foreign keys exist; then the table holds the old rows and the new ones. */
  lemma {:induction false} InsertAllIff(rows: map<int, Row>, known: Known, typeIDs: set<int>, new_: seq<NewRow>)
    ensures InsertAll(rows, known, typeIDs, new_).Some? <==> Fits(rows, known, typeIDs, new_)
    ensures var r := InsertAll(rows, known, typeIDs, new_);
      r.Some? ==>
        && r.value.Keys == rows.Keys + (set i | 0 <= i < |new_| :: new_[i].id)
        && (forall id :: id in rows ==> id in r.value && r.value[id] == rows[id])
        && (forall i :: 0 <= i < |new_| ==> new_[i].id in r.value && r.value[new_[i].id] == new_[i].row)
  {
    if |new_| > 0 {
      var pre, last := new_[..|new_| - 1], new_[|new_| - 1];
      assert new_ == pre + [last];
      InsertAllIff(rows, known, typeIDs, pre);
      if Fits(rows, known, typeIDs, new_) {
        assert Fits(rows, known, typeIDs, pre);
      }
    }
  }

  /** The row an event becomes, with its type looked up in the cache. */
  function RowOf(cache: map<string, int>, e: Event): NewRow {
    var typeID := if e.typeName in cache then cache[e.typeName] else 0;
    NewRow(e.id, Row(e.userID, typeID, Metadata(e.metadata)))
  }

  function RowsOf(cache: map<string, int>, es: seq<Event>): seq<NewRow> {
    seq(|es|, i requires 0 <= i < |es| => RowOf(cache, es[i]))
  }

  function Names(es: seq<Event>): seq<string> {
    seq(|es|, i requires 0 <= i < |es| => es[i].typeName)
  }

  // ------------------------------------------------------------------- calls

  function Warm(s: State, f: Faults): State {
    if s.warmed then s
    else
      var seen := map n | n in s.types.table && (f.warm ==> n in f.loaded) :: s.types.table[n];
      s.(types := s.types.(cache := s.types.cache + seen), warmed := true)
  }

  predicate WarmFails(s: State, f: Faults) {
    !s.warmed && f.warm
  }

  /** BatchInsertEventsContext. */
  function Batch(s: State, es: seq<Event>, f: Faults): (State, Outcome) {
    if |es| == 0 then (s, Ok)
    else if WarmFails(s, f) then (Warm(s, f), WarmUpFailed)
    else if "" in Names(es) then (Warm(s, f), EmptyType)
    else InsertTyped(Warm(s, f), es, Firsts(Names(es)), f)
  }

  /** The names looked up, then one insert statement for all the rows. */
  function InsertTyped(w: State, es: seq<Event>, names: seq<string>, f: Faults): (State, Outcome) {
    var (t, bad) := Resolve(w.types, names, f.names);
    if bad.Some? then (w.(types := t), TypeFailed(bad.value))
    else
      var r := InsertAll(w.rows, w.known, t.table.Values, RowsOf(t.cache, es));
      if f.insert || r.None? then (w.(types := t), InsertFailed)
      else (w.(types := t, rows := r.value), Ok)
  }

  lemma WarmKeeps(s: State, f: Faults)
    requires ValidTypes(s.types)
    ensures ValidTypes(Warm(s, f).types) && Grows(s.types, Warm(s, f).types)
  {
  }

  lemma BatchTypes(s: State, es: seq<Event>, f: Faults)
    requires |es| > 0
    ensures var w, u := Warm(s, f), Batch(s, es, f).0;
      u.warmed && (u.types == w.types || u.types == Resolve(w.types, Firsts(Names(es)), f.names).0)
  {
  }

  lemma BatchKeepsTypes(s: State, es: seq<Event>, f: Faults)
    requires ValidTypes(s.types)
    ensures ValidTypes(Batch(s, es, f).0.types) && Grows(s.types, Batch(s, es, f).0.types)
  {
    if |es| > 0 {
      WarmKeeps(s, f);
      var w := Warm(s, f).types;
      ResolveKeeps(w, Firsts(Names(es)), f.names);
      GrowsTrans(s.types, w, Resolve(w, Firsts(Names(es)), f.names).0);
      BatchTypes(s, es, f);
    }
  }

  // ------------------------------------------------------------ other writers

  /** CreateEventWithType, given what the id generator answered. */
  function Create(s: State, userID: int, name: string, metadata: string, reply: Snowflake.Reply, f: Faults): (State, Option<NewRow>) {
    var w := Warm(s, f);
    if WarmFails(s, f) then (w, None)
    else
      var (t, typeID) := GetType(w.types, name, f.names);
      if typeID.None? || !reply.Id? then (w.(types := t), None)
      else
        var n := NewRow(reply.id, Row(userID, typeID.value, Metadata(metadata)));
        if f.insert || !Insertable(w.rows, w.known, t.table.Values, n) then (w.(types := t), None)
        else (w.(types := t, rows := w.rows[n.id := n.row]), Some(n))
  }

  /** InsertEventWithID: the caller supplies id and type id. */
  function InsertWithID(s: State, id: int, userID: int, typeID: int, metadata: string, f: Faults): (State, bool) {
    var n := NewRow(id, Row(userID, typeID, Metadata(metadata)));
    if f.insert || !Insertable(s.rows, s.known, s.types.table.Values, n) then (s, false)
    else (s.(rows := s.rows[n.id := n.row]), true)
  }

  datatype Op =
    | BatchOp(es: seq<Event>, f: Faults)
    | CreateOp(userID: int, name: string, metadata: string, reply: Snowflake.Reply, f: Faults)
    | InsertOp(id: int, userID: int, typeID: int, metadata: string, f: Faults)
    | TypeOp(name: string, f: Faults)

  function Perform(s: State, op: Op): State {
    match op
    case BatchOp(es, f) => Batch(s, es, f).0
    case CreateOp(userID, name, metadata, reply, f) => Create(s, userID, name, metadata, reply, f).0
    case InsertOp(id, userID, typeID, metadata, f) => InsertWithID(s, id, userID, typeID, metadata, f).0
    case TypeOp(name, f) => s.(types := GetType(s.types, name, f.names).0)
  }

  function Run(s: State, ops: seq<Op>): State {
    if |ops| == 0 then s else Perform(Run(s, ops[..|ops| - 1]), ops[|ops| - 1])
  }

  ghost predicate RowsGrow(s: State, t: State) {
    s.known == t.known && forall id :: id in s.rows ==> id in t.rows && t.rows[id] == s.rows[id]
  }

  lemma RowsStayValid(rows: map<int, Row>, known: Known, t: Types, u: Types)
    requires RowsValid(rows, known, t) && Grows(t, u)
    ensures RowsValid(rows, known, u)
  {
    forall id | id in rows ensures rows[id].typeID in u.table.Values {
      var n :| n in t.table && t.table[n] == rows[id].typeID;
      assert u.table[n] == rows[id].typeID;
    }
  }

  lemma {:induction false} InsertAllValid(rows: map<int, Row>, known: Known, t: Types, new_: seq<NewRow>)
    requires RowsValid(rows, known, t)
    ensures var r := InsertAll(rows, known, t.table.Values, new_); r.Some? ==> RowsValid(r.value, known, t)
  {
    if |new_| > 0 {
      InsertAllValid(rows, known, t, new_[..|new_| - 1]);
    }
  }

  lemma BatchShape(s: State, es: seq<Event>, f: Faults)
    ensures var (u, out) := Batch(s, es, f);
      var r := InsertAll(s.rows, s.known, u.types.table.Values, RowsOf(u.types.cache, es));
      && u.known == s.known
      && (if out.Ok? then r == Some(u.rows) else u.rows == s.rows)
  {
  }

  /** Exactly the batch's rows appear if it succeeds, and none if it fails. */
  lemma BatchRows(s: State, es: seq<Event>, f: Faults)
    ensures var (u, out) := Batch(s, es, f);
      if !out.Ok? then u.rows == s.rows
      else
        && u.rows.Keys == s.rows.Keys + IdSet(es)
        && (forall id :: id in s.rows ==> id in u.rows && u.rows[id] == s.rows[id])
        && (forall i :: 0 <= i < |es| ==>
              && es[i].id in u.rows && u.rows[es[i].id].userID == es[i].userID
              && u.rows[es[i].id].metadata == if es[i].metadata == "" then "{}" else es[i].metadata)
        && (ValidTypes(s.types) ==> forall i :: 0 <= i < |es| ==>
              es[i].typeName in u.types.table && u.rows[es[i].id].typeID == u.types.table[es[i].typeName])
  {
    BatchShape(s, es, f);
    var (u, out) := Batch(s, es, f);
    RowsAppear(s.rows, s.known, u.types, es);
    if out.Ok? && ValidTypes(s.types) {
      BatchTyped(s, es, f);
    }
  }

  /** The types of a batch that succeeded are in the cache, as in the table. */
  lemma BatchTyped(s: State, es: seq<Event>, f: Faults)
    requires ValidTypes(s.types) && Batch(s, es, f).1.Ok?
    ensures var t := Batch(s, es, f).0.types;
      forall i :: 0 <= i < |es| ==>
        es[i].typeName in t.cache && es[i].typeName in t.table && t.cache[es[i].typeName] == t.table[es[i].typeName]
  {
    if |es| > 0 {
      var w := Warm(s, f).types;
      WarmKeeps(s, f);
      ResolveKeeps(w, Firsts(Names(es)), f.names);
      FirstsOfNames(es);
    }
  }

  lemma RowsAppear(rows: map<int, Row>, known: Known, t: Types, es: seq<Event>)
    ensures var r := InsertAll(rows, known, t.table.Values, RowsOf(t.cache, es));
      r.Some? ==>
        && r.value.Keys == rows.Keys + IdSet(es)
        && (forall id :: id in rows ==> id in r.value && r.value[id] == rows[id])
        && (forall i :: 0 <= i < |es| ==> es[i].id in r.value && r.value[es[i].id] == RowOf(t.cache, es[i]).row)
  {
    var new_ := RowsOf(t.cache, es);
    InsertAllIff(rows, known, t.table.Values, new_);
    assert forall i :: 0 <= i < |es| ==> new_[i] == RowOf(t.cache, es[i]);
    assert (set i | 0 <= i < |new_| :: new_[i].id) == IdSet(es) by {
      assert forall e :: e in es ==> exists i :: 0 <= i < |new_| && new_[i].id == e.id;
    }
  }

  /** What a call does to the rows, whatever it does to the types. */
  ghost predicate RowStep(s: State, u: State) {
    && u.known == s.known
    && (u.rows == s.rows ||
        exists n :: Insertable(s.rows, s.known, u.types.table.Values, n) && u.rows == s.rows[n.id := n.row])
  }

  lemma RowStepKeeps(s: State, u: State)
    requires Valid(s) && ValidTypes(u.types) && Grows(s.types, u.types) && RowStep(s, u)
    ensures RowsValid(u.rows, u.known, u.types) && RowsGrow(s, u)
  {
    RowsStayValid(s.rows, s.known, s.types, u.types);
  }

  lemma BatchKeeps(s: State, es: seq<Event>, f: Faults)
    requires Valid(s)
    ensures var u := Batch(s, es, f).0; Valid(u) && Grows(s.types, u.types) && RowsGrow(s, u)
  {
    var (u, out) := Batch(s, es, f);
    BatchKeepsTypes(s, es, f);
    BatchShape(s, es, f);
    BatchRows(s, es, f);
    RowsStayValid(s.rows, s.known, s.types, u.types);
    InsertAllValid(s.rows, s.known, u.types, RowsOf(u.types.cache, es));
  }

  lemma CreateSteps(s: State, userID: int, name: string, metadata: string, reply: Snowflake.Reply, f: Faults)
    ensures var w, u := Warm(s, f), Create(s, userID, name, metadata, reply, f).0;
      RowStep(s, u) && (u.types == w.types || u.types == GetType(w.types, name, f.names).0)
  {
  }

  lemma CreateKeeps(s: State, userID: int, name: string, metadata: string, reply: Snowflake.Reply, f: Faults)
    requires Valid(s)
    ensures var u := Create(s, userID, name, metadata, reply, f).0; Valid(u) && Grows(s.types, u.types) && RowsGrow(s, u)
  {
    var w, u := Warm(s, f).types, Create(s, userID, name, metadata, reply, f).0;
    CreateSteps(s, userID, name, metadata, reply, f);
    WarmKeeps(s, f);
    GetTypeKeeps(w, name, f.names);
    GrowsTrans(s.types, w, GetType(w, name, f.names).0);
    RowStepKeeps(s, u);
  }

  /** The row appears exactly on success, under the generated id and with the
      table's id for the type. */
  lemma CreateRows(s: State, userID: int, name: string, metadata: string, reply: Snowflake.Reply, f: Faults)
    requires ValidTypes(s.types)
    ensures var (u, n) := Create(s, userID, name, metadata, reply, f);
      if n.None? then u.rows == s.rows
      else
        && reply == Snowflake.Id(n.value.id) && n.value.id !in s.rows && u.rows == s.rows[n.value.id := n.value.row]
        && n.value.row.userID == userID && name in u.types.table && n.value.row.typeID == u.types.table[name]
        && n.value.row.metadata == if metadata == "" then "{}" else metadata
  {
    WarmKeeps(s, f);
    GetTypeKeeps(Warm(s, f).types, name, f.names);
  }

  /** A create succeeds exactly when the type name is not too long, an id was
      generated, and the row satisfies the schema. */
  lemma CreateSucceedsIff(s: State, userID: int, name: string, metadata: string, reply: Snowflake.Reply)
    requires ValidTypes(s.types)
    ensures Create(s, userID, name, metadata, reply, NO_FAULTS).1.Some? <==>
      && |name| <= 255 && reply.Id? && reply.id !in s.rows && userID in s.known.users
      && s.known.json(if metadata == "" then "{}" else metadata)
  {
    var w := Warm(s, NO_FAULTS).types;
    WarmKeeps(s, NO_FAULTS);
    GetTypeKeeps(w, name, {});
    var (t, id) := GetType(w, name, {});
    assert id.Some? <==> |name| <= MAX_NAME;
    assert id.Some? ==> t.table[name] in t.table.Values;
  }

  /** The warm-up fills the cache with the whole table, once. */
  lemma WarmLoads(s: State, f: Faults)
    requires ValidTypes(s.types)
    ensures Warm(s, f).warmed && Warm(s, f).types.table == s.types.table
    ensures s.warmed ==> Warm(s, f) == s
    ensures !s.warmed && !f.warm ==> Warm(s, f).types.cache == s.types.table
    ensures !s.warmed && f.warm ==> forall n ::
      n in Warm(s, f).types.cache <==> n in s.types.cache || (n in s.types.table && n in f.loaded)
  {
  }

  /** A name gets the next number of the sequence when it is new, and a number is
      drawn whenever the cache does not know the name. */
  lemma TypeNumbers(t: Types, name: string, faults: set<string>)
    ensures var (u, id) := GetType(t, name, faults);
      && (id.Some? && name !in t.cache ==> u.next == t.next + 1)
      && (id.None? || name in t.cache ==> u == t)
      && (id.Some? && name !in t.cache && name !in t.table ==> id.value == t.next)
      && (forall n :: n in u.table ==> n in t.table || n == name)
      && (forall n :: n in u.cache ==> n in t.cache || n == name)
  {
  }

  lemma PerformKeeps(s: State, op: Op)
    requires Valid(s)
    ensures var u := Perform(s, op); Valid(u) && Grows(s.types, u.types) && RowsGrow(s, u)
  {
    match op
    case BatchOp(es, f) => BatchKeeps(s, es, f);
    case CreateOp(userID, name, metadata, reply, f) => CreateKeeps(s, userID, name, metadata, reply, f);
    case InsertOp(id, userID, typeID, metadata, f) => RowStepKeeps(s, InsertWithID(s, id, userID, typeID, metadata, f).0);
    case TypeOp(name, f) =>
      GetTypeKeeps(s.types, name, f.names);
      RowsStayValid(s.rows, s.known, s.types, GetType(s.types, name, f.names).0);
  }

  /** Over every run of calls, failing ones included: the cache agrees with the
      table, distinct names have distinct ids, foreign keys hold, and no name
      changes its id and no row its contents. */
  lemma {:induction false} RunKeeps(s: State, ops: seq<Op>)
    requires Valid(s)
    ensures var u := Run(s, ops); Valid(u) && Grows(s.types, u.types) && RowsGrow(s, u)
  {
    if |ops| > 0 {
      var m := Run(s, ops[..|ops| - 1]);
      RunKeeps(s, ops[..|ops| - 1]);
      PerformKeeps(m, ops[|ops| - 1]);
      GrowsTrans(s.types, m.types, Run(s, ops).types);
    }
  }

  lemma {:induction false} ResolveWithoutFaults(t: Types, names: seq<string>, faults: set<string>)
    requires Resolve(t, names, faults).1.None?
    ensures Resolve(t, names, {}) == Resolve(t, names, faults)
  {
    if |names| > 0 {
      ResolveWithoutFaults(t, names[..|names| - 1], faults);
    }
  }

  /** A batch that succeeds did what it does when nothing can go wrong. */
  lemma FaultsOnlyFail(s: State, es: seq<Event>, f: Faults)
    requires Batch(s, es, f).1.Ok?
    ensures Batch(s, es, NO_FAULTS) == Batch(s, es, f)
  {
    if |es| > 0 {
      assert Warm(s, f) == Warm(s, NO_FAULTS);
      ResolveWithoutFaults(Warm(s, f).types, Firsts(Names(es)), f.names);
    }
  }

  // ------------------------------------------------------ when a batch succeeds

  lemma {:induction false} ResolveSucceedsIff(t: Types, names: seq<string>)
    requires ValidTypes(t)
    ensures Resolve(t, names, {}).1.None? <==> forall n :: n in names ==> |n| <= MAX_NAME
  {
    if |names| > 0 {
      var pre, last := names[..|names| - 1], names[|names| - 1];
      assert names == pre + [last];
      ResolveSucceedsIff(t, pre);
      ResolveKeeps(t, pre, {});
    }
  }

  ghost predicate Acceptable(s: State, e: Event) {
    0 < |e.typeName| <= 255 && Storable(s, e)
  }

  /** A new id, a known user and metadata that is JSON or missing. */
  ghost predicate Storable(s: State, e: Event) {
    e.id !in s.rows && e.userID in s.known.users && s.known.json(Metadata(e.metadata))
  }

  lemma NamesFine(es: seq<Event>)
    ensures "" !in Names(es) <==> forall i :: 0 <= i < |es| ==> |es[i].typeName| > 0
    ensures (forall n :: n in Names(es) ==> |n| <= MAX_NAME) <==> forall i :: 0 <= i < |es| ==> |es[i].typeName| <= MAX_NAME
  {
    var names := Names(es);
    assert forall i :: 0 <= i < |es| ==> names[i] == es[i].typeName;
    forall i | 0 <= i < |es| ensures es[i].typeName in names {
      assert names[i] in names;
    }
    assert forall n :: n in names ==> exists i :: 0 <= i < |es| && names[i] == n;
  }

  lemma FitsIff(s: State, t: Types, es: seq<Event>)
    requires ValidTypes(t) && forall i :: 0 <= i < |es| ==> es[i].typeName in t.cache
    ensures InsertAll(s.rows, s.known, t.table.Values, RowsOf(t.cache, es)).Some? <==>
      DistinctIds(es) && forall i :: 0 <= i < |es| ==> Storable(s, es[i])
  {
    var new_ := RowsOf(t.cache, es);
    InsertAllIff(s.rows, s.known, t.table.Values, new_);
    assert forall i :: 0 <= i < |es| ==> new_[i] == RowOf(t.cache, es[i]);
    assert forall i :: 0 <= i < |es| ==> new_[i].row.typeID in t.table.Values;
    assert Fits(s.rows, s.known, t.table.Values, new_) <==>
      DistinctIds(es) && forall i :: 0 <= i < |es| ==> Storable(s, es[i]);
  }

  lemma BatchOkIff(s: State, es: seq<Event>)
    requires |es| > 0
    ensures var (t, bad) := Resolve(Warm(s, NO_FAULTS).types, Firsts(Names(es)), {});
      Batch(s, es, NO_FAULTS).1.Ok? <==>
        && "" !in Names(es) && bad.None?
        && InsertAll(s.rows, s.known, t.table.Values, RowsOf(t.cache, es)).Some?
  {
  }

  lemma NamesResolve(t0: Types, es: seq<Event>)
    requires ValidTypes(t0)
    ensures var (t, bad) := Resolve(t0, Firsts(Names(es)), {});
      && ValidTypes(t)
      && (bad.None? <==> forall i :: 0 <= i < |es| ==> |es[i].typeName| <= MAX_NAME)
      && (bad.None? ==> forall i :: 0 <= i < |es| ==> es[i].typeName in t.cache)
  {
    var names := Firsts(Names(es));
    FirstsOfNames(es);
    ResolveSucceedsIff(t0, names);
    ResolveKeeps(t0, names, {});
  }

  lemma FirstsOfNames(es: seq<Event>)
    ensures forall i :: 0 <= i < |es| ==> es[i].typeName in Firsts(Names(es))
    ensures (forall n :: n in Firsts(Names(es)) ==> |n| <= MAX_NAME) <==> forall i :: 0 <= i < |es| ==> |es[i].typeName| <= MAX_NAME
  {
    NamesFine(es);
    FirstsSame(Names(es));
    assert forall i :: 0 <= i < |es| ==> Names(es)[i] == es[i].typeName;
  }

  /** A batch succeeds exactly when every event could be inserted by itself and
      no two share an id. */
  lemma BatchSucceedsIff(s: State, es: seq<Event>)
    requires ValidTypes(s.types)
    ensures Batch(s, es, NO_FAULTS).1.Ok? <==>
      DistinctIds(es) && forall i :: 0 <= i < |es| ==> Acceptable(s, es[i])
  {
    if |es| > 0 {
      var w := Warm(s, NO_FAULTS).types;
      WarmKeeps(s, NO_FAULTS);
      NamesFine(es);
      NamesResolve(w, es);
      BatchOkIff(s, es);
      var (t, bad) := Resolve(w, Firsts(Names(es)), {});
      if bad.None? {
        FitsIff(s, t, es);
      }
    }
  }
}
