/** A batch insert against inserting its events one at a time. */
module BatchInserting {
  import opened Events
  import opened EventStores

  /** The state after a call, when the call succeeded. */
  function OnSuccess(r: (State, Outcome)): Option<State> {
    if r.1.Ok? then Some(r.0) else None
  }

  /** Inserting the events one at a time, each as a batch of its own. */
  function OneByOne(s: State, es: seq<Event>): Option<State> {
    if |es| == 0 then Some(s)
    else
      match OneByOne(s, es[..|es| - 1])
      case None => None
      case Some(t) => OnSuccess(Batch(t, [es[|es| - 1]], NO_FAULTS))
  }

  /** A batch without the de-duplication, on a warmed store without faults. */
  function Plain(w: State, es: seq<Event>): Option<State> {
    Assemble(w, "" in Names(es), Resolve(w.types, Names(es), {}), es)
  }

  function Assemble(w: State, empty: bool, found: (Types, Option<string>), es: seq<Event>): Option<State> {
    if empty || found.1.Some? then None else Filled(w.known, w.warmed, found.0, RowsIn(w, found.0, es))
  }

  function RowsIn(w: State, t: Types, es: seq<Event>): Option<map<int, Row>> {
    InsertAll(w.rows, w.known, t.table.Values, RowsOf(t.cache, es))
  }

  function Filled(known: Known, warmed: bool, t: Types, r: Option<map<int, Row>>): Option<State> {
    match r case None => None case Some(rows) => Some(State(t, rows, known, warmed))
  }

  lemma BatchIsPlain(s: State, es: seq<Event>)
    requires ValidTypes(s.types) && |es| > 0
    ensures OnSuccess(Batch(s, es, NO_FAULTS)) == Plain(Warm(s, NO_FAULTS), es)
  {
    WarmKeeps(s, NO_FAULTS);
    ResolveFirsts(Warm(s, NO_FAULTS).types, Names(es), {});
  }

  ghost predicate Typed(t: Types, es: seq<Event>) {
    forall i :: 0 <= i < |es| ==> es[i].typeName in t.cache
  }

  /** The type check does not matter for rows that pass it. */
  lemma {:induction false} InsertAllAnyTypes(rows: map<int, Row>, known: Known, a: set<int>, b: set<int>, new_: seq<NewRow>)
    requires forall n :: n in new_ ==> n.row.typeID in a && n.row.typeID in b
    ensures InsertAll(rows, known, a, new_) == InsertAll(rows, known, b, new_)
  {
    if |new_| > 0 {
      var pre := new_[..|new_| - 1];
      assert forall n :: n in pre ==> n in new_;
      InsertAllAnyTypes(rows, known, a, b, pre);
      assert new_[|new_| - 1] in new_;
    }
  }

  lemma CachedIdsExist(t: Types, es: seq<Event>)
    requires ValidTypes(t) && Typed(t, es)
    ensures forall n :: n in RowsOf(t.cache, es) ==> n.row.typeID in t.table.Values
  {
  }

  /** Rows whose types are in the cache stay as they are while it grows. */
  lemma InsertAllGrows(rows: map<int, Row>, known: Known, t: Types, u: Types, es: seq<Event>)
    requires ValidTypes(t) && ValidTypes(u) && Grows(t, u) && Typed(t, es)
    ensures RowsOf(t.cache, es) == RowsOf(u.cache, es)
    ensures InsertAll(rows, known, t.table.Values, RowsOf(t.cache, es))
         == InsertAll(rows, known, u.table.Values, RowsOf(u.cache, es))
  {
    assert RowsOf(t.cache, es) == RowsOf(u.cache, es);
    assert Typed(u, es);
    CachedIdsExist(t, es);
    CachedIdsExist(u, es);
    InsertAllAnyTypes(rows, known, t.table.Values, u.table.Values, RowsOf(t.cache, es));
  }

  lemma ResolvedIsTyped(t: Types, es: seq<Event>, faults: set<string>)
    requires ValidTypes(t)
    ensures var (u, bad) := Resolve(t, Names(es), faults); bad.None? ==> Typed(u, es)
  {
    ResolveKeeps(t, Names(es), faults);
    assert forall i :: 0 <= i < |es| ==> Names(es)[i] == es[i].typeName;
  }

  lemma ResolveOne(t: Types, n: string)
    ensures var (u, id) := GetType(t, n, {});
      Resolve(t, [n], {}) == (u, if id.Some? then None else Some(n))
  {
    ResolveSnoc(t, [], n, {});
    assert [] + [n] == [n];
  }

  lemma InsertAllThenOne(rows: map<int, Row>, known: Known, ids: set<int>, a: seq<NewRow>, n: NewRow)
    ensures InsertAll(rows, known, ids, a + [n]) ==
      match InsertAll(rows, known, ids, a)
      case None => None
      case Some(r) => InsertAll(r, known, ids, [n])
  {
    InsertAllSnoc(rows, known, ids, a, n);
    var before := InsertAll(rows, known, ids, a);
    if before.Some? {
      InsertAllSnoc(before.value, known, ids, [], n);
      assert [] + [n] == [n];
    }
  }

  lemma RowsSnoc(rows: map<int, Row>, known: Known, t: Types, u: Types, pre: seq<Event>, e: Event)
    requires ValidTypes(t) && ValidTypes(u) && Grows(t, u) && Typed(t, pre)
    ensures InsertAll(rows, known, u.table.Values, RowsOf(u.cache, pre + [e])) ==
      match InsertAll(rows, known, t.table.Values, RowsOf(t.cache, pre))
      case None => None
      case Some(r) => InsertAll(r, known, u.table.Values, RowsOf(u.cache, [e]))
  {
    InsertAllGrows(rows, known, t, u, pre);
    assert RowsOf(u.cache, pre + [e]) == RowsOf(u.cache, pre) + [RowOf(u.cache, e)];
    assert RowsOf(u.cache, [e]) == [RowOf(u.cache, e)];
    InsertAllThenOne(rows, known, u.table.Values, RowsOf(u.cache, pre), RowOf(u.cache, e));
  }

  /** One more event in the batch is one more call. */
  lemma PlainSnoc(w: State, pre: seq<Event>, e: Event)
    requires ValidTypes(w.types)
    ensures Plain(w, pre + [e]) ==
      match Plain(w, pre) case None => None case Some(x) => Plain(x, [e])
  {
    if Plain(w, pre).Some? {
      PlainGoesOn(w, Plain(w, pre).value, pre, e);
    } else {
      PlainFails(w, pre, e);
    }
  }

  lemma TypesGoOn(t0: Types, pre: seq<Event>, e: Event)
    requires ValidTypes(t0) && Resolve(t0, Names(pre), {}).1.None?
    ensures var t := Resolve(t0, Names(pre), {}).0;
      var v := Resolve(t, Names([e]), {}).0;
      && Resolve(t0, Names(pre + [e]), {}) == Resolve(t, Names([e]), {})
      && ValidTypes(t) && ValidTypes(v) && Grows(t, v) && Typed(t, pre)
  {
    var t := Resolve(t0, Names(pre), {}).0;
    assert Names(pre + [e]) == Names(pre) + [e.typeName];
    assert Names([e]) == [e.typeName];
    ResolveSnoc(t0, Names(pre), e.typeName, {});
    ResolveOne(t, e.typeName);
    ResolveKeeps(t0, Names(pre), {});
    ResolvedIsTyped(t0, pre, {});
    ResolveKeeps(t, Names([e]), {});
  }

  lemma RowsGoOn(w: State, x: State, t: Types, v: Types, pre: seq<Event>, e: Event)
    requires ValidTypes(t) && ValidTypes(v) && Grows(t, v) && Typed(t, pre)
    requires Filled(w.known, w.warmed, t, RowsIn(w, t, pre)) == Some(x)
    ensures x.types == t && x.known == w.known && x.warmed == w.warmed
    ensures RowsIn(w, v, pre + [e]) == RowsIn(x, v, [e])
  {
    RowsSnoc(w.rows, w.known, t, v, pre, e);
  }

  lemma PartsGoOn(w: State, x: State, pre: seq<Event>, e: Event)
    requires ValidTypes(w.types) && Plain(w, pre) == Some(x)
    ensures x.known == w.known && x.warmed == w.warmed && "" !in Names(pre)
    ensures var found := Resolve(x.types, Names([e]), {});
      found == Resolve(w.types, Names(pre + [e]), {}) && RowsIn(w, found.0, pre + [e]) == RowsIn(x, found.0, [e])
  {
    TypesGoOn(w.types, pre, e);
    var t := Resolve(w.types, Names(pre), {}).0;
    RowsGoOn(w, x, t, Resolve(t, Names([e]), {}).0, pre, e);
  }

  lemma PlainGoesOn(w: State, x: State, pre: seq<Event>, e: Event)
    requires ValidTypes(w.types) && Plain(w, pre) == Some(x)
    ensures Plain(w, pre + [e]) == Plain(x, [e])
  {
    PartsGoOn(w, x, pre, e);
    assert Names(pre + [e]) == Names(pre) + Names([e]);
    var empty, found := "" in Names([e]), Resolve(x.types, Names([e]), {});
    assert Assemble(w, empty, found, pre + [e]) == Assemble(x, empty, found, [e]);
  }

  lemma RowsFail(w: State, t: Types, v: Types, pre: seq<Event>, e: Event)
    requires ValidTypes(t) && ValidTypes(v) && Grows(t, v) && Typed(t, pre)
    requires RowsIn(w, t, pre).None?
    ensures RowsIn(w, v, pre + [e]).None?
  {
    RowsSnoc(w.rows, w.known, t, v, pre, e);
  }

  /** A batch that fails goes on failing when it gets longer. */
  lemma PlainFails(w: State, pre: seq<Event>, e: Event)
    requires ValidTypes(w.types) && Plain(w, pre).None?
    ensures Plain(w, pre + [e]).None?
  {
    assert Names(pre + [e]) == Names(pre) + [e.typeName];
    ResolveSnoc(w.types, Names(pre), e.typeName, {});
    var (t, bad) := Resolve(w.types, Names(pre), {});
    if "" !in Names(pre) && bad.None? {
      TypesGoOn(w.types, pre, e);
      RowsFail(w, t, Resolve(t, Names([e]), {}).0, pre, e);
    }
  }

  lemma PlainKeeps(w: State, es: seq<Event>)
    requires ValidTypes(w.types) && Plain(w, es).Some?
    ensures ValidTypes(Plain(w, es).value.types)
    ensures Plain(w, es).value.warmed == w.warmed
  {
    ResolveKeeps(w.types, Names(es), {});
  }

  lemma WarmedStays(s: State)
    ensures Warm(s, NO_FAULTS).warmed
    ensures s.warmed ==> Warm(s, NO_FAULTS) == s
  {
  }

  lemma OneByOneSnoc(s: State, pre: seq<Event>, e: Event)
    ensures OneByOne(s, pre + [e]) ==
      match OneByOne(s, pre) case None => None case Some(t) => OnSuccess(Batch(t, [e], NO_FAULTS))
  {
    assert (pre + [e])[..|pre|] == pre;
  }

  lemma OneByOneFirst(s: State, e: Event)
    requires ValidTypes(s.types)
    ensures OneByOne(s, [e]) == Plain(Warm(s, NO_FAULTS), [e])
  {
    OneByOneSnoc(s, [], e);
    assert [] + [e] == [e];
    BatchIsPlain(s, [e]);
  }

  lemma OneByOneStep(s: State, w: State, pre: seq<Event>, e: Event)
    requires ValidTypes(w.types) && w.warmed && OneByOne(s, pre) == Plain(w, pre)
    ensures OneByOne(s, pre + [e]) == Plain(w, pre + [e])
  {
    OneByOneSnoc(s, pre, e);
    PlainSnoc(w, pre, e);
    if Plain(w, pre).Some? {
      var x := Plain(w, pre).value;
      PlainKeeps(w, pre);
      WarmedStays(x);
      BatchIsPlain(x, [e]);
    }
  }

  lemma {:induction false} OneByOneIsPlain(s: State, es: seq<Event>)
    requires ValidTypes(s.types) && |es| > 0
    ensures OneByOne(s, es) == Plain(Warm(s, NO_FAULTS), es)
  {
    var pre, e := es[..|es| - 1], es[|es| - 1];
    assert es == pre + [e];
    if |es| == 1 {
      assert es == [e];
      OneByOneFirst(s, e);
    } else {
      WarmKeeps(s, NO_FAULTS);
      WarmedStays(s);
      OneByOneIsPlain(s, pre);
      OneByOneStep(s, Warm(s, NO_FAULTS), pre, e);
    }
  }

  /** A batch succeeds exactly when inserting its events one at a time does,
      and leaves the same rows, the same type table and the same cache. */
  lemma BatchIsOneByOne(s: State, es: seq<Event>)
    requires ValidTypes(s.types)
    ensures OnSuccess(Batch(s, es, NO_FAULTS)) == OneByOne(s, es)
  {
    if |es| > 0 {
      BatchIsPlain(s, es);
      OneByOneIsPlain(s, es);
    }
  }

  /** A batch that succeeds, whatever might have gone wrong, leaves the state
      that inserting its events one at a time leaves. */
  lemma SuccessIsOneByOne(s: State, es: seq<Event>, f: Faults)
    requires ValidTypes(s.types) && Batch(s, es, f).1.Ok?
    ensures OneByOne(s, es) == Some(Batch(s, es, f).0)
  {
    FaultsOnlyFail(s, es, f);
    BatchIsOneByOne(s, es);
  }
}
