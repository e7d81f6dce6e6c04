/** Page numbers from a request, the store's page query, and how the pages fit
    together. */
module Pagination {
  import opened Events
  import opened Decimals
  import Words
  import Snowflake
  import SnowflakeFleet

  const DEFAULT_PAGE := 1
  const DEFAULT_LIMIT := 20
  const MAX_LIMIT := 100
  const TWO64 := Words.TWO64

  datatype Params = Params(page: nat, limit: nat)

  /** ParseFromRequest on the two query arguments ("" when absent). */
  function ParseFromRequest(page: string, limit: string): (p: Params)
    ensures 1 <= p.page < Words.TWO63 && 1 <= p.limit <= 100
  {
    Params(
      match Atoi(page) { case Some(n) => if n >= 1 then n else DEFAULT_PAGE case None => DEFAULT_PAGE },
      match Atoi(limit) { case Some(n) => if n >= 1 then Min(n, MAX_LIMIT) else DEFAULT_LIMIT case None => DEFAULT_LIMIT })
  }

  /** Every page and limit in range can be asked for, and a number out of range
      gets the default or the cap. */
  lemma ParsePrinted(n: int, l: int)
    ensures var p := ParseFromRequest(Print(n), Print(l));
      && p.page == (if 1 <= n < Words.TWO63 then n else 1)
      && p.limit == (if 1 <= l < Words.TWO63 then Min(l, 100) else 20)
  {
    ReadUndoesPrint(n);
    ReadUndoesPrint(l);
  }

  /** Digits, perhaps with a sign in front. */
  predicate Numeric(s: string) {
    |s| > 0 && (AllDigits(s) || (|s| > 1 && (s[0] == '+' || s[0] == '-') && AllDigits(s[1..])))
  }

  /** An argument that is missing or not a number gets the default. */
  lemma ParseUnreadable(page: string, limit: string)
    ensures !Numeric(page) ==> ParseFromRequest(page, limit).page == 1
    ensures !Numeric(limit) ==> ParseFromRequest(page, limit).limit == 20
  {
  }

  // ------------------------------------------------------------ ordered lists

  predicate Descending(s: seq<int>) {
    forall i, j :: 0 <= i < j < |s| ==> s[i] > s[j]
  }

  ghost predicate Lists(s: seq<int>, ids: set<int>) {
    Descending(s) && forall x :: x in s <==> x in ids
  }

  /** A set has at most one descending listing. */
  lemma {:induction false} ListingUnique(a: seq<int>, b: seq<int>)
    requires Descending(a) && Descending(b) && forall x :: x in a <==> x in b
    ensures a == b
  {
    EmptyTogether(a, b);
    if |a| > 0 {
      assert a[0] in a;
      assert b[0] in b;
      var i :| 0 <= i < |a| && a[i] == b[0];
      var j :| 0 <= j < |b| && b[j] == a[0];
      assert a[0] == b[0];
      TailListing(a, b);
      ListingUnique(a[1..], b[1..]);
      assert a == [a[0]] + a[1..] && b == [b[0]] + b[1..];
    }
  }

  lemma EmptyTogether(a: seq<int>, b: seq<int>)
    requires forall x :: x in a <==> x in b
    ensures |a| == 0 <==> |b| == 0
  {
    if |a| > 0 {
      var x := a[0];
      assert x in a && x in b;
    }
    if |b| > 0 {
      var y := b[0];
      assert y in b && y in a;
    }
  }

  lemma TailListing(a: seq<int>, b: seq<int>)
    requires Descending(a) && Descending(b) && (forall x :: x in a <==> x in b)
    requires |a| > 0 && |b| > 0 && a[0] == b[0]
    ensures forall x :: x in a[1..] <==> x in b[1..]
  {
    assert forall x :: x in a[1..] <==> x in a && x != a[0] by { TailElements(a); }
    assert forall x :: x in b[1..] <==> x in b && x != b[0] by { TailElements(b); }
  }

  lemma TailElements(a: seq<int>)
    requires Descending(a) && |a| > 0
    ensures forall x :: x in a[1..] <==> x in a && x != a[0]
  {
    assert a == [a[0]] + a[1..];
    assert forall k :: 1 <= k < |a| ==> a[k] < a[0];
  }

  predicate IsMax(m: int, ids: set<int>) {
    m in ids && forall x :: x in ids ==> x <= m
  }

  lemma {:induction false} MaxExists(ids: set<int>)
    requires ids != {}
    ensures exists m :: IsMax(m, ids)
    decreases |ids|
  {
    var x := Element(ids);
    if ids == {x} {
      assert IsMax(x, ids);
    } else {
      var rest := ids - {x};
      assert rest != {};
      MaxExists(rest);
      var m :| IsMax(m, rest);
      assert forall y :: y in ids ==> y == x || y in rest;
      assert IsMax(Max(m, x), ids);
    }
  }

  lemma Element<T>(xs: set<T>) returns (x: T)
    requires xs != {}
    ensures x in xs
  {
    x :| x in xs;
  }

  /** select ... order by event_id desc */
  function OrderedDesc(ids: set<int>): (s: seq<int>)
    ensures Lists(s, ids) && |s| == |ids|
  {
    if ids == {} then []
    else
      MaxExists(ids);
      var m :| IsMax(m, ids);
      [m] + OrderedDesc(ids - {m})
  }

  // -------------------------------------------------------------------- pages

  /** limit and offset */
  function Slice<T>(s: seq<T>, offset: nat, limit: nat): seq<T> {
    if offset >= |s| then [] else if offset + limit >= |s| then s[offset..] else s[offset..offset + limit]
  }

  /** (page - 1) * limit in unsigned 64-bit arithmetic. */
  function Offset(page: nat, limit: nat): nat {
    (page - 1) % TWO64 * limit % TWO64
  }

  function GetPage<T>(list: seq<T>, page: nat, limit: nat): seq<T> {
    Slice(list, Offset(page, limit), limit)
  }

  /** The number of pages: total / limit, rounded up. */
  function PageCount(total: nat, limit: nat): nat
    requires limit > 0
  {
    (total + limit - 1) / limit
  }

  /** Pages 1 to n, end to end. */
  function Pages<T>(list: seq<T>, limit: nat, n: nat): seq<T> {
    if n == 0 then [] else Pages(list, limit, n - 1) + GetPage(list, n, limit)
  }

  lemma OffsetExact(page: nat, limit: nat)
    requires 1 <= page <= TWO64 && (page - 1) * limit < TWO64
    ensures Offset(page, limit) == (page - 1) * limit
  {
  }

  lemma {:induction false} PagesArePrefix<T>(list: seq<T>, limit: nat, n: nat)
    requires limit > 0 && |list| <= TWO64 && n * limit <= |list|
    ensures Pages(list, limit, n) == list[..n * limit]
  {
    if n > 0 {
      var k := (n - 1) * limit;
      assert n * limit == k + limit;
      AtLeast(n, limit);
      PagesArePrefix(list, limit, n - 1);
      OffsetExact(n, limit);
      assert list[..k] + list[k..k + limit] == list[..k + limit];
    }
  }

  lemma AtLeast(n: nat, limit: nat)
    requires limit > 0
    ensures n <= n * limit
  {
    assert n * limit == n + n * (limit - 1);
  }

  lemma CountBounds(total: nat, limit: nat)
    requires limit > 0
    ensures var n := PageCount(total, limit);
      total <= n * limit < total + limit
  {
    var n := PageCount(total, limit);
    assert total + limit - 1 == n * limit + (total + limit - 1) % limit;
  }

  /** Pages 1 to ceil(total / limit) are the whole list, in order, without a
      gap or a repeat. */
  lemma PagesAreList<T>(list: seq<T>, limit: nat)
    requires limit > 0 && |list| <= TWO64
    ensures Pages(list, limit, PageCount(|list|, limit)) == list
  {
    var n := PageCount(|list|, limit);
    CountBounds(|list|, limit);
    if n > 0 {
      var k := (n - 1) * limit;
      assert n * limit == k + limit;
      PagesArePrefix(list, limit, n - 1);
      AtLeast(n - 1, limit);
      OffsetExact(n, limit);
      assert list[..k] + list[k..] == list;
    }
  }

  /** The page that was meant, in unbounded arithmetic. */
  function Intended<T>(list: seq<T>, page: nat, limit: nat): seq<T>
    requires page >= 1
  {
    Slice(list, (page - 1) * limit, limit)
  }

  /** The database takes offsets of up to 63 bits and refuses larger ones. */
  predicate TooFar(page: nat, limit: nat) {
    Offset(page, limit) >= Words.TWO63
  }

  /** The page query as a caller sees it. */
  function QueryPage<T>(list: seq<T>, page: nat, limit: nat): Option<seq<T>> {
    if TooFar(page, limit) then None else Some(GetPage(list, page, limit))
  }

  lemma SliceIsIntendedIff<T>(list: seq<T>, page: nat, limit: nat)
    requires 1 <= page <= TWO64 && 0 < limit && |list| <= TWO64
    ensures GetPage(list, page, limit) == Intended(list, page, limit) <==>
      (page - 1) * limit < TWO64 || Offset(page, limit) >= |list|
  {
    if (page - 1) * limit < TWO64 {
      OffsetExact(page, limit);
    } else {
      assert Intended(list, page, limit) == [];
      assert |GetPage(list, page, limit)| == 0 <==> Offset(page, limit) >= |list|;
    }
  }

  /** The query answers with the page that was meant if and only if the offset is
      one the database takes and did not wrap around into the list. */
  lemma PageIsIntendedIff<T>(list: seq<T>, page: nat, limit: nat)
    requires 1 <= page <= TWO64 && 0 < limit && |list| <= TWO64
    ensures QueryPage(list, page, limit) == Some(Intended(list, page, limit)) <==>
      Offset(page, limit) < Words.TWO63 && ((page - 1) * limit < TWO64 || Offset(page, limit) >= |list|)
  {
    SliceIsIntendedIff(list, page, limit);
  }

  /** The pages of a list that a count can report are all answered. */
  lemma PagesAnswered<T>(list: seq<T>, limit: nat, n: nat)
    requires limit > 0 && |list| <= Words.TWO63 && 1 <= n <= PageCount(|list|, limit)
    ensures QueryPage(list, n, limit) == Some(GetPage(list, n, limit))
  {
    var count := PageCount(|list|, limit);
    CountBounds(|list|, limit);
    MulLess(n - 1, count - 1, limit);
    AtLeast(n - 1, limit);
    OffsetExact(n, limit);
  }

  lemma MulLess(a: nat, b: nat, limit: nat)
    requires a <= b
    ensures a * limit <= b * limit && (b + 1) * limit == b * limit + limit
  {
    assert b * limit == a * limit + (b - a) * limit;
  }

  /** A page and limit the parser can return, far past the end of any list,
      that show the first page again. */
  lemma FarPageRepeatsFirst<T>(list: seq<T>) returns (page: nat, limit: nat)
    requires 0 < |list| <= TWO64
    ensures 1 <= page < Words.TWO63 && 1 <= limit <= MAX_LIMIT
    ensures page > PageCount(|list|, limit)
    ensures QueryPage(list, page, limit) == QueryPage(list, 1, limit)
    ensures QueryPage(list, page, limit) != Some(Intended(list, page, limit)) && QueryPage(list, page, limit).Some?
  {
    page, limit := 0x4000_0000_0000_0001, 4;
    assert Offset(page, limit) == 0 && Offset(1, limit) == 0;
    PageIsIntendedIff(list, page, limit);
  }

  // --------------------------------------------------------- generation order

  function Ids(log: seq<SnowflakeFleet.Issue>): seq<int> {
    seq(|log|, i requires 0 <= i < |log| => log[i].id)
  }

  function Reversed<T>(s: seq<T>): seq<T> {
    seq(|s|, i requires 0 <= i < |s| => s[|s| - 1 - i])
  }

  lemma ReversedLists(ids: seq<int>)
    requires Ascending(ids)
    ensures Lists(Reversed(ids), set id | id in ids)
  {
    var r := Reversed(ids);
    assert forall i :: 0 <= i < |ids| ==> ids[i] == r[|ids| - 1 - i];
  }

  lemma OrderedDescUnique(ids: set<int>, s: seq<int>)
    requires Lists(s, ids)
    ensures OrderedDesc(ids) == s
  {
    ListingUnique(OrderedDesc(ids), s);
  }

  lemma IdsIncrease(g: Snowflake.Gen, s: SnowflakeFleet.Fleet)
    requires SnowflakeFleet.Fresh([g]) && SnowflakeFleet.GoodEpoch(g.epoch)
    requires SnowflakeFleet.Reachable([g], s)
    ensures forall i, j :: 0 <= i < j < |s.log| ==> s.log[i].id < s.log[j].id
  {
    SnowflakeFleet.InvHolds([g], s);
    SnowflakeFleet.StrictlyIncreasing([g], s, 0);
    assert forall i :: 0 <= i < |s.log| ==> s.log[i].gen == 0;
  }

  /** The elements of a sequence that are in a set, in their order. */
  function Kept(s: seq<int>, ids: set<int>): seq<int> {
    if |s| == 0 then []
    else Kept(s[..|s| - 1], ids) + (if s[|s| - 1] in ids then [s[|s| - 1]] else [])
  }

  lemma {:induction false} KeptElements(s: seq<int>, ids: set<int>)
    ensures forall x :: x in Kept(s, ids) <==> x in s && x in ids
  {
    if |s| > 0 {
      KeptElements(s[..|s| - 1], ids);
      assert s == s[..|s| - 1] + [s[|s| - 1]];
    }
  }

  predicate Ascending(s: seq<int>) {
    forall i, j :: 0 <= i < j < |s| ==> s[i] < s[j]
  }

  lemma {:induction false} KeptAscends(s: seq<int>, ids: set<int>)
    requires Ascending(s)
    ensures Ascending(Kept(s, ids))
  {
    if |s| > 0 {
      var pre, last := s[..|s| - 1], s[|s| - 1];
      KeptAscends(pre, ids);
      KeptElements(pre, ids);
      var k := Kept(pre, ids);
      forall i | 0 <= i < |k| ensures k[i] < last {
        var x := k[i];
        assert x in k && x in pre;
      }
    }
  }

  /** Any ids of an ascending sequence, listed in descending order, are the ones
      kept of it, backwards. */
  lemma KeptLists(s: seq<int>, ids: set<int>)
    requires Ascending(s) && forall x :: x in ids ==> x in s
    ensures OrderedDesc(ids) == Reversed(Kept(s, ids))
  {
    KeptAscends(s, ids);
    KeptElements(s, ids);
    var k := Kept(s, ids);
    ReversedLists(k);
    assert (set id | id in k) == ids;
    OrderedDescUnique(ids, Reversed(k));
  }

  /** When one generator made the ids, every list of ids it issued, whichever of
      them it holds, is in reverse order of their generation, whatever the clock
      did. */
  lemma NewestFirst(g: Snowflake.Gen, s: SnowflakeFleet.Fleet, ids: set<int>)
    requires SnowflakeFleet.Fresh([g]) && SnowflakeFleet.GoodEpoch(g.epoch)
    requires SnowflakeFleet.Reachable([g], s)
    requires forall id :: id in ids ==> id in Ids(s.log)
    ensures OrderedDesc(ids) == Reversed(Kept(Ids(s.log), ids))
  {
    IdsIncrease(g, s);
    KeptLists(Ids(s.log), ids);
  }
}
