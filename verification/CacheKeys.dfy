/** The keys of the three cache families and the patterns that clear them. */
module CacheKeys {
  import opened Events
  import opened Decimals

  // --------------------------------------------------------------------- keys

  function UserText(user: Option<int>): string {
    match user case None => "all" case Some(u) => Print(u)
  }

  function EventsKey(page: nat, limit: nat, user: Option<int>): string {
    "events:page:" + (Print(page) + ":" + ("limit:" + (Print(limit) + ":" + ("user:" + UserText(user)))))
  }

  /** A time as its clock shows it, with its offset from UTC in seconds. */
  datatype Stamp = Stamp(
    year: int, month: nat, day: nat, hour: nat, minute: nat, second: nat, nanos: nat, offset: int)

  /** Calendar and clock fields have at most two digits. */
  predicate Writable(t: Stamp) {
    && t.month < 100 && t.day < 100
    && t.hour < 100 && t.minute < 100 && t.second < 100
  }

  function Abs(n: int): nat {
    if n < 0 then -n else n
  }

  /** The offset in minutes, rounded towards zero. */
  function Minutes(offset: int): int {
    if offset < 0 then -(-offset / 60) else offset / 60
  }

  function Zone(offset: int): string {
    var m := Minutes(offset);
    if offset == 0 then "Z" else (if m < 0 then "-" else "+") + Clock(Abs(m))
  }

  /** Hours, at least two digits, and minutes. */
  function Clock(m: nat): string {
    AtLeast(2, m / 60) + ":" + Pad(2, m % 60)
  }

  /** At least four digits, and a sign before the year 0. */
  function YearText(year: int): string {
    if year < 0 then "-" + AtLeast(4, -year) else AtLeast(4, year)
  }

  /** A zero-padded number, the character after it, and the rest. */
  function Field(k: nat, n: nat, sep: string, rest: string): string {
    Pad(k, n) + (sep + rest)
  }

  function TimeOfDay(t: Stamp, zone: string): string {
    Field(2, t.hour, ":", Field(2, t.minute, ":", Field(2, t.second, "", zone)))
  }

  function DateAndTime(t: Stamp, zone: string): string {
    YearText(t.year) + ("-" + Field(2, t.month, "-", Field(2, t.day, "T", TimeOfDay(t, zone))))
  }

  /** Format(time.RFC3339): the fraction of a second is dropped. */
  function Rfc3339(t: Stamp): string {
    DateAndTime(t, Zone(t.offset))
  }

  function TimeText(t: Option<Stamp>): string {
    match t case None => "nil" case Some(x) => Rfc3339(x)
  }

  function TypeText(typeID: Option<int>): string {
    match typeID case None => "nil" case Some(n) => Print(n)
  }

  function StatsKey(from: Option<Stamp>, to: Option<Stamp>, typeID: Option<int>): string {
    "stats:from:" + (TimeText(from) + (":to:" + (TimeText(to) + (":type:" + TypeText(typeID)))))
  }

  function EventTypeIdKey(name: string): string {
    "event_type_id:" + name
  }

  // -------------------------------------------------------------- injectivity

  predicate Without(s: string, sep: char) {
    forall i :: 0 <= i < |s| ==> s[i] != sep
  }

  lemma PrintPlain(n: int)
    ensures Without(Print(n), ':') && |Print(n)| >= 1
    ensures '0' <= Print(n)[0] <= '9' || Print(n)[0] == '-'
  {
  }

  /** The text before the first separator. */
  function UpTo(s: string, sep: char): string {
    if |s| == 0 || s[0] == sep then "" else [s[0]] + UpTo(s[1..], sep)
  }

  lemma {:induction false} UpToIs(a: string, sep: char, x: string)
    requires Without(a, sep)
    ensures UpTo(a + [sep] + x, sep) == a
  {
    var s := a + [sep] + x;
    if |a| > 0 {
      assert s[0] == a[0] && s[1..] == a[1..] + [sep] + x;
      UpToIs(a[1..], sep, x);
    }
  }

  /** A separator after a text without one marks where the text ends. */
  lemma SplitAtSeparator(a: string, x: string, b: string, y: string, sep: char)
    requires Without(a, sep) && Without(b, sep) && a + [sep] + x == b + [sep] + y
    ensures a == b && x == y
  {
    UpToIs(a, sep, x);
    UpToIs(b, sep, y);
    SplitAt(a + [sep], x, b + [sep], y);
  }

  /** Equal texts after equally long beginnings. */
  lemma SplitAt(a: string, x: string, b: string, y: string)
    requires |a| == |b| && a + x == b + y
    ensures a == b && x == y
  {
    assert (a + x)[..|a|] == a && (b + y)[..|b|] == b;
    assert (a + x)[|a|..] == x && (b + y)[|b|..] == y;
  }

  lemma UserTextInjective(u: Option<int>, v: Option<int>)
    requires UserText(u) == UserText(v)
    ensures u == v
  {
    if u.Some? { PrintPlain(u.value); }
    if v.Some? { PrintPlain(v.value); }
    if u.Some? && v.Some? { PrintInjective(u.value, v.value); }
  }

  lemma TypeTextInjective(u: Option<int>, v: Option<int>)
    requires TypeText(u) == TypeText(v)
    ensures u == v
  {
    if u.Some? { PrintPlain(u.value); }
    if v.Some? { PrintPlain(v.value); }
    if u.Some? && v.Some? { PrintInjective(u.value, v.value); }
  }

  lemma NumberThenColon(m: int, x: string, n: int, y: string)
    requires Print(m) + ":" + x == Print(n) + ":" + y
    ensures m == n && x == y
  {
    PrintPlain(m);
    PrintPlain(n);
    SplitAtSeparator(Print(m), x, Print(n), y, ':');
    PrintInjective(m, n);
  }

  /** Two pages share a key only if they are the same page. */
  lemma EventsKeyInjective(p: nat, l: nat, u: Option<int>, p': nat, l': nat, u': Option<int>)
    requires EventsKey(p, l, u) == EventsKey(p', l', u')
    ensures p == p' && l == l' && u == u'
  {
    var user, user' := "user:" + UserText(u), "user:" + UserText(u');
    var limit, limit' := Print(l) + ":" + user, Print(l') + ":" + user';
    var page, page' := Print(p) + ":" + ("limit:" + limit), Print(p') + ":" + ("limit:" + limit');
    SplitAt("events:page:", page, "events:page:", page');
    NumberThenColon(p, "limit:" + limit, p', "limit:" + limit');
    SplitAt("limit:", limit, "limit:", limit');
    NumberThenColon(l, user, l', user');
    SplitAt("user:", UserText(u), "user:", UserText(u'));
    UserTextInjective(u, u');
  }

  /** The same offset, disregarding seconds; UTC is told apart from an offset of
      some seconds. */
  predicate SameZone(o: int, o': int) {
    Minutes(o) == Minutes(o') && (o == 0 <==> o' == 0)
  }

  /** The same time, disregarding fractions of a second and seconds of offset. */
  predicate SameSecond(s: Stamp, t: Stamp) {
    s == t.(nanos := s.nanos, offset := s.offset) && SameZone(s.offset, t.offset)
  }

  predicate SameTime(s: Option<Stamp>, t: Option<Stamp>) {
    match (s, t)
    case (None, None) => true
    case (Some(x), Some(y)) => SameSecond(x, y)
    case _ => false
  }

  lemma FieldInjective(k: nat, m: nat, x: string, n: nat, y: string, sep: string)
    requires m < Power10(k) && n < Power10(k) && Field(k, m, sep, x) == Field(k, n, sep, y)
    ensures m == n && x == y
  {
    SplitAt(Pad(k, m), sep + x, Pad(k, n), sep + y);
    PadInjective(k, m, n);
    SplitAt(sep, x, sep, y);
  }

  lemma Tens()
    ensures Power10(2) == 100 && Power10(4) == 10000
  {
    assert Power10(1) == 10;
    assert Power10(3) == 1000;
  }

  lemma TimeOfDayInjective(s: Stamp, x: string, t: Stamp, y: string)
    requires Writable(s) && Writable(t) && TimeOfDay(s, x) == TimeOfDay(t, y)
    ensures s.hour == t.hour && s.minute == t.minute && s.second == t.second && x == y
  {
    Tens();
    var a, b := Field(2, s.second, "", x), Field(2, t.second, "", y);
    var c, d := Field(2, s.minute, ":", a), Field(2, t.minute, ":", b);
    FieldInjective(2, s.hour, c, t.hour, d, ":");
    FieldInjective(2, s.minute, a, t.minute, b, ":");
    FieldInjective(2, s.second, x, t.second, y, "");
  }

  lemma YearInjective(y: int, x: string, y': int, x': string)
    requires YearText(y) + ("-" + x) == YearText(y') + ("-" + x')
    ensures y == y' && x == x'
  {
    YearStarts(y, x);
    YearStarts(y', x');
    var a, b := AtLeast(4, Abs(y)), AtLeast(4, Abs(y'));
    if y < 0 {
      Assoc("-", a, "-" + x);
      Assoc("-", b, "-" + x');
      SplitAt("-", a + ("-" + x), "-", b + ("-" + x'));
    }
    Assoc(a, "-", x);
    Assoc(b, "-", x');
    SplitAtSeparator(a, x, b, x', '-');
    ValueOfAtLeast(4, Abs(y));
    ValueOfAtLeast(4, Abs(y'));
  }

  lemma YearStarts(y: int, x: string)
    ensures |YearText(y)| > 0
    ensures y < 0 <==> (YearText(y) + ("-" + x))[0] == '-'
    ensures '0' <= YearText(y)[0] <= '9' || YearText(y)[0] == '-'
    ensures Without(AtLeast(4, Abs(y)), '-')
  {
    assert |AtLeast(4, Abs(y))| > 0;
  }

  lemma DateAndTimeInjective(s: Stamp, x: string, t: Stamp, y: string)
    requires Writable(s) && Writable(t) && DateAndTime(s, x) == DateAndTime(t, y)
    ensures s.year == t.year && s.month == t.month && s.day == t.day
    ensures s.hour == t.hour && s.minute == t.minute && s.second == t.second && x == y
  {
    Tens();
    var a, b := TimeOfDay(s, x), TimeOfDay(t, y);
    var c, d := Field(2, s.day, "T", a), Field(2, t.day, "T", b);
    var e, f := Field(2, s.month, "-", c), Field(2, t.month, "-", d);
    YearInjective(s.year, e, t.year, f);
    FieldInjective(2, s.month, c, t.month, d, "-");
    FieldInjective(2, s.day, a, t.day, b, "T");
    TimeOfDayInjective(s, x, t, y);
  }

  /** The zone ends where it says it does, and says which it is. */
  lemma ZoneInjective(o: int, x: string, o': int, y: string)
    requires Zone(o) + x == Zone(o') + y
    ensures SameZone(o, o') && x == y
  {
    ZoneStarts(o, x);
    ZoneStarts(o', y);
    if o == 0 {
      SplitAt("Z", x, "Z", y);
    } else {
      var sign, sign' := Zone(o)[..1], Zone(o')[..1];
      Assoc(sign, Clock(Abs(Minutes(o))), x);
      Assoc(sign', Clock(Abs(Minutes(o'))), y);
      SplitAt(sign, Clock(Abs(Minutes(o))) + x, sign', Clock(Abs(Minutes(o'))) + y);
      ClockInjective(Abs(Minutes(o)), x, Abs(Minutes(o')), y);
    }
  }

  lemma ClockInjective(m: nat, x: string, m': nat, y: string)
    requires Clock(m) + x == Clock(m') + y
    ensures m == m' && x == y
  {
    Tens();
    var a, b := AtLeast(2, m / 60), AtLeast(2, m' / 60);
    Assoc(a + ":", Pad(2, m % 60), x);
    Assoc(b + ":", Pad(2, m' % 60), y);
    SplitAtSeparator(a, Pad(2, m % 60) + x, b, Pad(2, m' % 60) + y, ':');
    SplitAt(Pad(2, m % 60), x, Pad(2, m' % 60), y);
    PadInjective(2, m % 60, m' % 60);
    ValueOfAtLeast(2, m / 60);
    ValueOfAtLeast(2, m' / 60);
  }

  lemma ZoneStarts(o: int, x: string)
    ensures |Zone(o)| > 0
    ensures (Zone(o) + x)[0] == (if o == 0 then 'Z' else if Minutes(o) < 0 then '-' else '+')
    ensures o != 0 ==> Zone(o) == Zone(o)[..1] + Clock(Abs(Minutes(o)))
  {
  }

  lemma MoveRest(s: Stamp, zone: string, x: string)
    ensures DateAndTime(s, zone) + x == DateAndTime(s, zone + x)
  {
    var a := Field(2, s.second, "", zone);
    FieldMoves(2, s.second, "", zone, x);
    FieldMoves(2, s.minute, ":", a, x);
    var b := Field(2, s.minute, ":", a);
    FieldMoves(2, s.hour, ":", b, x);
    var c := TimeOfDay(s, zone);
    FieldMoves(2, s.day, "T", c, x);
    var d := Field(2, s.day, "T", c);
    FieldMoves(2, s.month, "-", d, x);
    var e := Field(2, s.month, "-", d);
    Assoc(YearText(s.year), "-" + e, x);
    Assoc("-", e, x);
  }

  lemma FieldMoves(k: nat, n: nat, sep: string, rest: string, x: string)
    ensures Field(k, n, sep, rest) + x == Field(k, n, sep, rest + x)
  {
    Assoc(Pad(k, n), sep + rest, x);
    Assoc(sep, rest, x);
  }

  lemma Assoc(a: string, b: string, c: string)
    ensures a + b + c == a + (b + c)
  {
  }

  /** A time written into a longer text can be read back out of it. */
  lemma TimeTextInjective(s: Option<Stamp>, x: string, t: Option<Stamp>, y: string)
    requires s.Some? ==> Writable(s.value)
    requires t.Some? ==> Writable(t.value)
    requires TimeText(s) + x == TimeText(t) + y
    ensures SameTime(s, t) && x == y
  {
    TimeTextStarts(s, x);
    TimeTextStarts(t, y);
    if s.Some? {
      var z, w := Zone(s.value.offset), Zone(t.value.offset);
      MoveRest(s.value, z, x);
      MoveRest(t.value, w, y);
      DateAndTimeInjective(s.value, z + x, t.value, w + y);
      ZoneInjective(s.value.offset, x, t.value.offset, y);
    } else {
      SplitAt("nil", x, "nil", y);
    }
  }

  lemma TimeTextStarts(t: Option<Stamp>, x: string)
    ensures |TimeText(t)| > 0
    ensures t.None? <==> (TimeText(t) + x)[0] == 'n'
  {
    if t.Some? {
      YearStarts(t.value.year, "");
      assert TimeText(t)[0] == YearText(t.value.year)[0];
    }
  }

  lemma SameTimeSameText(s: Option<Stamp>, t: Option<Stamp>)
    requires SameTime(s, t)
    ensures TimeText(s) == TimeText(t)
  {
    if s.Some? {
      assert Zone(s.value.offset) == Zone(t.value.offset);
    }
  }

  lemma StatsKeyParts(
      f: Option<Stamp>, t: Option<Stamp>, n: Option<int>, f': Option<Stamp>, t': Option<Stamp>, n': Option<int>)
    requires (f.Some? ==> Writable(f.value)) && (f'.Some? ==> Writable(f'.value))
    requires (t.Some? ==> Writable(t.value)) && (t'.Some? ==> Writable(t'.value))
    requires StatsKey(f, t, n) == StatsKey(f', t', n')
    ensures SameTime(f, f') && SameTime(t, t') && n == n'
  {
    var a, a' := ":type:" + TypeText(n), ":type:" + TypeText(n');
    var b, b' := ":to:" + (TimeText(t) + a), ":to:" + (TimeText(t') + a');
    SplitAt("stats:from:", TimeText(f) + b, "stats:from:", TimeText(f') + b');
    TimeTextInjective(f, b, f', b');
    SplitAt(":to:", TimeText(t) + a, ":to:", TimeText(t') + a');
    TimeTextInjective(t, a, t', a');
    SplitAt(":type:", TypeText(n), ":type:", TypeText(n'));
    TypeTextInjective(n, n');
  }

  /** Two stats queries share a key if and only if they are the same query,
      fractions of a second and seconds of offset aside. */
  lemma StatsKeyInjective(
      f: Option<Stamp>, t: Option<Stamp>, n: Option<int>, f': Option<Stamp>, t': Option<Stamp>, n': Option<int>)
    requires (f.Some? ==> Writable(f.value)) && (f'.Some? ==> Writable(f'.value))
    requires (t.Some? ==> Writable(t.value)) && (t'.Some? ==> Writable(t'.value))
    ensures StatsKey(f, t, n) == StatsKey(f', t', n') <==> SameTime(f, f') && SameTime(t, t') && n == n'
  {
    if StatsKey(f, t, n) == StatsKey(f', t', n') {
      StatsKeyParts(f, t, n, f', t', n');
    }
    if SameTime(f, f') && SameTime(t, t') && n == n' {
      SameTimeSameText(f, f');
      SameTimeSameText(t, t');
    }
  }

  // ----------------------------------------------------------------- patterns

  /** Redis glob matching, for patterns of literals, `*` and `?`. */
  predicate Glob(p: string, s: string)
    decreases |p| + |s|
  {
    if |p| == 0 then |s| == 0
    else if p[0] == '*' then Glob(p[1..], s) || (|s| > 0 && Glob(p, s[1..]))
    else |s| > 0 && (p[0] == '?' || p[0] == s[0]) && Glob(p[1..], s[1..])
  }

  predicate Plain(p: string) {
    forall i :: 0 <= i < |p| ==> p[i] != '*' && p[i] != '?'
  }

  lemma {:induction false} StarMatchesAll(s: string)
    ensures Glob("*", s)
  {
    if |s| > 0 {
      StarMatchesAll(s[1..]);
    } else {
      assert "*"[1..] == "";
    }
  }

  /** A literal and a star match exactly the texts the literal begins. */
  lemma {:induction false} PrefixPattern(p: string, s: string)
    requires Plain(p)
    ensures Glob(p + "*", s) <==> p <= s
  {
    if |p| == 0 {
      assert p + "*" == "*";
      StarMatchesAll(s);
    } else if |s| > 0 {
      assert (p + "*")[1..] == p[1..] + "*";
      PrefixPattern(p[1..], s[1..]);
      assert p <= s <==> p[0] == s[0] && p[1..] <= s[1..];
    }
  }

  const EVENTS_PATTERN := "events:*"
  const STATS_PATTERN := "stats:*"

  /** What the two invalidations match, whatever the key. */
  lemma PatternsAreFamilies(s: string)
    ensures Glob(EVENTS_PATTERN, s) <==> "events:" <= s
    ensures Glob(STATS_PATTERN, s) <==> "stats:" <= s
  {
    assert EVENTS_PATTERN == "events:" + "*" && STATS_PATTERN == "stats:" + "*";
    PrefixPattern("events:", s);
    PrefixPattern("stats:", s);
  }

  lemma Differ(p: string, s: string, i: nat)
    requires i < |p| && i < |s| && p[i] != s[i]
    ensures !(p <= s)
  {
  }

  /** Each pattern clears its own family and nothing else: no type name, for
      one, makes a type key look like a page or a stats key. */
  lemma FamiliesApart(page: nat, limit: nat, user: Option<int>, name: string)
    ensures Glob(EVENTS_PATTERN, EventsKey(page, limit, user)) && !Glob(STATS_PATTERN, EventsKey(page, limit, user))
    ensures !Glob(EVENTS_PATTERN, EventTypeIdKey(name)) && !Glob(STATS_PATTERN, EventTypeIdKey(name))
  {
    PatternsAreFamilies(EventsKey(page, limit, user));
    var key := EventTypeIdKey(name);
    PatternsAreFamilies(key);
    Differ("events:", key, 5);
    Differ("stats:", key, 0);
  }

  lemma StatsFamilyApart(from: Option<Stamp>, to: Option<Stamp>, typeID: Option<int>)
    ensures Glob(STATS_PATTERN, StatsKey(from, to, typeID)) && !Glob(EVENTS_PATTERN, StatsKey(from, to, typeID))
  {
    PatternsAreFamilies(StatsKey(from, to, typeID));
  }

  /** Two type names share a key only if they are the same name. */
  lemma EventTypeIdKeyInjective(name: string, name': string)
    requires EventTypeIdKey(name) == EventTypeIdKey(name')
    ensures name == name'
  {
    SplitAt("event_type_id:", name, "event_type_id:", name');
  }

  // ------------------------------------------------------------------ formats

  lemma FlattenPage(p: string, l: string, u: string)
    ensures "events:page:" + (p + ":" + ("limit:" + (l + ":" + ("user:" + u))))
         == "events:page:" + p + ":limit:" + l + ":user:" + u
  {
  }

  lemma FlattenStats(f: string, t: string, n: string)
    ensures "stats:from:" + (f + (":to:" + (t + (":type:" + n)))) == "stats:from:" + f + ":to:" + t + ":type:" + n
  {
  }

  /** The documented format of a page key. */
  lemma EventsKeyFormat(page: nat, limit: nat, user: Option<int>)
    ensures EventsKey(page, limit, user)
         == "events:page:" + Print(page) + ":limit:" + Print(limit) + ":user:" + (if user.None? then "all" else Print(user.value))
  {
    FlattenPage(Print(page), Print(limit), UserText(user));
  }

  /** The documented format of a stats key. */
  lemma StatsKeyFormat(from: Option<Stamp>, to: Option<Stamp>, typeID: Option<int>)
    ensures StatsKey(from, to, typeID)
         == "stats:from:" + (if from.None? then "nil" else Rfc3339(from.value))
            + ":to:" + (if to.None? then "nil" else Rfc3339(to.value))
            + ":type:" + (if typeID.None? then "nil" else Print(typeID.value))
  {
    FlattenStats(TimeText(from), TimeText(to), TypeText(typeID));
  }
}
