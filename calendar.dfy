/**
 * `_structure_calendar_by_day`: each event gets `formatted_time` from its
 * start and end, events are grouped by the date of their start, and every
 * group is sorted by the `startDateTime` string.
 *
 * `datetime.fromisoformat` is modelled for timestamps of the shape
 * `YYYY-MM-DD?HH:MM[:SS[.fraction]][+HH:MM|-HH:MM]` (any separator
 * character at index 10), after every "Z" has been replaced by "+00:00".
 * For such a string the `%Y-%m-%d` of the parsed value is characters 0-9 and
 * its `%H:%M` is characters 11-15, in the offset as written.
 */
module Calendar {
  import opened Wrappers
  import opened Dict
  import opened Decimal
  import opened Portal
  import opened State

  // ---------------------------------------------------------------- timestamps

  /** `s.replace("Z", "+00:00")`. */
  function Normalize(s: string): string {
    if s == [] then ""
    else (if s[0] == 'Z' then "+00:00" else [s[0]]) + Normalize(s[1..])
  }

  lemma {:induction false} NormalizeAppend(a: string, b: string)
    ensures Normalize(a + b) == Normalize(a) + Normalize(b)
  {
    if a != [] {
      var h := if a[0] == 'Z' then "+00:00" else [a[0]];
      assert (a + b)[0] == a[0];
      assert (a + b)[1..] == a[1..] + b;
      NormalizeAppend(a[1..], b);
      assert Normalize(a + b) == h + (Normalize(a[1..]) + Normalize(b));
      assert Normalize(a) == h + Normalize(a[1..]);
    } else {
      assert a + b == b;
    }
  }

  /** A trailing "Z" reads the same as "+00:00". */
  lemma ZuluIsUtc(prefix: string)
    ensures Normalize(prefix + "Z") == Normalize(prefix + "+00:00")
    ensures DayKey(prefix + "Z") == DayKey(prefix + "+00:00") && Clock(prefix + "Z") == Clock(prefix + "+00:00")
  {
    NormalizeAppend(prefix, "Z");
    NormalizeAppend(prefix, "+00:00");
    assert Normalize("Z") == "+00:00" by { assert "Z"[1..] == ""; }
    assert Normalize("+00:00") == "+00:00" by {
      assert "+00:00"[1..] == "00:00";
      assert "00:00"[1..] == "0:00";
      assert "0:00"[1..] == ":00";
      assert ":00"[1..] == "00";
      assert "00"[1..] == "0";
      assert "0"[1..] == "";
    }
  }

  predicate DigitsAt(t: string, i: nat, j: nat)
    requires i <= j <= |t|
  {
    forall k :: i <= k < j ==> IsDigit(t[k])
  }

  /** The two-digit number at positions i and i + 1. */
  function Two(t: string, i: nat): nat
    requires i + 2 <= |t| && DigitsAt(t, i, i + 2)
  {
    DigitValue(t[i]) * 10 + DigitValue(t[i + 1])
  }

  function Four(t: string): nat
    requires 4 <= |t| && DigitsAt(t, 0, 4)
  {
    Two(t, 0) * 100 + Two(t, 2)
  }

  predicate IsLeap(y: nat) {
    y % 4 == 0 && (y % 100 != 0 || y % 400 == 0)
  }

  function DaysIn(y: nat, m: nat): nat {
    if m == 2 then (if IsLeap(y) then 29 else 28)
    else if m == 4 || m == 6 || m == 9 || m == 11 then 30
    else 31
  }

  /** An optional UTC offset `+HH:MM` or `-HH:MM`. */
  predicate IsZone(t: string) {
    t == "" ||
    (|t| == 6 && (t[0] == '+' || t[0] == '-') && DigitsAt(t, 1, 3) && t[3] == ':' && DigitsAt(t, 4, 6) &&
     Two(t, 1) <= 23 && Two(t, 4) <= 59)
  }

  /** One or more fraction digits, then an optional offset. */
  predicate IsFractionZone(t: string)
    decreases |t|
  {
    |t| >= 1 && IsDigit(t[0]) && (IsZone(t[1..]) || IsFractionZone(t[1..]))
  }

  /** What may follow `HH:MM`: nothing, an offset, or `:SS`, an optional fraction and an optional offset. */
  predicate IsTail(t: string) {
    IsZone(t) ||
    (|t| >= 3 && t[0] == ':' && DigitsAt(t, 1, 3) && Two(t, 1) <= 59 &&
     (IsZone(t[3..]) || (|t| >= 5 && t[3] == '.' && IsFractionZone(t[4..]))))
  }

  /** A timestamp `fromisoformat` accepts, in the shape modelled here. */
  predicate IsTimestamp(t: string) {
    && |t| >= 16
    && DigitsAt(t, 0, 4) && t[4] == '-' && DigitsAt(t, 5, 7) && t[7] == '-' && DigitsAt(t, 8, 10)
    && DigitsAt(t, 11, 13) && t[13] == ':' && DigitsAt(t, 14, 16)
    && Four(t) >= 1 && 1 <= Two(t, 5) <= 12 && 1 <= Two(t, 8) <= DaysIn(Four(t), Two(t, 5))
    && Two(t, 11) <= 23 && Two(t, 14) <= 59
    && IsTail(t[16..])
  }

  /** `strftime("%Y-%m-%d")` of the parsed start: its first ten characters. */
  function DayKey(s: string): string {
    var t := Normalize(s);
    if |t| >= 10 then t[..10] else ""
  }

  /** `strftime("%H:%M")` of a parsed timestamp. */
  function Clock(s: string): string {
    var t := Normalize(s);
    if |t| >= 16 then t[11..16] else ""
  }

  /** Both timestamps of the event parse. */
  predicate Parses(e: Event) {
    IsTimestamp(Normalize(e.startDateTime)) && IsTimestamp(Normalize(e.endDateTime))
  }

  /** The event with `formatted_time = "HH:MM - HH:MM"` set from its start and end. */
  function Annotated(e: Event): (a: Event)
    ensures a.startDateTime == e.startDateTime && a.endDateTime == e.endDateTime
    ensures a.belongsToProfiles == e.belongsToProfiles && a.other == e.other
    ensures a.formattedTime == Some(Clock(e.startDateTime) + " - " + Clock(e.endDateTime))
  {
    e.(formattedTime := Some(Clock(e.startDateTime) + " - " + Clock(e.endDateTime)))
  }

  function AnnotatedAll(es: seq<Event>): (r: seq<Event>)
    ensures |r| == |es|
    ensures forall i :: 0 <= i < |es| ==> r[i] == Annotated(es[i])
  {
    if es == [] then [] else AnnotatedAll(es[..|es| - 1]) + [Annotated(es[|es| - 1])]
  }

  // ---------------------------------------------------------------- ordering

  /** Python's `<=` on strings: lexicographic by code point. */
  predicate StrLe(a: string, b: string) {
    if a == [] then true
    else if b == [] then false
    else if a[0] != b[0] then a[0] < b[0]
    else StrLe(a[1..], b[1..])
  }

  lemma {:induction false} StrLeReflexive(a: string)
    ensures StrLe(a, a)
  {
    if a != [] { StrLeReflexive(a[1..]); }
  }

  lemma {:induction false} StrLeTotal(a: string, b: string)
    ensures StrLe(a, b) || StrLe(b, a)
  {
    if a != [] && b != [] && a[0] == b[0] { StrLeTotal(a[1..], b[1..]); }
  }

  lemma {:induction false} StrLeTransitive(a: string, b: string, c: string)
    requires StrLe(a, b) && StrLe(b, c)
    ensures StrLe(a, c)
  {
    if a != [] && b != [] && c != [] && a[0] == b[0] && b[0] == c[0] {
      StrLeTransitive(a[1..], b[1..], c[1..]);
    }
  }

  /** Sorted ascending by `startDateTime`. */
  ghost predicate SortedByStart(s: seq<Event>) {
    forall i, j :: 0 <= i < j < |s| ==> StrLe(s[i].startDateTime, s[j].startDateTime)
  }

  /** Insert x after every element whose start is not greater: the step of a stable sort. */
  function Insert(s: seq<Event>, x: Event): seq<Event> {
    if s == [] then [x]
    else if StrLe(s[|s| - 1].startDateTime, x.startDateTime) then s + [x]
    else Insert(s[..|s| - 1], x) + [s[|s| - 1]]
  }

  /** `list.sort(key=lambda x: x["startDateTime"])`, a stable sort. */
  function SortByStart(xs: seq<Event>): seq<Event> {
    if xs == [] then [] else Insert(SortByStart(xs[..|xs| - 1]), xs[|xs| - 1])
  }

  lemma {:induction false} InsertPermutes(s: seq<Event>, x: Event)
    ensures multiset(Insert(s, x)) == multiset(s) + multiset{x}
  {
    if s != [] && !StrLe(s[|s| - 1].startDateTime, x.startDateTime) {
      InsertPermutes(s[..|s| - 1], x);
      assert s == s[..|s| - 1] + [s[|s| - 1]];
    }
  }

  lemma {:induction false} InsertSorted(s: seq<Event>, x: Event)
    requires SortedByStart(s)
    ensures SortedByStart(Insert(s, x))
  {
    if s == [] {
    } else if StrLe(s[|s| - 1].startDateTime, x.startDateTime) {
      var r := s + [x];
      forall i, j | 0 <= i < j < |r| ensures StrLe(r[i].startDateTime, r[j].startDateTime) {
        if j == |s| && i < |s| - 1 {
          StrLeTransitive(s[i].startDateTime, s[|s| - 1].startDateTime, x.startDateTime);
        } else if j == |s| {
        }
      }
    } else {
      var init, last := s[..|s| - 1], s[|s| - 1];
      InsertSorted(init, x);
      InsertPermutes(init, x);
      StrLeTotal(last.startDateTime, x.startDateTime);
      var ins := Insert(init, x);
      var r := ins + [last];
      forall i, j | 0 <= i < j < |r| ensures StrLe(r[i].startDateTime, r[j].startDateTime) {
        if j == |ins| {
          assert r[i] in multiset(ins);
          if r[i] != x {
            assert r[i] in multiset(init);
            var k :| 0 <= k < |init| && init[k] == r[i];
            assert s[k] == r[i];
          }
        }
      }
    }
  }

  lemma {:induction false} SortByStartSorted(xs: seq<Event>)
    ensures SortedByStart(SortByStart(xs))
  {
    if xs != [] {
      SortByStartSorted(xs[..|xs| - 1]);
      InsertSorted(SortByStart(xs[..|xs| - 1]), xs[|xs| - 1]);
    }
  }

  lemma {:induction false} SortByStartPermutes(xs: seq<Event>)
    ensures multiset(SortByStart(xs)) == multiset(xs)
  {
    if xs != [] {
      var init, x := xs[..|xs| - 1], xs[|xs| - 1];
      SortByStartPermutes(init);
      InsertPermutes(SortByStart(init), x);
      MultisetSnoc(xs);
    }
  }

  lemma MultisetSnoc<T>(s: seq<T>)
    requires s != []
    ensures multiset(s) == multiset(s[..|s| - 1]) + multiset{s[|s| - 1]}
  {
    assert s == s[..|s| - 1] + [s[|s| - 1]];
  }

  /** Sorting orders the events by start and keeps exactly the same events. */
  lemma SortByStartCorrect(xs: seq<Event>)
    ensures SortedByStart(SortByStart(xs))
    ensures multiset(SortByStart(xs)) == multiset(xs)
  {
    SortByStartSorted(xs);
    SortByStartPermutes(xs);
  }

  /** The events of s whose start is exactly t, in order. */
  function WithStart(s: seq<Event>, t: string): seq<Event> {
    if s == [] then []
    else WithStart(s[..|s| - 1], t) + (if s[|s| - 1].startDateTime == t then [s[|s| - 1]] else [])
  }

  lemma {:induction false} WithStartAppend(a: seq<Event>, b: seq<Event>, t: string)
    ensures WithStart(a + b, t) == WithStart(a, t) + WithStart(b, t)
    decreases |b|
  {
    if b != [] {
      var last := b[|b| - 1];
      var tail := if last.startDateTime == t then [last] else [];
      assert (a + b)[..|a + b| - 1] == a + b[..|b| - 1];
      assert (a + b)[|a + b| - 1] == last;
      WithStartAppend(a, b[..|b| - 1], t);
      assert WithStart(a + b, t) == WithStart(a, t) + WithStart(b[..|b| - 1], t) + tail;
    } else {
      assert a + b == a;
    }
  }

  lemma WithStartSingle(e: Event, t: string)
    ensures WithStart([e], t) == if e.startDateTime == t then [e] else []
  {
    assert [e][..0] == [];
  }

  lemma {:induction false} InsertStable(s: seq<Event>, x: Event, t: string)
    ensures WithStart(Insert(s, x), t) == WithStart(s, t) + (if x.startDateTime == t then [x] else [])
  {
    if s == [] {
      WithStartSingle(x, t);
    } else if StrLe(s[|s| - 1].startDateTime, x.startDateTime) {
      assert Insert(s, x) == s + [x];
      WithStartAppend(s, [x], t);
      WithStartSingle(x, t);
    } else {
      var init, last := s[..|s| - 1], s[|s| - 1];
      assert Insert(s, x) == Insert(init, x) + [last];
      InsertStable(init, x, t);
      StrLeReflexive(x.startDateTime);
      WithStartSingle(last, t);
      WithStartAppend(Insert(init, x), [last], t);
      SwapEmpty(WithStart(init, t), if x.startDateTime == t then [x] else [], WithStart([last], t));
      WithStartSnoc(s, t);
    }
  }

  /** Two pieces at most one of which is non-empty commute. */
  lemma SwapEmpty<T>(a: seq<T>, m: seq<T>, n: seq<T>)
    requires m == [] || n == []
    ensures a + m + n == a + n + m
  {
    if m == [] { assert a + m == a; assert a + n + m == a + n; } else { assert a + n == a; assert a + m + n == a + m; }
  }

  lemma WithStartSnoc(s: seq<Event>, t: string)
    requires s != []
    ensures WithStart(s, t) == WithStart(s[..|s| - 1], t) + WithStart([s[|s| - 1]], t)
  {
    WithStartSingle(s[|s| - 1], t);
  }

  /** The sort is stable: events with equal starts keep their input order. */
  lemma {:induction false} SortByStartStable(xs: seq<Event>, t: string)
    ensures WithStart(SortByStart(xs), t) == WithStart(xs, t)
  {
    if xs != [] {
      SortByStartStable(xs[..|xs| - 1], t);
      InsertStable(SortByStart(xs[..|xs| - 1]), xs[|xs| - 1], t);
    }
  }

  // ---------------------------------------------------------------- grouping

  /** One event of the first loop: parse its start and end, set `formatted_time`. */
  function Annotate(e: Event): (r: Result<Event, Error>)
    ensures r.Success? <==> Parses(e)
    ensures r.Success? ==> r.value == Annotated(e)
    ensures r.Failure? ==> r.error == BadTimestamp
  {
    if !IsTimestamp(Normalize(e.startDateTime)) then Failure(BadTimestamp)
    else if !IsTimestamp(Normalize(e.endDateTime)) then Failure(BadTimestamp)
    else Success(Annotated(e))
  }

  /** The events of xs whose start falls on day k, in order. */
  function OnDay(xs: seq<Event>, k: string): seq<Event> {
    if xs == [] then []
    else OnDay(xs[..|xs| - 1], k) + (if DayKey(xs[|xs| - 1].startDateTime) == k then [xs[|xs| - 1]] else [])
  }

  /** The days some event starts on. */
  ghost predicate IsStartDay(es: seq<Event>, k: string) {
    exists i :: 0 <= i < |es| && DayKey(es[i].startDateTime) == k
  }

  /** One pass of the first loop: annotate the event and append it to its day's list. */
  function Add(g: Result<Dict<string, seq<Event>>, Error>, e: Event): Result<Dict<string, seq<Event>>, Error> {
    match g
    case Failure(err) => Failure(err)
    case Success(d) =>
      match Annotate(e)
      case Failure(err) => Failure(err)
      case Success(a) =>
        var k := DayKey(a.startDateTime);
        Success(Put(d, k, Lookup(d, k).GetOr([]) + [a]))
  }

  /** The first loop: `daily_events[date_str].append(event)` for every event in turn. */
  function Group(es: seq<Event>): Result<Dict<string, seq<Event>>, Error> {
    if es == [] then Success([]) else Add(Group(es[..|es| - 1]), es[|es| - 1])
  }

  /** The second loop: sort every day's list. */
  function SortGroups(d: Dict<string, seq<Event>>): (r: Dict<string, seq<Event>>)
    ensures Keys(r) == Keys(d)
  {
    if d == [] then []
    else SortGroups(d[..|d| - 1]) + [(d[|d| - 1].0, SortByStart(d[|d| - 1].1))]
  }

  /** `_structure_calendar_by_day` on a list of events. */
  function Structure(es: seq<Event>): Result<Dict<string, seq<Event>>, Error> {
    match Group(es)
    case Failure(err) => Failure(err)
    case Success(d) => Success(SortGroups(d))
  }

  lemma {:induction false} SortGroupsAt(d: Dict<string, seq<Event>>, i: nat)
    requires i < |d|
    ensures |SortGroups(d)| == |d|
    ensures SortGroups(d)[i] == (d[i].0, SortByStart(d[i].1))
  {
    if i < |d| - 1 {
      SortGroupsAt(d[..|d| - 1], i);
    } else if |d| > 1 {
      SortGroupsAt(d[..|d| - 1], 0);
    }
  }

  lemma AddFails(g: Result<Dict<string, seq<Event>>, Error>, e: Event)
    ensures Add(g, e).Failure? <==> g.Failure? || !Parses(e)
    ensures Add(g, e).Failure? ==> Add(g, e).error == (if g.Failure? then g.error else BadTimestamp)
  {
  }

  lemma AddSucceeds(g: Result<Dict<string, seq<Event>>, Error>, e: Event, d: Dict<string, seq<Event>>)
    requires Add(g, e) == Success(d)
    ensures g.Success?
    ensures var a := Annotated(e);
      d == Put(g.value, DayKey(a.startDateTime), Lookup(g.value, DayKey(a.startDateTime)).GetOr([]) + [a])
  {
  }

  lemma GroupSuccessStep(es: seq<Event>, d: Dict<string, seq<Event>>)
    requires es != [] && Group(es) == Success(d)
    ensures Group(es[..|es| - 1]).Success?
    ensures var d0 := Group(es[..|es| - 1]).value; var a := Annotated(es[|es| - 1]);
      d == Put(d0, DayKey(a.startDateTime), Lookup(d0, DayKey(a.startDateTime)).GetOr([]) + [a])
  {
    AddSucceeds(Group(es[..|es| - 1]), es[|es| - 1], d);
  }

  /** Every event parses, checked from the last one back. */
  predicate AllParse(es: seq<Event>) {
    es == [] || (AllParse(es[..|es| - 1]) && Parses(es[|es| - 1]))
  }

  lemma {:induction false} AllParseEvery(es: seq<Event>)
    ensures AllParse(es) <==> forall i :: 0 <= i < |es| ==> Parses(es[i])
  {
    if es != [] {
      var init := es[..|es| - 1];
      AllParseEvery(init);
      if AllParse(es) {
        forall i | 0 <= i < |es| ensures Parses(es[i]) {
          if i < |init| {
            assert es[i] == init[i];
          }
        }
      } else if Parses(es[|es| - 1]) {
        var i :| 0 <= i < |init| && !Parses(init[i]);
        assert es[i] == init[i];
      }
    }
  }

  lemma {:induction false} GroupFailsIffNotAllParse(es: seq<Event>)
    ensures Group(es).Failure? <==> !AllParse(es)
    ensures Group(es).Failure? ==> Group(es).error == BadTimestamp
  {
    if es != [] {
      GroupFailsIffNotAllParse(es[..|es| - 1]);
      AddFails(Group(es[..|es| - 1]), es[|es| - 1]);
    }
  }

  /** The grouping fails exactly when some event has a timestamp that does not parse. */
  lemma GroupFailsIffUnparsable(es: seq<Event>)
    ensures Group(es).Failure? <==> exists i :: 0 <= i < |es| && !Parses(es[i])
    ensures Group(es).Failure? ==> Group(es).error == BadTimestamp
  {
    GroupFailsIffNotAllParse(es);
    AllParseEvery(es);
  }

  lemma OnDayStep(es: seq<Event>, k: string)
    requires es != []
    ensures OnDay(AnnotatedAll(es), k) ==
      OnDay(AnnotatedAll(es[..|es| - 1]), k) + (if DayKey(es[|es| - 1].startDateTime) == k then [Annotated(es[|es| - 1])] else [])
  {
    assert AnnotatedAll(es)[..|es| - 1] == AnnotatedAll(es[..|es| - 1]);
  }

  lemma IsStartDayStep(es: seq<Event>, k: string)
    requires es != []
    ensures IsStartDay(es, k) <==> IsStartDay(es[..|es| - 1], k) || DayKey(es[|es| - 1].startDateTime) == k
  {
    var init := es[..|es| - 1];
    if IsStartDay(init, k) {
      var i :| 0 <= i < |init| && DayKey(init[i].startDateTime) == k;
      assert es[i] == init[i];
    }
    if IsStartDay(es, k) && DayKey(es[|es| - 1].startDateTime) != k {
      var i :| 0 <= i < |es| && DayKey(es[i].startDateTime) == k;
      assert init[i] == es[i];
    }
  }

  /** One step of GroupLookup, stated without Group so that the solver does not unfold it. */
  lemma GroupLookupStep(es: seq<Event>, d0: Dict<string, seq<Event>>, d: Dict<string, seq<Event>>, k: string)
    requires es != []
    requires Lookup(d0, k) == if IsStartDay(es[..|es| - 1], k) then Some(OnDay(AnnotatedAll(es[..|es| - 1]), k)) else None
    requires var a := Annotated(es[|es| - 1]);
      d == Put(d0, DayKey(a.startDateTime), Lookup(d0, DayKey(a.startDateTime)).GetOr([]) + [a])
    ensures Lookup(d, k) == if IsStartDay(es, k) then Some(OnDay(AnnotatedAll(es), k)) else None
  {
    var init, a := es[..|es| - 1], Annotated(es[|es| - 1]);
    var day := DayKey(a.startDateTime);
    var before := Lookup(d0, day).GetOr([]);
    LookupPut(d0, day, before + [a], k);
    OnDayStep(es, k);
    IsStartDayStep(es, k);
    if k == day {
      assert Lookup(d, k) == Some(before + [a]);
      if !IsStartDay(init, k) {
        OnDayNone(init, k);
        assert before == [];
      }
      assert OnDay(AnnotatedAll(es), k) == OnDay(AnnotatedAll(init), k) + [a];
    } else {
      assert Lookup(d, k) == Lookup(d0, k);
      assert OnDay(AnnotatedAll(es), k) == OnDay(AnnotatedAll(init), k);
    }
  }

  /** The list of day k after the first loop: the annotated events starting on k, in input order. */
  lemma {:induction false} GroupLookup(es: seq<Event>, d: Dict<string, seq<Event>>, k: string)
    requires Group(es) == Success(d)
    ensures Lookup(d, k) == if IsStartDay(es, k) then Some(OnDay(AnnotatedAll(es), k)) else None
  {
    if es == [] {
      LookupSomeIffKey(d, k);
    } else {
      GroupSuccessStep(es, d);
      var d0 := Group(es[..|es| - 1]).value;
      GroupLookup(es[..|es| - 1], d0, k);
      GroupLookupStep(es, d0, d, k);
    }
  }

  lemma {:induction false} GroupKeysDistinct(es: seq<Event>, d: Dict<string, seq<Event>>)
    requires Group(es) == Success(d)
    ensures DistinctKeys(d)
  {
    if es != [] {
      GroupSuccessStep(es, d);
      var d0 := Group(es[..|es| - 1]).value;
      GroupKeysDistinct(es[..|es| - 1], d0);
      var a := Annotated(es[|es| - 1]);
      PutKeepsKeysDistinct(d0, DayKey(a.startDateTime), Lookup(d0, DayKey(a.startDateTime)).GetOr([]) + [a]);
    }
  }

  /**
   * After the first loop the day keys are distinct, a day is a key exactly
   * when some event starts on it, and its list holds the annotated events of
   * that day in input order.
   */
  lemma GroupMeaning(es: seq<Event>, d: Dict<string, seq<Event>>)
    requires Group(es) == Success(d)
    ensures DistinctKeys(d)
    ensures forall k :: k in Keys(d) <==> IsStartDay(es, k)
    ensures forall k :: Lookup(d, k) == if IsStartDay(es, k) then Some(OnDay(AnnotatedAll(es), k)) else None
  {
    GroupKeysDistinct(es, d);
    forall k ensures k in Keys(d) <==> IsStartDay(es, k) {
      GroupLookup(es, d, k);
      LookupSomeIffKey(d, k);
    }
    forall k ensures Lookup(d, k) == if IsStartDay(es, k) then Some(OnDay(AnnotatedAll(es), k)) else None {
      GroupLookup(es, d, k);
    }
  }

  /** No annotated event of es starts on a day that is not one of their start days. */
  lemma {:induction false} OnDayNone(es: seq<Event>, k: string)
    requires !IsStartDay(es, k)
    ensures OnDay(AnnotatedAll(es), k) == []
  {
    if es != [] {
      var init := es[..|es| - 1];
      IsStartDayStep(es, k);
      OnDayStep(es, k);
      OnDayNone(init, k);
    }
  }

  lemma {:induction false} OnDayMember(xs: seq<Event>, k: string, x: Event)
    ensures x in OnDay(xs, k) <==> x in xs && DayKey(x.startDateTime) == k
  {
    if xs != [] {
      OnDayMember(xs[..|xs| - 1], k, x);
      assert xs == xs[..|xs| - 1] + [xs[|xs| - 1]];
    }
  }

  /** One step of the grouping loop: the prefix grows by one parsable event. */
  lemma GroupPrefixStep(es: seq<Event>, i: nat, d: Dict<string, seq<Event>>)
    requires i < |es| && Group(es[..i]) == Success(d) && Parses(es[i])
    ensures var a := Annotated(es[i]);
      Group(es[..i + 1]) == Success(Put(d, DayKey(a.startDateTime), Lookup(d, DayKey(a.startDateTime)).GetOr([]) + [a]))
  {
    var p := es[..i + 1];
    assert p[..|p| - 1] == es[..i];
    assert p[|p| - 1] == es[i];
    assert Group(p) == Add(Success(d), es[i]);
  }

  // ---------------------------------------------------------------- the structurer

  /** It fails exactly when some event's start or end does not parse. */
  lemma StructureFailsIffUnparsable(es: seq<Event>)
    ensures Structure(es).Failure? <==> exists i :: 0 <= i < |es| && !Parses(es[i])
    ensures Structure(es).Failure? ==> Structure(es).error == BadTimestamp
  {
    GroupFailsIffUnparsable(es);
  }

  /**
   * On success the day keys are distinct, they are exactly the start days of
   * the events, and each day holds the annotated events that start on it,
   * sorted by start.
   */
  lemma StructureMeaning(es: seq<Event>, r: Dict<string, seq<Event>>)
    requires Structure(es) == Success(r)
    ensures DistinctKeys(r)
    ensures forall k :: k in Keys(r) <==> IsStartDay(es, k)
    ensures forall i :: 0 <= i < |r| ==> r[i].1 == SortByStart(OnDay(AnnotatedAll(es), r[i].0))
  {
    var d := Group(es).value;
    GroupMeaning(es, d);
    assert Keys(r) == Keys(d);
    forall i | 0 <= i < |r| ensures r[i].1 == SortByStart(OnDay(AnnotatedAll(es), r[i].0)) {
      SortGroupsAt(d, i);
      LookupAt(d, i);
    }
  }

  /** Each day's list is sorted by start, holds exactly that day's events, and keeps the input order of equal starts. */
  lemma StructuredDayOrdered(es: seq<Event>, r: Dict<string, seq<Event>>, i: nat, t: string)
    requires Structure(es) == Success(r) && i < |r|
    ensures SortedByStart(r[i].1)
    ensures multiset(r[i].1) == multiset(OnDay(AnnotatedAll(es), r[i].0))
    ensures WithStart(r[i].1, t) == WithStart(OnDay(AnnotatedAll(es), r[i].0), t)
  {
    StructureMeaning(es, r);
    SortByStartCorrect(OnDay(AnnotatedAll(es), r[i].0));
    SortByStartStable(OnDay(AnnotatedAll(es), r[i].0), t);
  }

  /** Every event appears, annotated, in the list of the day it starts on. */
  lemma EveryEventFiled(es: seq<Event>, r: Dict<string, seq<Event>>, j: nat)
    requires Structure(es) == Success(r) && j < |es|
    ensures exists i :: 0 <= i < |r| && r[i].0 == DayKey(es[j].startDateTime) && Annotated(es[j]) in r[i].1
  {
    StructureMeaning(es, r);
    var k := DayKey(es[j].startDateTime);
    assert IsStartDay(es, k);
    assert k in Keys(r);
    var i :| 0 <= i < |r| && Keys(r)[i] == k;
    OnDayMember(AnnotatedAll(es), k, Annotated(es[j]));
    assert AnnotatedAll(es)[j] == Annotated(es[j]);
    SortByStartCorrect(OnDay(AnnotatedAll(es), k));
    assert Annotated(es[j]) in multiset(r[i].1);
  }

  /** Every event of a day's list is one of the input events, annotated, and starts on that day. */
  lemma FiledEventsBelong(es: seq<Event>, r: Dict<string, seq<Event>>, i: nat, x: Event)
    requires Structure(es) == Success(r) && i < |r| && x in r[i].1
    ensures DayKey(x.startDateTime) == r[i].0
    ensures exists j :: 0 <= j < |es| && x == Annotated(es[j])
  {
    StructureMeaning(es, r);
    SortByStartCorrect(OnDay(AnnotatedAll(es), r[i].0));
    assert x in multiset(OnDay(AnnotatedAll(es), r[i].0));
    OnDayMember(AnnotatedAll(es), r[i].0, x);
    var j :| 0 <= j < |es| && AnnotatedAll(es)[j] == x;
  }

  /** Annotating an already annotated event changes nothing. */
  lemma AnnotatedIdempotent(e: Event)
    ensures Annotated(Annotated(e)) == Annotated(e)
  {
  }

  lemma {:induction false} SortedIsFixed(xs: seq<Event>)
    requires SortedByStart(xs)
    ensures SortByStart(xs) == xs
  {
    if xs != [] {
      var init := xs[..|xs| - 1];
      assert SortedByStart(init);
      SortedIsFixed(init);
      if |init| > 0 {
        assert StrLe(init[|init| - 1].startDateTime, xs[|xs| - 1].startDateTime);
      }
      assert init + [xs[|xs| - 1]] == xs;
    }
  }

  /** Sorting a day's list again leaves it as it is. */
  lemma SortIdempotent(xs: seq<Event>)
    ensures SortByStart(SortByStart(xs)) == SortByStart(xs)
  {
    SortByStartCorrect(xs);
    SortedIsFixed(SortByStart(xs));
  }

  /** `_structure_calendar_by_day`: the grouping loop, then the sorting loop. */
  method StructureByDay(events: seq<Event>) returns (r: Result<Dict<string, seq<Event>>, Error>)
    ensures r == Structure(events)
  {
    var daily: Dict<string, seq<Event>> := [];
    var i := 0;
    while i < |events|
      invariant i <= |events|
      invariant Group(events[..i]) == Success(daily)
    {
      var event := events[i];
      if !IsTimestamp(Normalize(event.startDateTime)) || !IsTimestamp(Normalize(event.endDateTime)) {
        StructureFailsIffUnparsable(events);
        return Failure(BadTimestamp);
      }
      var day := DayKey(event.startDateTime);
      var annotated := Annotated(event);
      GroupPrefixStep(events, i, daily);
      daily := Put(daily, day, Lookup(daily, day).GetOr([]) + [annotated]);
      i := i + 1;
    }
    assert events[..i] == events;
    var sorted: Dict<string, seq<Event>> := [];
    var j := 0;
    while j < |daily|
      invariant j <= |daily|
      invariant sorted == SortGroups(daily[..j])
    {
      assert daily[..j + 1][..j] == daily[..j];
      sorted := sorted + [(daily[j].0, SortByStart(daily[j].1))];
      j := j + 1;
    }
    assert daily[..j] == daily;
    r := Success(sorted);
  }
}
