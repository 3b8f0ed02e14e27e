/**
 * `fetch_calendar`: one POST for the events of all known children, then
 * only the events that belong to the active child, grouped by day when
 * asked to.
 */
module CalendarFetch {
  import opened Wrappers
  import opened Json
  import opened Dict
  import opened Portal
  import opened State
  import opened Authenticator
  import opened SessionGuard
  import opened Fetchers
  import opened Calendar

  /** The events as a flat list, or grouped by day by `_structure_calendar_by_day`. */
  datatype CalendarResult = Flat(events: seq<Event>) | ByDay(days: Dict<string, seq<Event>>)

  const EventsQuery := "?method=calendar.getEventsByProfileIdsAndResourceIds"

  /** `list(self.ids.values())` as JSON numbers. */
  function IdNumbers(ids: seq<int>): (r: seq<Json>)
    ensures |r| == |ids|
    ensures forall i :: 0 <= i < |ids| ==> r[i] == Num(ids[i])
  {
    if ids == [] then [] else [Num(ids[0])] + IdNumbers(ids[1..])
  }

  /** The request body: every id of `ids`, no resources, and the date range. */
  function EventsBody(ids: Dict<string, int>, start: string, end: string): Json {
    Obj(map["instProfileIds" := Arr(IdNumbers(Values(ids))), "resourceIds" := Arr([]), "start" := Str(start), "end" := Str(end)])
  }

  /** Python's `==` between a JSON value and the child id: True is 1, False is 0, None equals only null. */
  predicate Matches(j: Json, id: Option<int>) {
    match id
    case None => j == Null
    case Some(n) => j == Num(n) || (j == Bool(true) && n == 1) || (j == Bool(false) && n == 0)
  }

  /** `id in event["belongsToProfiles"]`. */
  predicate BelongsTo(e: Event, id: Option<int>) {
    exists k :: 0 <= k < |e.belongsToProfiles| && Matches(e.belongsToProfiles[k], id)
  }

  /**
   * The comprehension, which calls `get_child_id()` (and so the guard) once
   * per event, in order, and keeps the events that belong to the id it
   * returns.
   */
  function Retain(c: Core, p: Portal, user: string, pwd: string, es: seq<Event>): Step<seq<Event>>
    requires Negotiable(p.versions)
  {
    if es == [] then Step(c, [], Success([]))
    else
      var s := Retain(c, p, user, pwd, es[..|es| - 1]);
      if s.out.Failure? then s
      else
        var q := GetChildId(s.core, p, user, pwd);
        var e := es[|es| - 1];
        if q.out.Failure? then Step(q.core, s.sent + q.sent, Failure(q.out.error))
        else Step(q.core, s.sent + q.sent, Success(s.out.value + if BelongsTo(e, q.out.value) then [e] else []))
  }

  /**
   * `fetch_calendar(days, structured)`, with the two rendered ends of the
   * date range given: the guard, the CSRF cookie, `ids`, the POST; a status
   * other than "OK" returns an empty list even when `structured` is set.
   */
  function FetchCalendar(c: Core, p: Portal, user: string, pwd: string, start: string, end: string, structured: bool): Step<CalendarResult>
    requires Negotiable(p.versions)
  {
    var g := Guard(c, p, user, pwd);
    if g.out.Failure? then Raise(g)
    else if CsrfCookie !in p.cookies then Step(g.core, g.sent, Failure(MissingCsrfToken))
    else if g.core.ids.None? then Step(g.core, g.sent, Failure(NotLoggedIn))
    else
      var post := PostJson(g.core.apiurl + EventsQuery, EventsBody(g.core.ids.value, start, end));
      if p.calendar.message != "OK" then Step(g.core, g.sent + [post], Success(Flat([])))
      else
        var r := Retain(g.core, p, user, pwd, p.calendar.events);
        var sent := g.sent + [post] + r.sent;
        if r.out.Failure? then Step(r.core, sent, Failure(r.out.error))
        else if !structured then Step(r.core, sent, Success(Flat(r.out.value)))
        else match Structure(r.out.value)
          case Failure(err) => Step(r.core, sent, Failure(err))
          case Success(days) => Step(r.core, sent, Success(ByDay(days)))
  }

  // ---------------------------------------------------------------- properties

  /** Once the comprehension has raised on a prefix, the later events change nothing. */
  lemma {:induction false} RetainStuck(c: Core, p: Portal, user: string, pwd: string, es: seq<Event>, i: nat)
    requires Negotiable(p.versions)
    requires i <= |es| && Retain(c, p, user, pwd, es[..i]).out.Failure?
    ensures Retain(c, p, user, pwd, es) == Retain(c, p, user, pwd, es[..i])
  {
    if i == |es| {
      assert es[..i] == es;
    } else {
      var init := es[..|es| - 1];
      assert init[..i] == es[..i];
      RetainStuck(c, p, user, pwd, init, i);
    }
  }

  /** The reference filter: the events that belong to the id, in order. */
  function OnlyChild(es: seq<Event>, id: Option<int>): seq<Event> {
    if es == [] then []
    else OnlyChild(es[..|es| - 1], id) + if BelongsTo(es[|es| - 1], id) then [es[|es| - 1]] else []
  }

  /** An event is kept exactly when it is one of the input events and belongs to the id. */
  lemma {:induction false} OnlyChildMember(es: seq<Event>, id: Option<int>, e: Event)
    ensures e in OnlyChild(es, id) <==> e in es && BelongsTo(e, id)
  {
    if es != [] {
      OnlyChildMember(es[..|es| - 1], id, e);
      assert es == es[..|es| - 1] + [es[|es| - 1]];
    }
  }

  /**
   * On a live session the comprehension keeps exactly the events of the
   * active child's id, sends one probe per event and changes nothing.
   */
  lemma {:induction false} RetainLive(c: Core, p: Portal, user: string, pwd: string, es: seq<Event>)
    requires Negotiable(p.versions) && Live(c, p) && !NoChildSelected(c)
    ensures Retain(c, p, user, pwd, es) ==
      Step(c, Probes(c, |es|), Success(OnlyChild(es, LastIdFor(c.profiles.value[0].children, c.activeChild.value))))
  {
    if es != [] {
      RetainLive(c, p, user, pwd, es[..|es| - 1]);
      GetChildIdLive(c, p, user, pwd);
    }
  }

  /**
   * On a live session with the CSRF cookie: one probe and one POST naming
   * every id; a status other than "OK" is an empty flat list; otherwise one
   * more probe per event and the active child's events, grouped by day when
   * `structured` is set. The state never changes.
   */
  lemma FetchCalendarLive(c: Core, p: Portal, user: string, pwd: string, start: string, end: string, structured: bool)
    requires Negotiable(p.versions) && Live(c, p) && !NoChildSelected(c) && CsrfCookie in p.cookies
    ensures var s := FetchCalendar(c, p, user, pwd, start, end, structured);
      var post := PostJson(c.apiurl + EventsQuery, EventsBody(c.ids.value, start, end));
      var kept := OnlyChild(p.calendar.events, LastIdFor(c.profiles.value[0].children, c.activeChild.value));
      && s.core == c
      && (p.calendar.message != "OK" ==> s.sent == [Probe(c), post] && s.out == Success(Flat([])))
      && (p.calendar.message == "OK" ==>
            && s.sent == [Probe(c), post] + Probes(c, |p.calendar.events|)
            && (!structured ==> s.out == Success(Flat(kept)))
            && (structured ==> s.out == match Structure(kept)
                                      case Failure(err) => Failure(err)
                                      case Success(days) => Success(ByDay(days))))
  {
    GuardLive(c, p, user, pwd);
    RetainLive(c, p, user, pwd, p.calendar.events);
  }

  /**
   * On a state where `get_child_id` changes nothing, the comprehension asks
   * for the id once per event and keeps exactly the events of that id; a
   * call that raises stops it at the first event.
   */
  lemma {:induction false} RetainSteady(c: Core, p: Portal, user: string, pwd: string, es: seq<Event>)
    requires Negotiable(p.versions)
    requires GetChildId(c, p, user, pwd).core == c
    ensures var q := GetChildId(c, p, user, pwd);
      Retain(c, p, user, pwd, es) ==
        if es == [] then Step(c, [], Success([]))
        else if q.out.Failure? then Step(c, q.sent, Failure(q.out.error))
        else Step(c, Repeat(q.sent, |es|), Success(OnlyChild(es, q.out.value)))
  {
    if es != [] {
      RetainSteady(c, p, user, pwd, es[..|es| - 1]);
    }
  }

  /**
   * On every state: the calendar raises what the guard raises, then
   * MissingCsrfToken without the cookie and NotLoggedIn without `ids`;
   * otherwise it POSTs for every id, answers an empty flat list when the
   * status is not "OK", and else keeps exactly the events of the id
   * `get_child_id` returns (grouped by day when asked), asking for that id
   * once per event. The state is the guard's.
   */
  lemma FetchCalendarMeaning(c: Core, p: Portal, user: string, pwd: string, start: string, end: string, structured: bool)
    requires Negotiable(p.versions)
    ensures var g := Guard(c, p, user, pwd);
      var s := FetchCalendar(c, p, user, pwd, start, end, structured);
      var q := GetChildId(g.core, p, user, pwd);
      var es := p.calendar.events;
      && s.core == g.core
      && (g.out.Failure? ==> s.sent == g.sent && s.out == Failure(g.out.error))
      && (g.out.Success? ==> q.out == GetChildId(c, p, user, pwd).out)
      && (g.out.Success? ==> (q.out.Failure? <==> NoChildSelected(c) || g.core.ids.None?))
      && (g.out.Success? && CsrfCookie !in p.cookies ==> s.out == Failure(MissingCsrfToken))
      && (g.out.Success? && CsrfCookie in p.cookies && g.core.ids.None? ==> s.out == Failure(NotLoggedIn))
      && (g.out.Success? && CsrfCookie in p.cookies && g.core.ids.Some? ==>
            var post := PostJson(g.core.apiurl + EventsQuery, EventsBody(g.core.ids.value, start, end));
            && (p.calendar.message != "OK" ==> s.sent == g.sent + [post] && s.out == Success(Flat([])))
            && (p.calendar.message == "OK" && es != [] && q.out.Failure? ==>
                  s.sent == g.sent + [post] + q.sent && s.out == Failure(q.out.error))
            && (p.calendar.message == "OK" && (es == [] || q.out.Success?) ==>
                  var kept := OnlyChild(es, if q.out.Success? then q.out.value else None);
                  && s.sent == g.sent + [post] + Repeat(q.sent, |es|)
                  && (!structured ==> s.out == Success(Flat(kept)))
                  && (structured ==> s.out == match Structure(kept)
                                            case Failure(err) => Failure(err)
                                            case Success(days) => Success(ByDay(days)))))
  {
    var g := Guard(c, p, user, pwd);
    if g.out.Success? {
      GetChildIdSteady(c, p, user, pwd);
      GuardKeepsChild(c, p, user, pwd);
      RetainSteady(g.core, p, user, pwd, p.calendar.events);
    }
  }

  /**
   * The first flat calendar of a fresh client whose login succeeds: exactly
   * the events that list the selected child's id among the profiles the
   * portal served, in the order the portal sent them.
   */
  lemma FetchCalendarFresh(c: Core, p: Portal, user: string, pwd: string, start: string, end: string)
    requires Negotiable(p.versions) && !NoChildSelected(c) && !c.session
    requires Login(c, p, user, pwd).out.Success?
    requires CsrfCookie in p.cookies && p.calendar.message == "OK"
    ensures var id := LastIdFor(ServedProfiles(p)[0].children, c.activeChild.value);
      FetchCalendar(c, p, user, pwd, start, end, false).out == Success(Flat(OnlyChild(p.calendar.events, id)))
    ensures var id := LastIdFor(ServedProfiles(p)[0].children, c.activeChild.value);
      forall e :: e in OnlyChild(p.calendar.events, id) <==> e in p.calendar.events && BelongsTo(e, id)
  {
    GuardOutcome(c, p, user, pwd);
    GetChildIdMeaning(c, p, user, pwd);
    LoginConsistent(c, p, user, pwd);
    FetchCalendarMeaning(c, p, user, pwd, start, end, false);
    var id := LastIdFor(ServedProfiles(p)[0].children, c.activeChild.value);
    forall e ensures e in OnlyChild(p.calendar.events, id) <==> e in p.calendar.events && BelongsTo(e, id) {
      OnlyChildMember(p.calendar.events, id, e);
    }
  }

  /**
   * Of one event for child 5 and one for child 7, the filter for child 5
   * keeps the first only.
   */
  lemma OnlyChildSnoc(es: seq<Event>, e: Event, id: Option<int>)
    ensures OnlyChild(es + [e], id) == OnlyChild(es, id) + if BelongsTo(e, id) then [e] else []
  {
    assert (es + [e])[..|es + [e]| - 1] == es;
  }

  lemma KeepsOnlyActiveChild(e1: Event, e2: Event)
    requires e1.belongsToProfiles == [Num(5)] && e2.belongsToProfiles == [Num(7)]
    ensures OnlyChild([e1, e2], Some(5)) == [e1]
  {
    assert BelongsTo(e1, Some(5)) by { assert Matches(e1.belongsToProfiles[0], Some(5)); }
    assert !BelongsTo(e2, Some(5)) by {
      forall k | 0 <= k < |e2.belongsToProfiles| ensures !Matches(e2.belongsToProfiles[k], Some(5)) {
        assert k == 0;
      }
    }
    OnlyChildSnoc([], e1, Some(5));
    OnlyChildSnoc([e1], e2, Some(5));
    assert [] + [e1] == [e1];
    assert [e1] + [e2] == [e1, e2];
  }

  /** Python's `True == 1`: an event listing `true` belongs to the child with id 1. */
  lemma TrueIsOne(e: Event)
    requires e.belongsToProfiles == [Bool(true)]
    ensures BelongsTo(e, Some(1)) && !BelongsTo(e, Some(0))
  {
    assert Matches(e.belongsToProfiles[0], Some(1));
  }
}
