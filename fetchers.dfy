/**
 * `fetch_basic_data`, `fetch_daily_overview` and `custom_api_call`: each
 * runs the session guard first and then reads either the stored profiles or
 * one more answer of the portal.
 */
module Fetchers {
  import opened Wrappers
  import opened Json
  import opened Dict
  import opened Decimal
  import opened Portal
  import opened State
  import opened Authenticator
  import opened SessionGuard

  /** A session the guard keeps as it is: set, its probe answering "OK", `ids` built from the first profile. */
  ghost predicate Live(c: Core, p: Portal) {
    c.session && p.probeMessage == "OK" && Consistent(c)
  }

  /** The profile probe the guard sends on a live session. */
  function Probe(c: Core): Request {
    Get(c.apiurl + ProfilesQuery)
  }

  /** n probes of the same session. */
  function Probes(c: Core, n: nat): (r: seq<Request>)
    ensures |r| == n
    ensures forall i :: 0 <= i < n ==> r[i] == Probe(c)
  {
    if n == 0 then [] else Probes(c, n - 1) + [Probe(c)]
  }

  /** The same requests n times over: what n guarded calls on a steady state send. */
  function Repeat(r: seq<Request>, n: nat): (rs: seq<Request>)
    ensures |rs| == n * |r|
  {
    if n == 0 then [] else Repeat(r, n - 1) + r
  }

  lemma GuardLive(c: Core, p: Portal, user: string, pwd: string)
    requires Negotiable(p.versions) && Live(c, p)
    ensures Guard(c, p, user, pwd) == Step(c, [Probe(c)], Success(()))
  {
    GuardOutcome(c, p, user, pwd);
  }

  /** On a live session with a child selected, `get_child_id` sends one probe and changes nothing. */
  lemma GetChildIdLive(c: Core, p: Portal, user: string, pwd: string)
    requires Negotiable(p.versions) && Live(c, p) && !NoChildSelected(c)
    ensures GetChildId(c, p, user, pwd) ==
      Step(c, [Probe(c)], Success(LastIdFor(c.profiles.value[0].children, c.activeChild.value)))
  {
    GuardLive(c, p, user, pwd);
    GetChildIdMeaning(c, p, user, pwd);
  }

  // ---------------------------------------------------------------- fetch_basic_data

  /** The entry `{"name": ..., "institution": ...}` of one child. */
  datatype ChildInfo = ChildInfo(name: string, institution: string)

  /** The children of all profiles, profile by profile, in order. */
  function AllChildren(ps: seq<Profile>): (cs: seq<Child>)
    ensures |ps| > 0 ==> cs == AllChildren(ps[..|ps| - 1]) + ps[|ps| - 1].children
  {
    if ps == [] then [] else AllChildren(ps[..|ps| - 1]) + ps[|ps| - 1].children
  }

  /** `children_data[str(child["id"])] = {...}` for every child in turn. */
  function BasicData(cs: seq<Child>): Dict<string, ChildInfo> {
    if cs == [] then []
    else
      var ch := cs[|cs| - 1];
      Put(BasicData(cs[..|cs| - 1]), IntToString(ch.id), ChildInfo(ch.name, ch.institutionName))
  }

  /** One more child is one more `Put`. */
  lemma BasicDataAppend(cs: seq<Child>, ch: Child)
    ensures BasicData(cs + [ch]) == Put(BasicData(cs), IntToString(ch.id), ChildInfo(ch.name, ch.institutionName))
  {
    assert (cs + [ch])[..|cs|] == cs;
  }

  /** The children of one more profile follow those of the profiles before it. */
  lemma AllChildrenAppend(ps: seq<Profile>, i: nat)
    requires i < |ps|
    ensures AllChildren(ps[..i + 1]) == AllChildren(ps[..i]) + ps[i].children
  {
    assert ps[..i + 1][..i] == ps[..i];
  }

  /** Reference reading: the last child with the given id, if any. */
  function LastWithId(cs: seq<Child>, id: int): (r: Option<Child>)
    ensures r.Some? <==> exists i :: 0 <= i < |cs| && cs[i].id == id
    ensures r.Some? ==> r.value in cs && r.value.id == id
  {
    if cs == [] then None
    else if cs[|cs| - 1].id == id then Some(cs[|cs| - 1])
    else
      var r := LastWithId(cs[..|cs| - 1], id);
      assert forall i :: 0 <= i < |cs| - 1 ==> cs[..|cs| - 1][i] == cs[i];
      r
  }

  function InfoOf(ch: Option<Child>): Option<ChildInfo> {
    match ch
    case None => None
    case Some(c) => Some(ChildInfo(c.name, c.institutionName))
  }

  /**
   * The entry under `str(id)` describes the last child with that id (a later
   * child with the same id overwrites an earlier one); there is one exactly
   * when some child has that id.
   */
  lemma {:induction false} BasicDataLookup(cs: seq<Child>, id: int)
    ensures Lookup(BasicData(cs), IntToString(id)) == InfoOf(LastWithId(cs, id))
  {
    if cs != [] {
      var ch := cs[|cs| - 1];
      BasicDataLookup(cs[..|cs| - 1], id);
      LookupPut(BasicData(cs[..|cs| - 1]), IntToString(ch.id), ChildInfo(ch.name, ch.institutionName), IntToString(id));
      IntToStringInjective(ch.id, id);
    }
  }

  /** Every key is the decimal rendering of some child's id. */
  lemma {:induction false} BasicDataKeys(cs: seq<Child>, k: string)
    ensures k in Keys(BasicData(cs)) ==> exists i :: 0 <= i < |cs| && k == IntToString(cs[i].id)
  {
    if cs != [] {
      var ch := cs[|cs| - 1];
      var init := cs[..|cs| - 1];
      BasicDataKeys(init, k);
      PutKeys(BasicData(init), IntToString(ch.id), ChildInfo(ch.name, ch.institutionName));
      if k in Keys(BasicData(init)) {
        var i :| 0 <= i < |init| && k == IntToString(init[i].id);
        assert cs[i] == init[i];
      }
    }
  }

  /** `fetch_basic_data`: the guard, then the children of every stored profile keyed by id. */
  function FetchBasicData(c: Core, p: Portal, user: string, pwd: string): Step<Dict<string, ChildInfo>>
    requires Negotiable(p.versions)
  {
    var g := Guard(c, p, user, pwd);
    if g.out.Failure? then Raise(g)
    else if g.core.profiles.None? then Step(g.core, g.sent, Failure(NotLoggedIn))
    else Step(g.core, g.sent, Success(BasicData(AllChildren(g.core.profiles.value))))
  }

  /**
   * Calling `fetch_basic_data` again right after a successful call returns
   * the same structure and leaves the state as the first call left it.
   */
  lemma FetchBasicDataIdempotent(c: Core, p: Portal, user: string, pwd: string)
    requires Negotiable(p.versions)
    requires FetchBasicData(c, p, user, pwd).out.Success?
    ensures var first := FetchBasicData(c, p, user, pwd);
      var second := FetchBasicData(first.core, p, user, pwd);
      second.core == first.core && second.out == first.out
  {
    GuardIdempotent(c, p, user, pwd);
  }

  // ---------------------------------------------------------------- fetch_daily_overview

  /** `f"{self.get_child_id()}"`: the id in decimal, or "None" for a name with no id. */
  function IdText(id: Option<int>): string {
    match id
    case None => "None"
    case Some(i) => IntToString(i)
  }

  function OverviewUrl(apiurl: string, id: Option<int>): string {
    apiurl + "?method=presence.getDailyOverview&childIds[]=" + IdText(id)
  }

  /**
   * `fetch_daily_overview`. The URL is `self.apiurl` read before the
   * `get_child_id()` inside the f-string runs. With data, one more
   * `get_child_id()` gives the key; without, the one in the log message
   * and the one for the key both run. Every `get_child_id()` runs the guard.
   */
  function FetchDailyOverview(c: Core, p: Portal, user: string, pwd: string): Step<Dict<Option<int>, Json>>
    requires Negotiable(p.versions)
  {
    if NoChildSelected(c) then Step(c, [], Failure(NoActiveChild))
    else
      var g := Guard(c, p, user, pwd);
      if g.out.Failure? then Raise(g)
      else
        var q := GetChildId(g.core, p, user, pwd);
        if q.out.Failure? then Step(q.core, g.sent + q.sent, Failure(q.out.error))
        else
          var sent := g.sent + q.sent + [Get(OverviewUrl(g.core.apiurl, q.out.value))];
          if p.overview != [] then
            var k := GetChildId(q.core, p, user, pwd);
            if k.out.Failure? then Step(k.core, sent + k.sent, Failure(k.out.error))
            else Step(k.core, sent + k.sent, Success(Put([], k.out.value, p.overview[0])))
          else
            var logged := GetChildId(q.core, p, user, pwd);
            if logged.out.Failure? then Step(logged.core, sent + logged.sent, Failure(logged.out.error))
            else
              var k := GetChildId(logged.core, p, user, pwd);
              if k.out.Failure? then Step(k.core, sent + logged.sent + k.sent, Failure(k.out.error))
              else Step(k.core, sent + logged.sent + k.sent, Success(Put([], k.out.value, Null)))
  }

  /**
   * On a live session the overview is one entry, keyed by the active
   * child's id, holding the first presence record or null when there is
   * none; the state is unchanged and the requests are the probes of the
   * guard and of every `get_child_id()` around the one overview GET.
   */
  lemma DailyOverviewLive(c: Core, p: Portal, user: string, pwd: string)
    requires Negotiable(p.versions) && Live(c, p) && !NoChildSelected(c)
    ensures var id := LastIdFor(c.profiles.value[0].children, c.activeChild.value);
      FetchDailyOverview(c, p, user, pwd) ==
        Step(c,
             Probes(c, 2) + [Get(OverviewUrl(c.apiurl, id))] + Probes(c, if p.overview == [] then 2 else 1),
             Success([(id, if p.overview == [] then Null else p.overview[0])]))
  {
    GuardLive(c, p, user, pwd);
    GetChildIdLive(c, p, user, pwd);
  }

  /**
   * On every state with a child selected: the overview raises what the
   * guard or `get_child_id` raises, and otherwise is one entry, keyed by
   * the id `get_child_id` returns, holding the first presence record or null
   * when there is none. After the guard, which may log in, every
   * `get_child_id()` runs the guard again, which changes nothing, so the
   * requests are the guard's, then that repeated guard around the one
   * overview GET, at the API URL the first guard left.
   */
  lemma DailyOverviewMeaning(c: Core, p: Portal, user: string, pwd: string)
    requires Negotiable(p.versions) && !NoChildSelected(c)
    ensures var g := Guard(c, p, user, pwd);
      var id := GetChildId(c, p, user, pwd).out;
      var s := FetchDailyOverview(c, p, user, pwd);
      && s.core == g.core
      && (g.out.Failure? ==> s.sent == g.sent && s.out == Failure(g.out.error))
      && (g.out.Success? && id.Failure? ==> s.out == Failure(id.error))
      && (s.out.Success? <==> id.Success?)
      && (s.out.Success? ==> s.out.value == [(id.value, if p.overview == [] then Null else p.overview[0])])
      && (s.out.Success? ==>
            var again := Guard(g.core, p, user, pwd).sent;
            s.sent == g.sent + again + [Get(OverviewUrl(g.core.apiurl, id.value))] + again +
                      (if p.overview == [] then again else []))
  {
    GetChildIdMeaning(c, p, user, pwd);
    if Guard(c, p, user, pwd).out.Success? {
      GetChildIdSteady(c, p, user, pwd);
    }
  }

  /**
   * The first overview of a fresh client whose login succeeds: keyed by the
   * id of the selected child among the profiles the portal served.
   */
  lemma DailyOverviewFresh(c: Core, p: Portal, user: string, pwd: string)
    requires Negotiable(p.versions) && !NoChildSelected(c) && !c.session
    requires Login(c, p, user, pwd).out.Success?
    ensures FetchDailyOverview(c, p, user, pwd).core == Login(c, p, user, pwd).core
    ensures FetchDailyOverview(c, p, user, pwd).out ==
      Success([(LastIdFor(ServedProfiles(p)[0].children, c.activeChild.value), if p.overview == [] then Null else p.overview[0])])
  {
    GuardOutcome(c, p, user, pwd);
    GetChildIdMeaning(c, p, user, pwd);
    DailyOverviewMeaning(c, p, user, pwd);
  }

  /** Without an active child the overview raises before sending anything. */
  lemma DailyOverviewNeedsChild(c: Core, p: Portal, user: string, pwd: string)
    requires Negotiable(p.versions) && NoChildSelected(c)
    ensures FetchDailyOverview(c, p, user, pwd) == Step(c, [], Failure(NoActiveChild))
  {
  }

  // ---------------------------------------------------------------- custom_api_call

  const InvalidJson := Obj(map["result" := Str("Fail - invalid JSON")])

  /** `response.json()`, or `{"raw_response": response.text}` when the text is not JSON. */
  function Decoded(p: Portal, req: Request): (j: Json)
    ensures p.decode(p.customText(req)).Some? ==> j == p.decode(p.customText(req)).value
    ensures p.decode(p.customText(req)).None? ==> j == Obj(map["raw_response" := Str(p.customText(req))])
  {
    match p.decode(p.customText(req))
    case Some(v) => v
    case None => Obj(map["raw_response" := Str(p.customText(req))])
  }

  /**
   * `custom_api_call(uri, post_data)`: the guard, the CSRF cookie (a
   * KeyError without it), then a GET when there is no body or it is empty,
   * nothing but the failure value when the body is not JSON, and a JSON
   * POST of the decoded body otherwise.
   */
  function CustomApiCall(c: Core, p: Portal, user: string, pwd: string, uri: string, body: Option<string>): Step<Json>
    requires Negotiable(p.versions)
  {
    var g := Guard(c, p, user, pwd);
    if g.out.Failure? then Raise(g)
    else if CsrfCookie !in p.cookies then Step(g.core, g.sent, Failure(MissingCsrfToken))
    else if body.Some? && body.value != "" then
      match p.decode(body.value)
      case None => Step(g.core, g.sent, Success(InvalidJson))
      case Some(v) =>
        var req := PostJson(g.core.apiurl + uri, v);
        Step(g.core, g.sent + [req], Success(Decoded(p, req)))
    else
      var req := Get(g.core.apiurl + uri);
      Step(g.core, g.sent + [req], Success(Decoded(p, req)))
  }

  /**
   * After a guard that succeeded and with the CSRF cookie present: no body
   * (or an empty one) is a GET, a body that is not JSON sends nothing and
   * returns the failure value, any other body is POSTed as decoded; the
   * answer is the decoded response or its raw text. The state is the
   * guard's.
   */
  lemma CustomApiCallCases(c: Core, p: Portal, user: string, pwd: string, uri: string, body: Option<string>)
    requires Negotiable(p.versions)
    requires Guard(c, p, user, pwd).out.Success? && CsrfCookie in p.cookies
    ensures var g := Guard(c, p, user, pwd);
      var s := CustomApiCall(c, p, user, pwd, uri, body);
      && s.core == g.core && s.out.Success?
      && ((body.None? || body.value == "") ==>
            s.sent == g.sent + [Get(g.core.apiurl + uri)] && s.out.value == Decoded(p, Get(g.core.apiurl + uri)))
      && ((body.Some? && body.value != "" && p.decode(body.value).None?) <==>
            (s.sent == g.sent && s.out.value == InvalidJson && !(body.None? || body.value == "")))
      && ((body.Some? && body.value != "" && p.decode(body.value).Some?) ==>
            var req := PostJson(g.core.apiurl + uri, p.decode(body.value).value);
            s.sent == g.sent + [req] && s.out.value == Decoded(p, req))
  {
  }

  /**
   * A call that sends its request answers with the reply decoded as JSON,
   * or with `{"raw_response": text}` when the reply's text is not JSON.
   */
  lemma CustomApiCallAnswer(c: Core, p: Portal, user: string, pwd: string, uri: string, body: Option<string>)
    requires Negotiable(p.versions)
    requires Guard(c, p, user, pwd).out.Success? && CsrfCookie in p.cookies
    requires body.None? || body.value == "" || p.decode(body.value).Some?
    ensures var g := Guard(c, p, user, pwd);
      var s := CustomApiCall(c, p, user, pwd, uri, body);
      && |s.sent| == |g.sent| + 1 && s.out.Success?
      && var text := p.customText(s.sent[|g.sent|]);
      && (p.decode(text).Some? ==> s.out.value == p.decode(text).value)
      && (p.decode(text).None? ==> s.out.value == Obj(map["raw_response" := Str(text)]))
  {
  }

  /** Without the CSRF cookie the call raises after the guard, whatever the body. */
  lemma CustomApiCallNeedsCsrf(c: Core, p: Portal, user: string, pwd: string, uri: string, body: Option<string>)
    requires Negotiable(p.versions)
    requires Guard(c, p, user, pwd).out.Success? && CsrfCookie !in p.cookies
    ensures CustomApiCall(c, p, user, pwd, uri, body).out == Failure(MissingCsrfToken)
    ensures CustomApiCall(c, p, user, pwd, uri, body).sent == Guard(c, p, user, pwd).sent
  {
  }
}
