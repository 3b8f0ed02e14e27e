/**
 * `AulaClient` itself: the fields the Python object updates, and one method
 * per operation, each proved to leave the state, append to the request log
 * and return exactly what the matching specification function says.
 */
module Client {
  import opened Wrappers
  import opened Json
  import opened Dict
  import opened Portal
  import opened State
  import opened Authenticator
  import opened SessionGuard
  import opened Decimal
  import opened Fetchers
  import opened Messages
  import opened Gallery
  import opened Calendar
  import opened CalendarFetch

  /** Appending to the request log in steps is appending the steps' requests at once. */
  lemma AppendAssoc<T>(a: seq<T>, b: seq<T>, c: seq<T>)
    ensures (a + b) + c == a + (b + c)
  {
  }

  /** The inner loop of `fetch_basic_data`: one entry per child of one profile, keyed by `str(id)`. */
  method AddChildren(data: Dict<string, ChildInfo>, ghost done: seq<Child>, children: seq<Child>) returns (r: Dict<string, ChildInfo>)
    requires data == BasicData(done)
    ensures r == BasicData(done + children)
  {
    r := data;
    var j := 0;
    assert done + children[..j] == done;
    while j < |children|
      invariant 0 <= j <= |children|
      invariant r == BasicData(done + children[..j])
    {
      var child := children[j];
      BasicDataAppend(done + children[..j], child);
      assert children[..j + 1] == children[..j] + [child];
      AppendAssoc(done, children[..j], [child]);
      r := Put(r, IntToString(child.id), ChildInfo(child.name, child.institutionName));
      j := j + 1;
    }
    assert children[..j] == children;
  }

  /** The outer loop of `fetch_basic_data`, over the stored profiles. */
  method CollectBasicData(ps: seq<Profile>) returns (data: Dict<string, ChildInfo>)
    ensures data == BasicData(AllChildren(ps))
  {
    data := [];
    var i := 0;
    while i < |ps|
      invariant 0 <= i <= |ps|
      invariant data == BasicData(AllChildren(ps[..i]))
    {
      data := AddChildren(data, AllChildren(ps[..i]), ps[i].children);
      AllChildrenAppend(ps, i);
      i := i + 1;
    }
    assert ps[..i] == ps;
  }

  /** The inner loop of `fetch_messages`: one entry per raw message of type "Message", appended in turn. */
  method AppendMessages(messages: seq<Message>, subject: Option<Json>, ms: seq<RawMessage>) returns (r: Result<seq<Message>, Error>)
    ensures Collect(subject, ms).Failure? ==> r == Failure(Collect(subject, ms).error)
    ensures Collect(subject, ms).Success? ==> r == Success(messages + Collect(subject, ms).value)
  {
    var out := messages;
    var j := 0;
    while j < |ms|
      invariant 0 <= j <= |ms|
      invariant Collect(subject, ms[..j]).Success? && out == messages + Collect(subject, ms[..j]).value
    {
      var m := ms[j];
      assert ms[..j + 1][..j] == ms[..j];
      if m.messageType == Str("Message") {
        var x := MessageOf(subject, m);
        if x.Failure? {
          CollectStuck(subject, ms, j + 1);
          return Failure(x.error);
        }
        out := out + [x.value];
      }
      j := j + 1;
    }
    assert ms[..j] == ms;
    return Success(out);
  }

  /** The inner loop of `fetch_gallery`: one item per picture of an album, appended in turn. */
  method AppendItems(items: seq<GalleryItem>, pictures: seq<map<string, Json>>) returns (r: seq<GalleryItem>)
    ensures r == items + Items(pictures)
  {
    r := items;
    var j := 0;
    while j < |pictures|
      invariant 0 <= j <= |pictures|
      invariant r == items + Items(pictures[..j])
    {
      assert pictures[..j + 1][..j] == pictures[..j];
      r := r + [ItemOf(pictures[j])];
      j := j + 1;
    }
    assert pictures[..j] == pictures;
  }

  class AulaClient {
    const username: string
    const password: string
    /** The portal the session talks to. */
    const portal: Portal

    var session: bool
    var apiurl: string
    var profiles: Option<seq<Profile>>
    var ids: Option<Dict<string, int>>
    var activeChild: Option<string>
    /** Every request sent through the session so far, in order. */
    var log: seq<Request>

    function State(): Core
      reads this
    {
      Core(session, apiurl, profiles, ids, activeChild)
    }

    /** `AulaClient(username, password)`: no session, version 20, nothing stored. */
    constructor (username: string, password: string, portal: Portal)
      ensures State() == Initial() && log == []
      ensures this.username == username && this.password == password && this.portal == portal
    {
      this.username := username;
      this.password := password;
      this.portal := portal;
      session := false;
      apiurl := ApiUrl(FirstVersion);
      profiles := None;
      ids := None;
      activeChild := None;
      log := [];
    }

    /**
     * The redirect loop of `_login`, from the page the identity provider
     * POST returned: post each page's form with the credentials until a
     * response lands on the portal, at most ten times.
     */
    method PostForms() returns (landed: bool)
      modifies this
      ensures var run := Chain(portal.idpPage, 0, portal.hops);
        landed == run.landed && log == old(log) + FormPosts(run.pages, username, password)
      ensures State() == old(State())
    {
      var page := portal.idpPage;
      var redirects := 0;
      var success := false;
      ghost var posted: seq<Page> := [];
      while !success && redirects < MaxRedirects
        invariant redirects <= MaxRedirects && |posted| == redirects
        invariant State() == old(State())
        invariant log == old(log) + FormPosts(posted, username, password)
        invariant !success ==> (Chain(portal.idpPage, 0, portal.hops) ==
          ChainRun(posted + Chain(page, redirects, portal.hops).pages, Chain(page, redirects, portal.hops).landed))
        invariant success ==> Chain(portal.idpPage, 0, portal.hops) == ChainRun(posted, true)
        decreases MaxRedirects - redirects
      {
        var reply := portal.hops(redirects);
        var post := PostForm(page.action, Payload(page.inputs, username, password));
        AppendAssoc(old(log), FormPosts(posted, username, password), [post]);
        log := log + [post];
        assert (posted + [page])[..|posted|] == posted;
        AppendAssoc(posted, [page], Chain(reply.page, redirects + 1, portal.hops).pages);
        posted := posted + [page];
        if reply.url == Landing {
          success := true;
        }
        page := reply.page;
        redirects := redirects + 1;
      }
      assert posted + [] == posted;
      return success;
    }

    /** The version loop of `_login`, then `_profiles` and `ids`. */
    method NegotiateVersion() returns (r: Result<bool, Error>)
      requires Negotiable(portal.versions)
      modifies this
      ensures var s := Negotiate(old(State()), portal.versions);
        State() == s.core && log == old(log) + s.sent && r == s.out
    {
      ghost var c := State();
      ghost var n := FirstLive(portal.versions, 0);
      ghost var live := c.(apiurl := ApiUrl(FirstVersion + n));
      ghost var spec := Negotiate(c, portal.versions);
      var apiver := FirstVersion;
      var apiSuccess := false;
      var reply := portal.versions[0];
      ghost var k: nat := 0;
      ghost var sent: seq<Request> := [];
      while !apiSuccess
        invariant apiver == FirstVersion + k && k <= n
        invariant log == old(log) + sent
        invariant session == c.session && ids == c.ids && activeChild == c.activeChild
        invariant !apiSuccess ==> profiles == c.profiles && sent == ProbeGets(k)
        invariant apiSuccess ==> reply == portal.versions[n] && reply.status == 200
        invariant apiSuccess ==> apiurl == live.apiurl && profiles == Some(reply.profiles) && sent == ProbeGets(n + 1)
        decreases n - k, !apiSuccess
      {
        apiurl := ApiUrl(apiver);
        var probe := Get(apiurl + ProfilesQuery);
        reply := portal.versions[apiver - FirstVersion];
        ProbeGetsNext(k);
        AppendAssoc(old(log), sent, [probe]);
        log := log + [probe];
        sent := sent + [probe];
        if k < n {
          FirstLiveSkips(portal.versions, 0, k);
        }
        if reply.status == 410 {
          apiver := apiver + 1;
          k := k + 1;
        } else if reply.status == 403 {
          assert k == n && State() == live;
          assert spec == Step(live, ProbeGets(n + 1), Failure(AccessDenied));
          return Failure(AccessDenied);
        } else if reply.status == 200 {
          profiles := Some(reply.profiles);
          apiSuccess := true;
        } else {
          assert k == n && State() == live;
          assert spec == Step(live, ProbeGets(n + 1), Failure(ApiConnectionFailed));
          return Failure(ApiConnectionFailed);
        }
      }
      ghost var stored := live.(profiles := Some(reply.profiles));
      if |reply.profiles| == 0 {
        assert spec == Step(stored, ProbeGets(n + 1), Failure(NoProfile));
        return Failure(NoProfile);
      }
      ids := Some(IdsOf(reply.profiles[0].children));
      assert spec == Step(stored.(ids := Some(IdsOf(reply.profiles[0].children))), ProbeGets(n + 1), Success(true));
      return Success(true);
    }

    /** `_login`: the entry page, the identity provider choice, the form chain, the version loop. */
    method Login() returns (r: Result<bool, Error>)
      requires Negotiable(portal.versions)
      modifies this
      ensures var s := Authenticator.Login(old(State()), portal, username, password);
        State() == s.core && log == old(log) + s.sent && r == s.out
    {
      ghost var c := State().(session := true);
      ghost var run := Chain(portal.idpPage, 0, portal.hops);
      ghost var posts := FormPosts(run.pages, username, password);
      ghost var spec := Authenticator.Login(State(), portal, username, password);
      session := true;
      log := log + [Get(LoginEntry)];
      AppendAssoc(old(log), [Get(LoginEntry)], [PostForm(portal.loginPage.action, IdpSelection())]);
      log := log + [PostForm(portal.loginPage.action, IdpSelection())];
      assert [Get(LoginEntry)] + [PostForm(portal.loginPage.action, IdpSelection())] == Opening(portal);
      assert log == old(log) + Opening(portal);
      var landed := PostForms();
      AppendAssoc(old(log), Opening(portal), posts);
      assert log == old(log) + (Opening(portal) + posts);
      if !landed {
        assert spec == Step(c, Opening(portal) + posts, Failure(LoginFailed));
        return Failure(LoginFailed);
      }
      ghost var s := Negotiate(c, portal.versions);
      assert spec == Step(s.core, Opening(portal) + posts + s.sent, s.out);
      r := NegotiateVersion();
      AppendAssoc(old(log), Opening(portal) + posts, s.sent);
    }

    /** The probe of `_ensure_session` and the login it may trigger. */
    method Refresh() returns (r: Result<(), Error>)
      requires Negotiable(portal.versions)
      modifies this
      ensures var g := SessionGuard.Refresh(old(State()), portal, username, password);
        State() == g.core && log == old(log) + g.sent && r == g.out
    {
      ghost var c := State();
      var probe := Get(apiurl + ProfilesQuery);
      log := log + [probe];
      if portal.probeMessage != "OK" {
        var l := Login();
        AppendAssoc(old(log), [probe], Authenticator.Login(c, portal, username, password).sent);
        if l.Failure? {
          return Failure(l.error);
        }
      }
      return Success(());
    }

    /** `_ensure_session`: log in when there is no session, then probe. */
    method EnsureSession() returns (r: Result<(), Error>)
      requires Negotiable(portal.versions)
      modifies this
      ensures var g := Guard(old(State()), portal, username, password);
        State() == g.core && log == old(log) + g.sent && r == g.out
    {
      ghost var c := State();
      if !session {
        var l := Login();
        ghost var first := Authenticator.Login(c, portal, username, password);
        if l.Failure? {
          return Failure(l.error);
        }
        r := Refresh();
        AppendAssoc(old(log), first.sent, SessionGuard.Refresh(first.core, portal, username, password).sent);
      } else {
        r := Refresh();
      }
    }

    /** `set_active_child`. */
    method SetActiveChild(name: string)
      modifies this
      ensures State() == SessionGuard.SetActiveChild(old(State()), name) && log == old(log)
    {
      activeChild := Some(name);
    }

    /** `get_child_id`, behind `require_active_child`. */
    method GetChildId() returns (r: Result<Option<int>, Error>)
      requires Negotiable(portal.versions)
      modifies this
      ensures var s := SessionGuard.GetChildId(old(State()), portal, username, password);
        State() == s.core && log == old(log) + s.sent && r == s.out
    {
      ghost var c := State();
      if activeChild.None? || activeChild.value == "" {
        return Failure(NoActiveChild);
      }
      GuardKeepsChild(c, portal, username, password);
      var g := EnsureSession();
      if g.Failure? {
        return Failure(g.error);
      }
      if ids.None? {
        return Failure(NotLoggedIn);
      }
      return Success(Lookup(ids.value, activeChild.value));
    }

    /** `get_institution`, behind `require_active_child`. */
    method GetInstitution() returns (r: Result<string, Error>)
      requires Negotiable(portal.versions)
      modifies this
      ensures var s := SessionGuard.GetInstitution(old(State()), portal, username, password);
        State() == s.core && log == old(log) + s.sent && r == s.out
    {
      ghost var c := State();
      if activeChild.None? || activeChild.value == "" {
        return Failure(NoActiveChild);
      }
      GuardKeepsChild(c, portal, username, password);
      var g := EnsureSession();
      if g.Failure? {
        return Failure(g.error);
      }
      if profiles.None? {
        return Failure(NotLoggedIn);
      }
      if |profiles.value| == 0 {
        return Failure(NoProfile);
      }
      var found := Institutions(profiles.value[0].children, activeChild.value);
      if found == [] {
        return Failure(NoMatchingChild);
      }
      return Success(found[0]);
    }

    /** `fetch_basic_data`: the two nested loops over the stored profiles and their children. */
    method FetchBasicData() returns (r: Result<Dict<string, ChildInfo>, Error>)
      requires Negotiable(portal.versions)
      modifies this
      ensures var s := Fetchers.FetchBasicData(old(State()), portal, username, password);
        State() == s.core && log == old(log) + s.sent && r == s.out
    {
      var g := EnsureSession();
      if g.Failure? {
        return Failure(g.error);
      }
      if profiles.None? {
        return Failure(NotLoggedIn);
      }
      var data := CollectBasicData(profiles.value);
      return Success(data);
    }

    /**
     * `fetch_daily_overview`: the URL takes `self.apiurl` before the
     * `get_child_id()` of its f-string runs; the key is one more
     * `get_child_id()`, after a third in the log message when there is no data.
     */
    method FetchDailyOverview() returns (r: Result<Dict<Option<int>, Json>, Error>)
      requires Negotiable(portal.versions)
      modifies this
      ensures var s := Fetchers.FetchDailyOverview(old(State()), portal, username, password);
        State() == s.core && log == old(log) + s.sent && r == s.out
    {
      ghost var c := State();
      if activeChild.None? || activeChild.value == "" {
        return Failure(NoActiveChild);
      }
      var g := EnsureSession();
      if g.Failure? {
        return Failure(g.error);
      }
      ghost var gs := Guard(c, portal, username, password);
      var base := apiurl;
      var q := GetChildId();
      ghost var qs := SessionGuard.GetChildId(gs.core, portal, username, password);
      AppendAssoc(old(log), gs.sent, qs.sent);
      if q.Failure? {
        return Failure(q.error);
      }
      var req := Get(OverviewUrl(base, q.value));
      AppendAssoc(old(log), gs.sent + qs.sent, [req]);
      log := log + [req];
      ghost var sent := gs.sent + qs.sent + [req];
      if portal.overview != [] {
        var k := GetChildId();
        AppendAssoc(old(log), sent, SessionGuard.GetChildId(qs.core, portal, username, password).sent);
        if k.Failure? {
          return Failure(k.error);
        }
        return Success(Put([], k.value, portal.overview[0]));
      } else {
        var logged := GetChildId();
        ghost var ls := SessionGuard.GetChildId(qs.core, portal, username, password);
        AppendAssoc(old(log), sent, ls.sent);
        if logged.Failure? {
          return Failure(logged.error);
        }
        var k := GetChildId();
        AppendAssoc(old(log), sent + ls.sent, SessionGuard.GetChildId(ls.core, portal, username, password).sent);
        if k.Failure? {
          return Failure(k.error);
        }
        return Success(Put([], k.value, Null));
      }
    }

    /** `custom_api_call(uri, post_data)`. */
    method CustomApiCall(uri: string, body: Option<string>) returns (r: Result<Json, Error>)
      requires Negotiable(portal.versions)
      modifies this
      ensures var s := Fetchers.CustomApiCall(old(State()), portal, username, password, uri, body);
        State() == s.core && log == old(log) + s.sent && r == s.out
    {
      var g := EnsureSession();
      if g.Failure? {
        return Failure(g.error);
      }
      if CsrfCookie !in portal.cookies {
        return Failure(MissingCsrfToken);
      }
      var req: Request;
      if body.Some? && body.value != "" {
        match portal.decode(body.value)
        case None =>
          return Success(InvalidJson);
        case Some(v) =>
          req := PostJson(apiurl + uri, v);
      } else {
        req := Get(apiurl + uri);
      }
      log := log + [req];
      return Success(Decoded(portal, req));
    }

    /** The outer loop of `fetch_messages`: read threads are skipped, every unread one is fetched and expanded. */
    method ReadThreads(threads: seq<Thread>) returns (r: Result<seq<Message>, Error>)
      modifies this
      ensures var t := Threads(apiurl, portal, threads);
        State() == old(State()) && log == old(log) + t.sent && r == t.out
    {
      var messages: seq<Message> := [];
      ghost var sent: seq<Request> := [];
      var i := 0;
      while i < |threads|
        invariant 0 <= i <= |threads|
        invariant Threads(apiurl, portal, threads[..i]) == Run(sent, Success(messages))
        invariant log == old(log) + sent
        invariant State() == old(State())
      {
        var t := threads[i];
        assert threads[..i + 1][..i] == threads[..i];
        if !t.read {
          var req := Get(ThreadUrl(apiurl, t.id));
          log := log + [req];
          sent := sent + [req];
          var reply := portal.threadReply(t.id);
          if reply.statusCode == 403 {
            messages := messages + [Placeholder];
          } else {
            var more := AppendMessages(messages, reply.subject, reply.messages);
            if more.Failure? {
              ThreadsStuck(apiurl, portal, threads, i + 1);
              return Failure(more.error);
            }
            messages := more.value;
          }
        }
        i := i + 1;
      }
      assert threads[..i] == threads;
      return Success(messages);
    }

    /** `fetch_messages`: the guard, the thread list, then every unread thread in turn. */
    method FetchMessages() returns (r: Result<seq<Message>, Error>)
      requires Negotiable(portal.versions)
      modifies this
      ensures var s := Messages.FetchMessages(old(State()), portal, username, password);
        State() == s.core && log == old(log) + s.sent && r == s.out
    {
      ghost var c := State();
      var g := EnsureSession();
      if g.Failure? {
        return Failure(g.error);
      }
      ghost var gs := Guard(c, portal, username, password);
      var listing := Get(apiurl + ThreadsQuery);
      AppendAssoc(old(log), gs.sent, [listing]);
      log := log + [listing];
      ghost var t := Threads(apiurl, portal, portal.threads);
      r := ReadThreads(portal.threads);
      AppendAssoc(old(log), gs.sent + [listing], t.sent);
    }

    /**
     * The comprehension of `fetch_calendar`: `get_child_id()` once per event,
     * in order, keeping the events that list the id it returns.
     */
    method RetainEvents(events: seq<Event>) returns (r: Result<seq<Event>, Error>)
      requires Negotiable(portal.versions)
      modifies this
      ensures var s := Retain(old(State()), portal, username, password, events);
        State() == s.core && log == old(log) + s.sent && r == s.out
    {
      ghost var c := State();
      var kept: seq<Event> := [];
      ghost var sent: seq<Request> := [];
      var i := 0;
      while i < |events|
        invariant 0 <= i <= |events|
        invariant Retain(c, portal, username, password, events[..i]) == Step(State(), sent, Success(kept))
        invariant log == old(log) + sent
      {
        var e := events[i];
        assert events[..i + 1][..i] == events[..i];
        ghost var q := SessionGuard.GetChildId(State(), portal, username, password);
        var id := GetChildId();
        AppendAssoc(old(log), sent, q.sent);
        sent := sent + q.sent;
        if id.Failure? {
          RetainStuck(c, portal, username, password, events, i + 1);
          return Failure(id.error);
        }
        if BelongsTo(e, id.value) {
          kept := kept + [e];
        } else {
          assert kept + [] == kept;
        }
        i := i + 1;
      }
      assert events[..i] == events;
      return Success(kept);
    }

    /**
     * `fetch_calendar(days, structured)` with the two ends of the date range
     * given: the POST, then the comprehension, then the grouping by day when
     * asked to.
     */
    method FetchCalendar(start: string, end: string, structured: bool) returns (r: Result<CalendarResult, Error>)
      requires Negotiable(portal.versions)
      modifies this
      ensures var s := CalendarFetch.FetchCalendar(old(State()), portal, username, password, start, end, structured);
        State() == s.core && log == old(log) + s.sent && r == s.out
    {
      ghost var c := State();
      var g := EnsureSession();
      if g.Failure? {
        return Failure(g.error);
      }
      ghost var gs := Guard(c, portal, username, password);
      if CsrfCookie !in portal.cookies {
        return Failure(MissingCsrfToken);
      }
      if ids.None? {
        return Failure(NotLoggedIn);
      }
      var post := PostJson(apiurl + EventsQuery, EventsBody(ids.value, start, end));
      AppendAssoc(old(log), gs.sent, [post]);
      log := log + [post];
      if portal.calendar.message != "OK" {
        return Success(Flat([]));
      }
      ghost var q := Retain(gs.core, portal, username, password, portal.calendar.events);
      var kept := RetainEvents(portal.calendar.events);
      AppendAssoc(old(log), gs.sent + [post], q.sent);
      if kept.Failure? {
        return Failure(kept.error);
      }
      if !structured {
        return Success(Flat(kept.value));
      }
      var days := StructureByDay(kept.value);
      if days.Failure? {
        return Failure(days.error);
      }
      return Success(ByDay(days.value));
    }

    /** The album loop of `fetch_gallery`: one GET per album, the items of every album that answers "OK". */
    method ReadAlbums(albums: seq<int>) returns (items: seq<GalleryItem>)
      modifies this
      ensures State() == old(State()) && log == old(log) + Albums(apiurl, portal, albums).0
      ensures items == Albums(apiurl, portal, albums).1
    {
      items := [];
      ghost var sent: seq<Request> := [];
      var i := 0;
      while i < |albums|
        invariant 0 <= i <= |albums|
        invariant Albums(apiurl, portal, albums[..i]) == (sent, items)
        invariant log == old(log) + sent
        invariant State() == old(State())
      {
        var id := albums[i];
        assert albums[..i + 1][..i] == albums[..i];
        var req := Get(AlbumUrl(apiurl, id));
        log := log + [req];
        sent := sent + [req];
        var reply := portal.album(id);
        if reply.message == "OK" {
          items := AppendItems(items, reply.pictures);
        } else {
          assert items + [] == items;
        }
        i := i + 1;
      }
      assert albums[..i] == albums;
    }

    /** `fetch_gallery`: the album list for every child, then every album in turn. */
    method FetchGallery() returns (r: Result<seq<GalleryItem>, Error>)
      requires Negotiable(portal.versions)
      modifies this
      ensures var s := Gallery.FetchGallery(old(State()), portal, username, password);
        State() == s.core && log == old(log) + s.sent && r == s.out
    {
      ghost var c := State();
      var g := EnsureSession();
      if g.Failure? {
        return Failure(g.error);
      }
      ghost var gs := Guard(c, portal, username, password);
      if profiles.None? {
        return Failure(NotLoggedIn);
      }
      var list := Get(AlbumsUrl(apiurl, Join(IdTexts(AllChildren(profiles.value)))));
      AppendAssoc(old(log), gs.sent, [list]);
      log := log + [list];
      if portal.albums.message != "OK" {
        return Success([]);
      }
      ghost var a := Albums(apiurl, portal, portal.albums.albums);
      var items := ReadAlbums(portal.albums.albums);
      AppendAssoc(old(log), gs.sent + [list], a.0);
      return Success(items);
    }
  }
}
