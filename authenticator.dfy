/**
 * The login ceremony of `_login`: the identity-provider form chain, bounded
 * at ten credential POSTs, then the API version negotiation, then the
 * first-name lookup table `ids`.
 */
module Authenticator {
  import opened Wrappers
  import opened Dict
  import opened Portal
  import opened State

  const MaxRedirects := 10

  /** The form data `{"selectedIdp": "uni_idp"}` posted to the login page's form action. */
  function IdpSelection(): Dict<string, string> {
    [("selectedIdp", "uni_idp")]
  }

  /**
   * The `post_data` comprehension: every input with both a name and a value,
   * in page order, a later input with the same name replacing the earlier value.
   */
  function Scraped(inputs: seq<Input>): Dict<string, string> {
    if inputs == [] then []
    else
      var rest := Scraped(inputs[..|inputs| - 1]);
      var last := inputs[|inputs| - 1];
      if last.name.Some? && last.value.Some? then Put(rest, last.name.value, last.value.value) else rest
  }

  /** Reference reading of the comprehension: the value of the last named, valued input called k. */
  function LastValue(inputs: seq<Input>, k: string): Option<string> {
    if inputs == [] then None
    else
      var last := inputs[|inputs| - 1];
      if last.name == Some(k) && last.value.Some? then last.value else LastValue(inputs[..|inputs| - 1], k)
  }

  lemma {:induction false} ScrapedIsLastValue(inputs: seq<Input>, k: string)
    ensures Lookup(Scraped(inputs), k) == LastValue(inputs, k)
  {
    if inputs != [] {
      var last := inputs[|inputs| - 1];
      ScrapedIsLastValue(inputs[..|inputs| - 1], k);
      if last.name.Some? && last.value.Some? {
        LookupPut(Scraped(inputs[..|inputs| - 1]), last.name.value, last.value.value, k);
      }
    }
  }

  /**
   * The payload of one credential POST: the scraped fields updated with
   * `user_data`. The filter `key in post_data or key not in post_data` holds
   * for every key, so the three credential fields are always written.
   */
  function Payload(inputs: seq<Input>, user: string, pwd: string): Dict<string, string> {
    Put(Put(Put(Scraped(inputs), "username", user), "password", pwd), "selected-aktoer", "KONTAKT")
  }

  lemma PayloadFields(inputs: seq<Input>, user: string, pwd: string)
    ensures var form := Payload(inputs, user, pwd);
      && Lookup(form, "username") == Some(user)
      && Lookup(form, "password") == Some(pwd)
      && Lookup(form, "selected-aktoer") == Some("KONTAKT")
      && forall k :: k != "username" && k != "password" && k != "selected-aktoer" ==>
           Lookup(form, k) == LastValue(inputs, k)
  {
    var s0 := Scraped(inputs);
    var s1 := Put(s0, "username", user);
    var s2 := Put(s1, "password", pwd);
    forall k ensures Lookup(Payload(inputs, user, pwd), k) ==
      if k == "selected-aktoer" then Some("KONTAKT")
      else if k == "password" then Some(pwd)
      else if k == "username" then Some(user)
      else Lookup(s0, k)
    {
      LookupPut(s2, "selected-aktoer", "KONTAKT", k);
      LookupPut(s1, "password", pwd, k);
      LookupPut(s0, "username", user, k);
    }
    forall k ensures Lookup(s0, k) == LastValue(inputs, k) {
      ScrapedIsLastValue(inputs, k);
    }
  }

  /** The credential POST built from a page. */
  function FormPost(page: Page, user: string, pwd: string): Request {
    PostForm(page.action, Payload(page.inputs, user, pwd))
  }

  /** The credential POSTs for a sequence of submitted pages, in order. */
  function FormPosts(pages: seq<Page>, user: string, pwd: string): (posts: seq<Request>)
    ensures |posts| == |pages|
  {
    if pages == [] then [] else FormPosts(pages[..|pages| - 1], user, pwd) + [FormPost(pages[|pages| - 1], user, pwd)]
  }

  /** The i-th credential POST is the one built from the i-th page. */
  lemma {:induction false} FormPostsAt(pages: seq<Page>, user: string, pwd: string, i: nat)
    requires i < |pages|
    ensures FormPosts(pages, user, pwd)[i] == FormPost(pages[i], user, pwd)
  {
    if i < |pages| - 1 {
      FormPostsAt(pages[..|pages| - 1], user, pwd, i);
    }
  }

  /** The pages whose forms the redirect loop submitted, and whether it reached the portal. */
  datatype ChainRun = ChainRun(pages: seq<Page>, landed: bool)

  /**
   * The redirect loop from iteration k on, given the page the previous
   * response returned: post the page's form, stop as soon as a response's
   * final URL is the portal's landing page, give up after ten posts.
   */
  function Chain(page: Page, k: nat, hops: nat -> Reply): (r: ChainRun)
    decreases MaxRedirects - k
  {
    if k >= MaxRedirects then ChainRun([], false)
    else
      var reply := hops(k);
      if reply.url == Landing then ChainRun([page], true)
      else
        var rest := Chain(reply.page, k + 1, hops);
        ChainRun([page] + rest.pages, rest.landed)
  }

  /** The page whose form the i-th post of the chain started at k submits. */
  function PageAt(page: Page, k: nat, hops: nat -> Reply, i: nat): Page {
    if i == 0 then page else hops(k + i - 1).page
  }

  /**
   * The loop posts at most MaxRedirects - k forms; it lands exactly when some
   * hop's final URL is the landing page, and then it stops at the first such
   * hop; otherwise it posts all of its budget.
   */
  lemma {:induction false} ChainStopsAtFirstLanding(page: Page, k: nat, hops: nat -> Reply)
    requires k <= MaxRedirects
    ensures var r := Chain(page, k, hops);
      && |r.pages| <= MaxRedirects - k
      && (r.landed <==> exists j :: k <= j < MaxRedirects && hops(j).url == Landing)
      && (r.landed ==> |r.pages| >= 1 && hops(k + |r.pages| - 1).url == Landing)
      && (forall j :: k <= j < k + |r.pages| - 1 ==> hops(j).url != Landing)
      && (!r.landed ==> |r.pages| == MaxRedirects - k)
    decreases MaxRedirects - k
  {
    if k < MaxRedirects {
      if hops(k).url == Landing {
        assert Chain(page, k, hops) == ChainRun([page], true);
      } else {
        ChainStopsAtFirstLanding(hops(k).page, k + 1, hops);
        var rest := Chain(hops(k).page, k + 1, hops);
        assert Chain(page, k, hops) == ChainRun([page] + rest.pages, rest.landed);
        if exists j :: k <= j < MaxRedirects && hops(j).url == Landing {
          var j :| k <= j < MaxRedirects && hops(j).url == Landing;
          assert k + 1 <= j;
        }
        forall j | k < j < k + 1 + |rest.pages| - 1
          ensures hops(j).url != Landing
        {
          assert k + 1 <= j < k + 1 + |rest.pages| - 1;
        }
      }
    }
  }

  /** The i-th post of the chain submits the form of the page the (i-1)-th response returned. */
  lemma {:induction false} ChainPageAt(page: Page, k: nat, hops: nat -> Reply, i: nat)
    requires i < |Chain(page, k, hops).pages|
    ensures Chain(page, k, hops).pages[i] == PageAt(page, k, hops, i)
    decreases i
  {
    if i > 0 {
      ChainPageAt(hops(k).page, k + 1, hops, i - 1);
    }
  }

  /** Every credential POST carries the username, the password and the actor selector. */
  lemma EveryPostCarriesCredentials(pages: seq<Page>, user: string, pwd: string)
    ensures forall post :: post in FormPosts(pages, user, pwd) ==>
      post.PostForm? &&
      Lookup(post.form, "username") == Some(user) &&
      Lookup(post.form, "password") == Some(pwd) &&
      Lookup(post.form, "selected-aktoer") == Some("KONTAKT")
  {
    forall post | post in FormPosts(pages, user, pwd)
      ensures post.PostForm? && Lookup(post.form, "username") == Some(user) &&
        Lookup(post.form, "password") == Some(pwd) && Lookup(post.form, "selected-aktoer") == Some("KONTAKT")
    {
      var i :| 0 <= i < |pages| && FormPosts(pages, user, pwd)[i] == post;
      FormPostsAt(pages, user, pwd, i);
      PayloadFields(pages[i].inputs, user, pwd);
    }
  }

  /** The index of the first version probe, from k on, that does not answer 410. */
  function FirstLive(versions: seq<ProbeReply>, k: nat): (n: nat)
    requires exists j :: k <= j < |versions| && versions[j].status != 410
    ensures k <= n < |versions| && versions[n].status != 410
    decreases |versions| - k
  {
    if versions[k].status != 410 then k else FirstLive(versions, k + 1)
  }

  /** Every version before the first live one answers 410. */
  lemma {:induction false} FirstLiveSkips(versions: seq<ProbeReply>, k: nat, j: nat)
    requires exists j :: k <= j < |versions| && versions[j].status != 410
    requires k <= j < FirstLive(versions, k)
    ensures versions[j].status == 410
    decreases |versions| - k
  {
    if j > k {
      FirstLiveSkips(versions, k + 1, j);
    }
  }

  /** The probes of versions 20 .. 20 + n - 1, in order. */
  function ProbeGets(n: nat): (gets: seq<Request>)
    ensures |gets| == n
  {
    if n == 0 then [] else ProbeGets(n - 1) + [Get(ApiUrl(FirstVersion + n - 1) + ProfilesQuery)]
  }

  /** One more version tried is one more probe, of the next version. */
  lemma ProbeGetsNext(n: nat)
    ensures ProbeGets(n + 1) == ProbeGets(n) + [Get(ApiUrl(FirstVersion + n) + ProfilesQuery)]
  {
  }

  /** The j-th probe asks version 20 + j. */
  lemma {:induction false} ProbeGetsAt(n: nat, j: nat)
    requires j < n
    ensures ProbeGets(n)[j] == Get(ApiUrl(FirstVersion + j) + ProfilesQuery)
  {
    if j < n - 1 {
      ProbeGetsAt(n - 1, j);
    }
  }

  /** `name.split(" ")[0]`: everything before the first space. */
  function FirstToken(name: string): (t: string)
    ensures |t| <= |name| && t == name[..|t|]
    ensures ' ' !in t
    ensures |t| < |name| ==> name[|t|] == ' '
  {
    if name == [] || name[0] == ' ' then "" else [name[0]] + FirstToken(name[1..])
  }

  /** The `ids` comprehension over the children of the first profile. */
  function IdsOf(children: seq<Child>): Dict<string, int> {
    if children == [] then []
    else Put(IdsOf(children[..|children| - 1]), FirstToken(children[|children| - 1].name), children[|children| - 1].id)
  }

  /** Reference reading of `ids`: the id of the last child whose first name token is `first`. */
  function LastIdFor(children: seq<Child>, first: string): Option<int> {
    if children == [] then None
    else
      var last := children[|children| - 1];
      if FirstToken(last.name) == first then Some(last.id) else LastIdFor(children[..|children| - 1], first)
  }

  lemma {:induction false} IdsOfIsLastIdFor(children: seq<Child>, first: string)
    ensures Lookup(IdsOf(children), first) == LastIdFor(children, first)
  {
    if children != [] {
      var last := children[|children| - 1];
      IdsOfIsLastIdFor(children[..|children| - 1], first);
      LookupPut(IdsOf(children[..|children| - 1]), FirstToken(last.name), last.id, first);
    }
  }

  /**
   * The version loop of `_login`, started from state c: probe versions from
   * 20 up while they answer 410; `apiurl` is left at the first version that
   * answers something else, and that answer decides the outcome. On 200 the
   * profiles are stored before `_profiles[0]` is read for `ids`.
   */
  function Negotiate(c: Core, versions: seq<ProbeReply>): Step<bool>
    requires Negotiable(versions)
  {
    var n := FirstLive(versions, 0);
    var reply := versions[n];
    var probed := c.(apiurl := ApiUrl(FirstVersion + n));
    var sent := ProbeGets(n + 1);
    if reply.status == 403 then Step(probed, sent, Failure(AccessDenied))
    else if reply.status == 200 then
      var stored := probed.(profiles := Some(reply.profiles));
      if |reply.profiles| == 0 then Step(stored, sent, Failure(NoProfile))
      else Step(stored.(ids := Some(IdsOf(reply.profiles[0].children))), sent, Success(true))
    else Step(probed, sent, Failure(ApiConnectionFailed))
  }

  /** The requests before the form chain: the entry page GET and the identity provider POST. */
  function Opening(p: Portal): seq<Request> {
    [Get(LoginEntry), PostForm(p.loginPage.action, IdpSelection())]
  }

  /**
   * `_login`. It sets the session first, so a failed login leaves a session
   * behind; then the form chain; then, once the chain has landed, the
   * version loop.
   */
  function Login(c: Core, p: Portal, user: string, pwd: string): Step<bool>
    requires Negotiable(p.versions)
  {
    var started := c.(session := true);
    var run := Chain(p.idpPage, 0, p.hops);
    var posts := FormPosts(run.pages, user, pwd);
    if !run.landed then Step(started, Opening(p) + posts, Failure(LoginFailed))
    else
      var s := Negotiate(started, p.versions);
      Step(s.core, Opening(p) + posts + s.sent, s.out)
  }

  /** The form chain lands exactly when some hop among the first ten reaches the landing page. */
  ghost predicate Lands(p: Portal) {
    exists j :: 0 <= j < MaxRedirects && p.hops(j).url == Landing
  }

  /**
   * A login fails with LoginFailed exactly when no hop of the form chain
   * lands, and then only the session has been set.
   */
  lemma LoginFailsIffNoLanding(c: Core, p: Portal, user: string, pwd: string)
    requires Negotiable(p.versions)
    ensures var s := Login(c, p, user, pwd);
      && s.core.session && s.core.activeChild == c.activeChild
      && (s.out == Failure(LoginFailed) <==> !Lands(p))
      && (!Lands(p) ==> s.core == c.(session := true))
  {
    ChainStopsAtFirstLanding(p.idpPage, 0, p.hops);
  }

  /**
   * Version negotiation: with n answers of 410 before the first other one,
   * the API URL is left at version 20 + n and that answer decides the
   * outcome: 403 is AccessDenied, 200 stores the profiles and then either
   * the `ids` of the first profile's children or, with no profile, raises
   * NoProfile; anything else is ApiConnectionFailed. Only 200 stores
   * anything.
   */
  lemma LoginNegotiates(c: Core, p: Portal, user: string, pwd: string, n: nat)
    requires Negotiable(p.versions) && Lands(p)
    requires n < |p.versions| && p.versions[n].status != 410
    requires forall j :: 0 <= j < n ==> p.versions[j].status == 410
    ensures var s := Login(c, p, user, pwd);
      var reply := p.versions[n];
      && s.core.apiurl == ApiUrl(FirstVersion + n)
      && (reply.status == 403 <==> s.out == Failure(AccessDenied))
      && (reply.status == 200 ==> s.core.profiles == Some(reply.profiles))
      && (reply.status != 200 ==> s.core.profiles == c.profiles && s.core.ids == c.ids)
      && (reply.status == 200 && |reply.profiles| > 0 <==> s.out == Success(true))
      && (reply.status == 200 && |reply.profiles| == 0 <==> s.out == Failure(NoProfile))
      && (reply.status == 200 && |reply.profiles| > 0 ==> s.core.ids == Some(IdsOf(reply.profiles[0].children)))
      && (reply.status != 403 && reply.status != 200 <==> s.out == Failure(ApiConnectionFailed))
  {
    ChainStopsAtFirstLanding(p.idpPage, 0, p.hops);
    var m := FirstLive(p.versions, 0);
    if n < m {
      FirstLiveSkips(p.versions, 0, n);
    }
    assert m == n;
  }

  /**
   * What a login sends: the entry page GET, the identity provider POST, the
   * credential POSTs of the form chain (at least one, at most ten), and,
   * once the chain lands, one profile probe per version tried, from 20 up.
   */
  lemma LoginRequests(c: Core, p: Portal, user: string, pwd: string)
    requires Negotiable(p.versions)
    ensures var s := Login(c, p, user, pwd);
      var pages := Chain(p.idpPage, 0, p.hops).pages;
      && 1 <= |pages| <= MaxRedirects
      && 2 + |pages| <= |s.sent|
      && s.sent[..2] == [Get(LoginEntry), PostForm(p.loginPage.action, IdpSelection())]
      && s.sent[2..2 + |pages|] == FormPosts(pages, user, pwd)
      && (!Lands(p) ==> |s.sent| == 2 + MaxRedirects)
      && (Lands(p) ==> s.sent[2 + |pages|..] == ProbeGets(FirstLive(p.versions, 0) + 1))
  {
    ChainStopsAtFirstLanding(p.idpPage, 0, p.hops);
    var s := Login(c, p, user, pwd);
    var pages := Chain(p.idpPage, 0, p.hops).pages;
    var pre := [Get(LoginEntry), PostForm(p.loginPage.action, IdpSelection())];
    var posts := FormPosts(pages, user, pwd);
    var tail := if Lands(p) then ProbeGets(FirstLive(p.versions, 0) + 1) else [];
    assert s.sent == pre + posts + tail;
    assert (pre + posts + tail)[2..2 + |pages|] == posts;
  }

  /**
   * A successful login does not depend on the state it started from, other
   * than the active child it keeps: logging in again reaches the same state.
   */
  lemma LoginIdempotent(c: Core, p: Portal, user: string, pwd: string)
    requires Negotiable(p.versions)
    requires Login(c, p, user, pwd).out.Success?
    ensures Login(Login(c, p, user, pwd).core, p, user, pwd) == Step(Login(c, p, user, pwd).core, Login(c, p, user, pwd).sent, Success(true))
  {
  }
}
