/**
 * `_ensure_session`, the active-child precondition (`require_active_child`,
 * `set_active_child`) and the two lookups it guards, `get_child_id` and
 * `get_institution`.
 */
module SessionGuard {
  import opened Wrappers
  import opened Dict
  import opened Portal
  import opened State
  import opened Authenticator

  /** A Step that raised, re-typed for the caller it propagates through. */
  function Raise<T, U>(s: Step<T>): Step<U>
    requires s.out.Failure?
  {
    Step(s.core, s.sent, Failure(s.out.error))
  }

  /** The second half of `_ensure_session`: probe the profiles endpoint, log in again unless it answers "OK". */
  function Refresh(c: Core, p: Portal, user: string, pwd: string): Step<()>
    requires Negotiable(p.versions)
  {
    var probe := Get(c.apiurl + ProfilesQuery);
    if p.probeMessage != "OK" then
      var again := Login(c, p, user, pwd);
      Step(again.core, [probe] + again.sent, if again.out.Success? then Success(()) else Failure(again.out.error))
    else Step(c, [probe], Success(()))
  }

  /**
   * `_ensure_session`: log in when there is no session; then probe the
   * profiles endpoint and log in again when its status message is not "OK".
   */
  function Guard(c: Core, p: Portal, user: string, pwd: string): Step<()>
    requires Negotiable(p.versions)
  {
    if c.session then Refresh(c, p, user, pwd)
    else
      var first := Login(c, p, user, pwd);
      if first.out.Failure? then Raise(first)
      else
        var r := Refresh(first.core, p, user, pwd);
        Step(r.core, first.sent + r.sent, r.out)
  }

  /** The guard never touches the active child. */
  lemma GuardKeepsChild(c: Core, p: Portal, user: string, pwd: string)
    requires Negotiable(p.versions)
    ensures Guard(c, p, user, pwd).core.activeChild == c.activeChild
  {
    LoginFailsIffNoLanding(c, p, user, pwd);
    if !c.session {
      LoginFailsIffNoLanding(Login(c, p, user, pwd).core, p, user, pwd);
    }
  }

  /**
   * The guard logs in at most twice: once when there is no session, once
   * more when the probe is not "OK". It succeeds exactly when a live
   * session answers "OK" or the login succeeds. A live session whose probe
   * is "OK" is left as it is, at the cost of one probe; on a fresh client a
   * successful login is followed by the probe and, when that probe is not
   * "OK", by the same login once more. The active child is never touched.
   */
  lemma GuardOutcome(c: Core, p: Portal, user: string, pwd: string)
    requires Negotiable(p.versions)
    ensures var g := Guard(c, p, user, pwd);
      var first := Login(c, p, user, pwd);
      && g.core.activeChild == c.activeChild
      && (g.out.Success? <==> (c.session && p.probeMessage == "OK") || first.out.Success?)
      && (c.session && p.probeMessage == "OK" ==>
            g == Step(c, [Get(c.apiurl + ProfilesQuery)], Success(())))
      && (!c.session && first.out.Failure? ==>
            g == Step(first.core, first.sent, Failure(first.out.error)))
      && (!c.session && first.out.Success? ==>
            && g.core == first.core
            && g.sent == first.sent + [Get(first.core.apiurl + ProfilesQuery)] +
                         (if p.probeMessage == "OK" then [] else first.sent))
      && (c.session && p.probeMessage != "OK" ==>
            && g.core == first.core
            && g.sent == [Get(c.apiurl + ProfilesQuery)] + first.sent
            && (first.out.Failure? ==> g.out == Failure(first.out.error)))
  {
    GuardKeepsChild(c, p, user, pwd);
    var first := Login(c, p, user, pwd);
    if !c.session && first.out.Success? {
      LoginIdempotent(c, p, user, pwd);
    }
  }

  /** A guard that succeeded leaves a state in which the next guard succeeds and changes nothing. */
  lemma GuardIdempotent(c: Core, p: Portal, user: string, pwd: string)
    requires Negotiable(p.versions)
    requires Guard(c, p, user, pwd).out.Success?
    ensures Guard(Guard(c, p, user, pwd).core, p, user, pwd).core == Guard(c, p, user, pwd).core
    ensures Guard(Guard(c, p, user, pwd).core, p, user, pwd).out.Success?
  {
    var first := if c.session then Step(c, [], Success(true)) else Login(c, p, user, pwd);
    if !c.session {
      LoginFailsIffNoLanding(c, p, user, pwd);
    }
    if p.probeMessage != "OK" {
      LoginIdempotent(first.core, p, user, pwd);
    }
  }

  /** `ids` was built from the first of the stored profiles, as a completed login leaves it. */
  ghost predicate Consistent(c: Core) {
    c.profiles.Some? && |c.profiles.value| > 0 && c.ids == Some(IdsOf(c.profiles.value[0].children))
  }

  lemma GuardKeepsConsistent(c: Core, p: Portal, user: string, pwd: string)
    requires Negotiable(p.versions) && Consistent(c)
    requires Guard(c, p, user, pwd).out.Success?
    ensures Consistent(Guard(c, p, user, pwd).core)
  {
    GuardOutcome(c, p, user, pwd);
    if p.probeMessage != "OK" {
      LoginConsistent(c, p, user, pwd);
    }
  }

  /** `set_active_child`: stores the name, whatever it is. */
  function SetActiveChild(c: Core, name: string): (c': Core)
    ensures c'.activeChild == Some(name)
    ensures c' == c.(activeChild := c'.activeChild)
  {
    c.(activeChild := Some(name))
  }

  /** `get_child_id`: the guard, then `ids.get(active_child)`, None for an unknown name. */
  function GetChildId(c: Core, p: Portal, user: string, pwd: string): Step<Option<int>>
    requires Negotiable(p.versions)
  {
    if NoChildSelected(c) then Step(c, [], Failure(NoActiveChild))
    else
      var g := Guard(c, p, user, pwd);
      if g.out.Failure? then Raise(g)
      else if g.core.ids.None? then Step(g.core, g.sent, Failure(NotLoggedIn))
      else Step(g.core, g.sent, Success(Lookup(g.core.ids.value, c.activeChild.value)))
  }

  /** The profiles a successful login stores: those of the first version that does not answer 410. */
  function ServedProfiles(p: Portal): seq<Profile>
    requires Negotiable(p.versions)
  {
    p.versions[FirstLive(p.versions, 0)].profiles
  }

  /** A successful login leaves `ids` built from the first profile the portal served. */
  lemma LoginConsistent(c: Core, p: Portal, user: string, pwd: string)
    requires Negotiable(p.versions)
    requires Login(c, p, user, pwd).out.Success?
    ensures Login(c, p, user, pwd).core.profiles == Some(ServedProfiles(p))
    ensures Consistent(Login(c, p, user, pwd).core)
  {
  }

  /**
   * With a child selected, `get_child_id` leaves the guard's state and
   * requests and raises what the guard raised. After a guard that logged
   * in (always so on a fresh client) or on a consistent state, the id is
   * that of the last child of the first profile whose first name token is
   * the selected name, None when there is none; after a login those are the
   * profiles the portal served. Otherwise the guard changed nothing and the
   * lookup is in whatever `ids` holds, NotLoggedIn when nothing was stored.
   */
  lemma GetChildIdMeaning(c: Core, p: Portal, user: string, pwd: string)
    requires Negotiable(p.versions) && !NoChildSelected(c)
    ensures var g := Guard(c, p, user, pwd);
      var s := GetChildId(c, p, user, pwd);
      var name := c.activeChild.value;
      && s.core == g.core && s.sent == g.sent
      && (g.out.Failure? ==> s.out == Failure(g.out.error))
      && (g.out.Success? && (Consistent(c) || !c.session || p.probeMessage != "OK") ==>
            && Consistent(g.core)
            && s.out == Success(LastIdFor(g.core.profiles.value[0].children, name)))
      && (g.out.Success? && (!c.session || p.probeMessage != "OK") ==>
            s.out == Success(LastIdFor(ServedProfiles(p)[0].children, name)))
      && (g.out.Success? && !Consistent(g.core) ==>
            && g.core == c
            && s.out == if c.ids.None? then Failure(NotLoggedIn) else Success(Lookup(c.ids.value, name)))
  {
    GuardOutcome(c, p, user, pwd);
    var g := Guard(c, p, user, pwd);
    if g.out.Success? {
      if !c.session || p.probeMessage != "OK" {
        LoginConsistent(c, p, user, pwd);
        assert g.core == Login(c, p, user, pwd).core;
      }
      if Consistent(g.core) {
        IdsOfIsLastIdFor(g.core.profiles.value[0].children, c.activeChild.value);
      }
    }
  }

  /**
   * Once a guard has succeeded, `get_child_id` is steady: it runs the guard
   * again, which changes nothing, and returns what the first call returned.
   */
  lemma GetChildIdSteady(c: Core, p: Portal, user: string, pwd: string)
    requires Negotiable(p.versions)
    requires Guard(c, p, user, pwd).out.Success?
    ensures var g := Guard(c, p, user, pwd).core;
      && Guard(g, p, user, pwd).core == g
      && GetChildId(g, p, user, pwd) ==
           Step(g, if NoChildSelected(c) then [] else Guard(g, p, user, pwd).sent, GetChildId(c, p, user, pwd).out)
  {
    GuardIdempotent(c, p, user, pwd);
    GuardKeepsChild(c, p, user, pwd);
  }

  /** `sub in s`. */
  predicate Contains(s: string, sub: string)
    decreases |s|
  {
    |sub| <= |s| && (s[..|sub|] == sub || (|s| > 0 && Contains(s[1..], sub)))
  }

  /** The institutions of the children whose name contains `name`, in order. */
  function Institutions(children: seq<Child>, name: string): (r: seq<string>)
    ensures |r| <= |children|
  {
    if children == [] then []
    else (if Contains(children[0].name, name) then [children[0].institutionName] else []) + Institutions(children[1..], name)
  }

  /** `get_institution`: the first child of the first profile whose name contains the active child's name. */
  function GetInstitution(c: Core, p: Portal, user: string, pwd: string): Step<string>
    requires Negotiable(p.versions)
  {
    if NoChildSelected(c) then Step(c, [], Failure(NoActiveChild))
    else
      var g := Guard(c, p, user, pwd);
      if g.out.Failure? then Raise(g)
      else if g.core.profiles.None? then Step(g.core, g.sent, Failure(NotLoggedIn))
      else if |g.core.profiles.value| == 0 then Step(g.core, g.sent, Failure(NoProfile))
      else
        var found := Institutions(g.core.profiles.value[0].children, c.activeChild.value);
        if found == [] then Step(g.core, g.sent, Failure(NoMatchingChild))
        else Step(g.core, g.sent, Success(found[0]))
  }

  /** The first matching child's institution: no earlier child's name contains the name. */
  lemma {:induction false} InstitutionsFirstMatch(children: seq<Child>, name: string)
    ensures Institutions(children, name) != [] <==> exists i :: 0 <= i < |children| && Contains(children[i].name, name)
    ensures Institutions(children, name) != [] ==>
      exists i :: && 0 <= i < |children|
                  && Contains(children[i].name, name)
                  && Institutions(children, name)[0] == children[i].institutionName
                  && forall j :: 0 <= j < i ==> !Contains(children[j].name, name)
  {
    if children != [] {
      var tail := children[1..];
      InstitutionsFirstMatch(tail, name);
      if !Contains(children[0].name, name) {
        forall i | 1 <= i < |children| ensures children[i] == tail[i - 1] { }
        if Institutions(tail, name) != [] {
          var i' :| && 0 <= i' < |tail|
                    && Contains(tail[i'].name, name)
                    && Institutions(tail, name)[0] == tail[i'].institutionName
                    && forall j :: 0 <= j < i' ==> !Contains(tail[j].name, name);
          assert children[i' + 1] == tail[i'];
          forall j | 0 <= j < i' + 1 ensures !Contains(children[j].name, name) {
            if j > 0 { assert children[j] == tail[j - 1]; }
          }
        }
      }
    }
  }

  /**
   * The precondition: a child-scoped operation with no active child raises
   * NoActiveChild before anything else, sending nothing and changing nothing.
   */
  lemma ChildScopedFailFast(c: Core, p: Portal, user: string, pwd: string)
    requires Negotiable(p.versions) && NoChildSelected(c)
    ensures GetChildId(c, p, user, pwd) == Step(c, [], Failure(NoActiveChild))
    ensures GetInstitution(c, p, user, pwd) == Step(c, [], Failure(NoActiveChild))
  {
  }

  /**
   * `ids` keys on the first name token while `get_institution` matches any
   * substring of the full name: "Li" finds the institution of "Bo Li" but
   * no child id.
   */
  lemma LookupsDisagree()
    ensures var children := [Child(5, "Bo Li", "Skolen")];
      Lookup(IdsOf(children), "Li") == None && Institutions(children, "Li") == ["Skolen"]
  {
    var children := [Child(5, "Bo Li", "Skolen")];
    assert children[..0] == [];
    assert FirstToken("Bo Li") == "Bo" by {
      assert "Bo Li"[1..] == "o Li";
      assert "o Li"[1..] == " Li";
    }
    assert Contains("Bo Li", "Li") by {
      assert "Bo Li"[1..] == "o Li";
      assert "o Li"[1..] == " Li";
      assert " Li"[1..] == "Li";
      assert Contains("Li", "Li");
    }
  }
}
