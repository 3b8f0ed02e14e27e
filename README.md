# Aula client, modelled and verified in Dafny

This project models `AulaClient`, the Python client for the Danish school
portal Aula. The client does five things:

- It logs in through the UNI-login form chain: at most ten credential POSTs,
  stopping at the portal's landing page.
- It negotiates the API version, starting at v20 and stepping past every
  answer of 410 ("Gone").
- It keeps the session alive: it logs in when there is no session and logs
  in again when the profile probe does not answer "OK".
- An active child chosen by first name scopes some of the calls.
- It turns the portal's answers into:
  - basic child data;
  - the daily presence overview;
  - the unread messages;
  - the active child's calendar, optionally grouped by day;
  - the gallery items;
  - the answer of a custom API call.

The portal is a value: a `Portal` datatype (`portal.dfy`) scripts every answer
the client can receive. An answer that depends on the request is a function of
the part of the request that selects it: the login hop number, the thread id,
the album id, or the whole custom request.

The model has two layers:

- **Specification functions.** Each operation has a pure function over a value
  `Core` of the client's fields (`state.dfy`). It returns a `Step`:
  - the state the operation leaves;
  - the requests it issued, in order;
  - its result, or the exception it raised.

  A raised exception keeps the field updates the Python code made before it.
  For example, a failed login leaves `_session` set.
- **The class.** `Client.AulaClient` (`client.dfy`) has the same fields plus a
  request log. It carries one method per operation, with the Python code's
  loops (the redirect loop, the version loop, and the loops over profiles,
  threads, messages, events, albums and pictures). Each method is proved to
  leave the fields, extend the log and return exactly what its specification
  function says. The lemmas beside the functions prove what the client
  promises.

Modules follow the client's structure:

| module | file | covers |
|---|---|---|
| `Wrappers`, `Json`, `Dict`, `Decimal` | `wrappers.dfy`, `json.dfy`, `dict.dfy`, `decimal.dfy` | `Option`/`Result`; JSON values; insertion-ordered dictionaries; `str(int)` and its inverse |
| `Portal`, `State` | `portal.dfy`, `state.dfy` | the scripted portal, requests, the client's fields, the exceptions |
| `Authenticator` | `authenticator.dfy` | `_login` |
| `SessionGuard` | `guard.dfy` | `_ensure_session`, `require_active_child`, `set_active_child`, `get_child_id`, `get_institution` |
| `Fetchers` | `fetchers.dfy` | `fetch_basic_data`, `fetch_daily_overview`, `custom_api_call` |
| `Messages` | `messages.dfy` | `fetch_messages` |
| `Calendar` | `calendar.dfy` | `_structure_calendar_by_day` |
| `CalendarFetch` | `events.dfy` | `fetch_calendar` |
| `Gallery` | `gallery.dfy` | `fetch_gallery` |
| `Client` | `client.dfy` | the class `AulaClient` and its methods |

Where the code and the intended design disagree, the model follows the code:

- **`fetch_calendar` has no active-child guard.** It is not decorated with
  `require_active_child`. A missing active child raises only through the
  `get_child_id()` inside its filter, so only when the portal returns at least
  one event.
- **`get_child_id()` runs the session guard every time.** That includes the
  call inside the logging f-string of `fetch_daily_overview`, because
  f-strings are evaluated eagerly. So one overview sends up to four profile
  probes.
- **The overview URL can miss a re-login.** Its base URL is `self.apiurl` as it
  was before the `get_child_id()` inside the same expression ran, which may
  log in again.
- **The calendar ignores the UTC offset.** The day key and the clock times come
  from the timestamp as written; the time is not converted to UTC.
- **The two lookups by child name disagree.** `get_institution` matches the
  active child's name as a substring of the full name, while `ids` is keyed by
  the first space-separated token of the name (`SessionGuard.LookupsDisagree`).
- **A failed status returns a flat list.** `fetch_calendar` returns an empty
  list when the status is not "OK", even when `structured` asks for a grouping.

## Model

| member | source | states |
|---|---|---|
| Client.AulaClient.constructor | src/aula_client.py:21-28 | The new client has no session, no profiles, no `ids` and no active child, its API URL is v20, and its log is empty. |
| Client.AulaClient.PostForms | src/aula_client.py:58-79 | The redirect loop posts the form of each page it is given, in order, and stops at the first response on the landing page or after ten posts. The log grows by exactly the credential POSTs of `Authenticator.Chain`, and the result says whether it landed. |
| Client.AulaClient.NegotiateVersion | src/aula_client.py:84-108 | The version loop probes v20, v21, … while they answer 410, then leaves the state, log and result of `Authenticator.Negotiate`: 403 is AccessDenied; 200 stores the profiles and then `ids`, or raises NoProfile for an empty list; anything else is ApiConnectionFailed. |
| Client.AulaClient.Login | src/aula_client.py:30-109 | `_login` sets the session, sends the entry GET and the identity-provider POST, then runs the redirect loop; when it lands, it runs the version loop. State, log and result are those of `Authenticator.Login`. |
| Client.AulaClient.Refresh | src/aula_client.py:115-120 | One profile probe, then a new login unless the probe's message is "OK". |
| Client.AulaClient.EnsureSession | src/aula_client.py:111-120 | `_ensure_session` logs in first when there is no session, then probes. State, log and outcome are those of `SessionGuard.Guard`. |
| Client.AulaClient.SetActiveChild | src/aula_client.py:133-135 | Stores the name unchecked, changes nothing else and sends nothing. |
| Client.AulaClient.GetChildId | src/aula_client.py:122-141 | With no active child (None or ""), raises NoActiveChild before anything runs. Otherwise it runs the guard and returns `ids.get(active_child)`, as `SessionGuard.GetChildId` says. |
| Client.AulaClient.GetInstitution | src/aula_client.py:143-151 | The active-child check, the guard, then the institution of the first child of the first profile whose name contains the active name. It raises NoProfile or NoMatchingChild where the Python indexing raises. |
| Client.CollectBasicData | src/aula_client.py:156-163 | The two nested loops build exactly `BasicData` of all children of all profiles: `str(id)` keys in insertion order, with a later duplicate overwriting the earlier one. |
| Client.AddChildren | src/aula_client.py:158-163 | The inner loop over one profile's children extends the dictionary built so far to `BasicData` of the children seen so far followed by this profile's children. |
| Client.AulaClient.FetchBasicData | src/aula_client.py:153-165 | The guard, then the basic data of the stored profiles, as `Fetchers.FetchBasicData` says. |
| Client.AulaClient.FetchDailyOverview | src/aula_client.py:167-184 | The active-child check, the guard, then the `get_child_id()` calls and the overview GET in the Python evaluation order, as `Fetchers.FetchDailyOverview` says. |
| Client.AulaClient.CustomApiCall | src/aula_client.py:351-377 | The guard and the CSRF cookie. Then a GET for an absent or empty body, the failure value with nothing sent for a body that is not JSON, and otherwise a JSON POST. Any answer is decoded, or wrapped as `raw_response`. |
| Client.AppendMessages | src/aula_client.py:213-228 | The inner message loop appends exactly what `Messages.Collect` builds, or raises its error. |
| Client.AulaClient.ReadThreads | src/aula_client.py:196-228 | The outer thread loop sends one GET per unread thread and builds exactly `Messages.Threads`. |
| Client.AulaClient.FetchMessages | src/aula_client.py:186-230 | The guard, the thread-list GET, then the thread loop, as `Messages.FetchMessages` says. |
| Client.AulaClient.RetainEvents | src/aula_client.py:269-273 | The comprehension calls the `get_child_id` method once per event, in order, and keeps the events listing the returned id, as `CalendarFetch.Retain` says. |
| Client.AulaClient.FetchCalendar | src/aula_client.py:232-278 | The guard, the CSRF cookie and `ids`. Then the POST, an empty flat list on a status that is not "OK", the filter, and the grouping when `structured` is set, as `CalendarFetch.FetchCalendar` says. |
| Client.AppendItems | src/aula_client.py:337-345 | The picture loop appends exactly `Gallery.Items` of the pictures. |
| Client.AulaClient.ReadAlbums | src/aula_client.py:332-345 | The album loop sends one GET per album and collects exactly `Gallery.Albums`. |
| Client.AulaClient.FetchGallery | src/aula_client.py:312-349 | The guard, the album-list GET for all child ids, an empty list when it is not "OK", then the album loop, as `Gallery.FetchGallery` says. |
| Calendar.StructureByDay | src/aula_client.py:280-310 | The grouping loop and the sorting loop compute exactly `Calendar.Structure`, or raise BadTimestamp at the first event whose timestamps do not parse. |
| Authenticator.ScrapedIsLastValue | src/aula_client.py:63-67 | The scraped form holds, for each name, the value of the last input with both a name and a value. |
| Authenticator.PayloadFields | src/aula_client.py:53-74 | Every payload carries the username, the password and `selected-aktoer = KONTAKT`, whatever the page holds. Every other field is the scraped value. |
| Authenticator.FormPostsAt | src/aula_client.py:61-75 | The i-th credential POST submits the i-th page's form to its action. |
| Authenticator.EveryPostCarriesCredentials | src/aula_client.py:68-75 | Every credential POST of a login carries the three credential fields. |
| Authenticator.ChainStopsAtFirstLanding | src/aula_client.py:58-79 | At most ten posts. The loop lands exactly when some hop reaches the landing URL, and then stops at the first such hop. Otherwise it posts all ten. |
| Authenticator.ChainPageAt | src/aula_client.py:60-75 | Each post after the first submits the page the previous response returned. |
| Authenticator.FirstLive | src/aula_client.py:86-93 | The first probed version, from a given one on, that does not answer 410. |
| Authenticator.FirstLiveSkips | src/aula_client.py:92-93 | Every version before the first live one answered 410. |
| Authenticator.ProbeGetsAt | src/aula_client.py:87-91 | The j-th probe of the version loop asks version 20 + j. |
| Authenticator.FirstToken | src/aula_client.py:106 | `name.split(" ")[0]`: the longest prefix without a space, followed by a space or the end. |
| Authenticator.IdsOfIsLastIdFor | src/aula_client.py:105-108 | `ids[first]` is the id of the last child of the first profile whose first name token is `first`, and None when there is none. |
| Authenticator.LoginFailsIffNoLanding | src/aula_client.py:76-82 | A login fails with "Login failed" exactly when no hop of the first ten lands, and then only the session has been set. |
| Authenticator.LoginNegotiates | src/aula_client.py:84-108 | With n answers of 410 before the first other one, `apiurl` stays at v(20+n). Each outcome holds in both directions: 403 is AccessDenied; 200 with a profile is success, storing the profiles and the first profile's `ids`; 200 with no profile stores the empty list and raises NoProfile, as `_profiles[0]` does; anything else is ApiConnectionFailed. Only 200 stores anything. |
| Authenticator.LoginRequests | src/aula_client.py:40-91 | A login sends the entry GET and the identity-provider POST, then one to ten credential POSTs, then one probe per version tried (or exactly ten posts and nothing more when it does not land). |
| Authenticator.LoginIdempotent | src/aula_client.py:30-109 | Logging in again after a successful login reaches the same state with the same requests. |
| SessionGuard.GuardOutcome | src/aula_client.py:111-120 | The guard keeps the active child, and succeeds exactly when a set session probes "OK" or the login succeeds. A set session with an "OK" probe costs one probe and changes nothing. With no session, a failed login raises its error; a successful one is followed by the probe and, when the probe is not "OK", the same login again, leaving the login's state. A set session whose probe is not "OK" logs in after the probe. |
| SessionGuard.GuardKeepsChild | src/aula_client.py:111-120 | The guard never changes the active child. |
| SessionGuard.GuardIdempotent | src/aula_client.py:111-120 | After a successful guard, the next guard succeeds and changes nothing. |
| SessionGuard.GuardKeepsConsistent | src/aula_client.py:111-120 | A successful guard keeps `ids` built from the first stored profile. |
| SessionGuard.GetChildIdMeaning | src/aula_client.py:111-141 | On every state with a child selected, `get_child_id` leaves the guard's state and requests, and raises what the guard raises. After a guard that logged in, which a fresh client always does, or on a consistent state, the id is that of the last child of the first profile whose first name token is the active name, or None. After a login those are the profiles the portal served. Otherwise the guard changed nothing and the lookup is in the stored `ids`, or NotLoggedIn when nothing is stored. |
| SessionGuard.LoginConsistent | src/aula_client.py:97-108 | A successful login stores the profiles the portal served, with `ids` built from the first of them. |
| SessionGuard.GetChildIdSteady | src/aula_client.py:111-141 | After a successful guard, every later `get_child_id` runs a guard that changes nothing and returns what the first call returned. |
| SessionGuard.InstitutionsFirstMatch | src/aula_client.py:147-151 | Some child matches exactly when the list is non-empty, and its head is the institution of the first child whose name contains the active name. |
| SessionGuard.ChildScopedFailFast | src/aula_client.py:122-131 | Without an active child, `get_child_id` and `get_institution` raise before sending anything or changing anything. |
| SessionGuard.LookupsDisagree | src/aula_client.py:106-150 | "Li" finds the institution of "Bo Li" but no child id. |
| Fetchers.GetChildIdLive | src/aula_client.py:137-141 | On a live session, `get_child_id` is one probe and the id of the active name, with no state change. |
| Fetchers.BasicDataLookup | src/aula_client.py:156-163 | The entry under `str(id)` describes the last child with that id. There is one exactly when some child has that id. |
| Fetchers.BasicDataKeys | src/aula_client.py:159-160 | Every key is the decimal rendering of some child's id. |
| Fetchers.FetchBasicDataIdempotent | src/aula_client.py:153-165 | A second call right after a successful one returns the same data and leaves the same state. |
| Fetchers.DailyOverviewLive | src/aula_client.py:167-184 | On a live session there is exactly one key, the active child's id, holding `data[0]` or null when `data` is empty. The requests are the probes of every `get_child_id()` around the one overview GET. |
| Fetchers.DailyOverviewMeaning | src/aula_client.py:167-184 | On every state with a child selected, a fresh client included, the overview raises what the guard or `get_child_id` raises. Otherwise there is exactly one key, the id `get_child_id` returns, holding `data[0]` or null when `data` is empty. The requests are the guard's, then the repeated guard of every `get_child_id()` around the one overview GET. |
| Fetchers.DailyOverviewFresh | src/aula_client.py:167-184 | The first overview of a fresh client whose login succeeds is keyed by the selected child's id among the profiles the portal served. |
| Fetchers.DailyOverviewNeedsChild | src/aula_client.py:167-170 | Without an active child the overview raises and sends nothing. |
| Fetchers.CustomApiCallCases | src/aula_client.py:356-377 | An empty or absent body is a GET. A malformed body sends nothing and returns `{"result": "Fail - invalid JSON"}`, in both directions. Any other body is POSTed as decoded. |
| Fetchers.CustomApiCallAnswer | src/aula_client.py:366-377 | A call that sends its request answers with the reply decoded as JSON, or `{"raw_response": text}` when the text is not JSON. |
| Fetchers.CustomApiCallNeedsCsrf | src/aula_client.py:351-354 | Without the CSRF cookie the call raises after the guard, whatever the body. |
| Messages.CollectMeaning | src/aula_client.py:213-228 | The message loop fails exactly when some message of type "Message" has an unreadable text. Otherwise an entry is in the list exactly when it is built from a message of type "Message". |
| Messages.CollectCount | src/aula_client.py:213-215 | One entry per message of type "Message", no more. |
| Messages.CollectOne | src/aula_client.py:213-226 | One raw message adds nothing unless it is of type "Message". Then it adds one entry: the subject (or ""), the text's "html" entry (the text object itself without one, "intet indhold..." with no text), and the sender's full name (or "Ukendt afsender"). A text that is not an object raises. |
| Messages.CollectAppend | src/aula_client.py:213-228 | Over two runs of messages, the loop succeeds when it succeeds on both, returning the first run's entries followed by the second's. Entries keep message order and multiplicity. |
| Messages.ThreadsOnlyUnread | src/aula_client.py:196-202 | Only unread threads are requested. |
| Messages.ThreadsAllUnread | src/aula_client.py:196-202 | When the loop completes, every unread thread has been requested. |
| Messages.ThreadsFailure | src/aula_client.py:196-228 | The thread loop fails exactly when some unread thread does not expand. |
| Messages.ThreadsContents | src/aula_client.py:196-228 | An entry is in the result exactly when some unread thread contributes it. Read threads contribute nothing. |
| Messages.ThreadsOne | src/aula_client.py:196-228 | One thread contributes nothing when read. Otherwise it contributes one GET and its expansion: the placeholder on 403, else its messages. |
| Messages.ThreadsSnoc | src/aula_client.py:196-228 | One more thread is the loop so far, then that thread's contribution; an earlier error stops the loop. |
| Messages.ThreadsAppend | src/aula_client.py:196-228 | Over two runs of threads, the loop is the first run then the second. Requests and entries keep thread order and multiplicity, and an error stops the loop where it happens. |
| Messages.ReadSkippedForbiddenPlaceholder | src/aula_client.py:204-211 | A read thread then a 403 thread: one GET, and exactly the placeholder with sender "Ukendt afsender". |
| Calendar.NormalizeAppend | src/aula_client.py:291-293 | Replacing "Z" by "+00:00" distributes over concatenation. |
| Calendar.ZuluIsUtc | src/aula_client.py:291-299 | A trailing "Z" gives the same day key and clock time as "+00:00". |
| Calendar.SortByStartCorrect | src/aula_client.py:305-306 | Sorting orders by `startDateTime` and permutes the events. |
| Calendar.SortByStartStable | src/aula_client.py:305-306 | Events with equal starts keep their order. |
| Calendar.GroupMeaning | src/aula_client.py:289-302 | After the grouping loop the keys are distinct and exactly the start days. Each day holds that day's annotated events, in input order. |
| Calendar.StructureFailsIffUnparsable | src/aula_client.py:289-310 | The structurer fails exactly when some event's start or end does not parse. |
| Calendar.StructureMeaning | src/aula_client.py:280-310 | The keys are distinct and exactly the start days. Each day is its annotated events, sorted by start. |
| Calendar.StructuredDayOrdered | src/aula_client.py:302-306 | Each day's list is sorted, holds exactly that day's events as a multiset, and is stable. |
| Calendar.EveryEventFiled | src/aula_client.py:289-302 | Every input event appears, annotated, under the day it starts on. |
| Calendar.FiledEventsBelong | src/aula_client.py:289-302 | Every filed event is an annotated input event that starts on its day. |
| Calendar.SortIdempotent | src/aula_client.py:305-306 | Sorting a sorted day again changes nothing. |
| CalendarFetch.OnlyChildMember | src/aula_client.py:269-273 | An event is kept exactly when it is an input event that belongs to the id. |
| CalendarFetch.RetainLive | src/aula_client.py:269-273 | On a live session the filter sends one probe per event, changes nothing, and keeps exactly the active child's events in order. |
| CalendarFetch.FetchCalendarLive | src/aula_client.py:239-278 | On a live session: one probe and the POST naming every id. A status that is not "OK" gives an empty flat list. Otherwise one more probe per event, and the active child's events, grouped by day when `structured` is set. |
| CalendarFetch.RetainSteady | src/aula_client.py:269-273 | On a state that `get_child_id` leaves unchanged, the comprehension asks for the id once per event and keeps exactly the events of that id, in order. A raise stops it at the first event. |
| CalendarFetch.FetchCalendarMeaning | src/aula_client.py:239-278 | On every state, a fresh client included, the calendar raises what the guard raises, then MissingCsrfToken without the cookie or NotLoggedIn without `ids`. Otherwise it POSTs every id. A status that is not "OK" gives an empty flat list. Else it keeps exactly the events of the id `get_child_id` returns, grouped when asked, with one guarded id request per event. |
| CalendarFetch.FetchCalendarFresh | src/aula_client.py:239-278 | The first flat calendar of a fresh client whose login succeeds is exactly the events, in order, that list the selected child's id among the profiles the portal served. |
| CalendarFetch.KeepsOnlyActiveChild | src/aula_client.py:269-273 | Of an event for child 5 and one for child 7, the filter for 5 keeps only the first. |
| CalendarFetch.TrueIsOne | src/aula_client.py:272 | Python's `True == 1`: an event listing `true` belongs to child 1 and not to child 0. |
| Gallery.IdListRoundTrip | src/aula_client.py:315-320 | The comma-joined `institutionProfileIds` splits back into every child id, in order. |
| Gallery.AlbumsRequests | src/aula_client.py:332-336 | Every album is requested, in order, whether or not it answers "OK". |
| Gallery.AlbumsContents | src/aula_client.py:332-345 | An item is in the gallery exactly when it is built from a picture of an album that answered "OK". |
| Gallery.AlbumsOne | src/aula_client.py:332-345 | One album is one GET and, when it answers "OK", the items of its pictures. |
| Gallery.AlbumsAppend | src/aula_client.py:332-345 | Over two runs of albums, requests and items are the first run's followed by the second's. Album-then-picture order and multiplicity are kept. |
| Gallery.Items | src/aula_client.py:338-345 | One item per picture, in order, with a missing title, url or created defaulting to "". |
| Gallery.GallerySoftFails | src/aula_client.py:328-330 | An album list that is not "OK" gives an empty gallery after the one list request. |
| Decimal.ParseIntToString | src/aula_client.py:159 | `int(str(i)) == i`: the rendering is a numeral that reads back as the integer. |
| Decimal.IntToStringInjective | src/aula_client.py:159-160 | Distinct ids give distinct keys, so keys collide exactly when ids do. |
| Dict.LookupPut | src/aula_client.py:160 | After `d[k] = v`, `k` maps to `v` and every other key is unaffected. |
| Dict.PutKeepsKeysDistinct | src/aula_client.py:160 | Assignment keeps the keys distinct. |

## Left out

- HTTP, TLS, headers and cookies: the transport is the scripted `Portal`. The
  only cookie read is the presence of `Csrfp-Token`; request headers are not
  modelled.
- A portal that changes over time: one `Portal` value answers every request
  of a run the same way. Every profile probe gets the same `probeMessage`,
  and every login replays the same `hops` and `versions`. So the self-healing
  sequence the guard is written for (a probe that is not "OK", a re-login,
  then "OK" on the next call) cannot be expressed. With a probe that is not
  "OK", every guard logs in again, and each login reaches the same state.
  The lemmas below hold only under this assumption.
- SessionGuard.GuardIdempotent, Authenticator.LoginIdempotent and
  Fetchers.FetchBasicDataIdempotent: these hold because the portal never
  changes, not because the client makes a repeated call cheap. So do these
  parts of other lemmas: the second-login clause of
  `SessionGuard.GuardOutcome`, `SessionGuard.GetChildIdSteady`, and the
  repeated guards in `Fetchers.DailyOverviewMeaning` and
  `CalendarFetch.FetchCalendarMeaning`.
- Fetchers.DailyOverviewLive, CalendarFetch.FetchCalendarLive,
  CalendarFetch.RetainLive and Fetchers.GetChildIdLive: stated on a live
  session only, where they give the exact requests. The same results on
  every state, a fresh client included, are `Fetchers.DailyOverviewMeaning`,
  `CalendarFetch.FetchCalendarMeaning`, `CalendarFetch.RetainSteady` and
  `SessionGuard.GetChildIdMeaning`.
- HTML parsing: a page is its form action and its `(name, value)` inputs, as
  BeautifulSoup would find them.
- JSON encoding and decoding: `json.loads` is the portal's `decode` function,
  and `response.json()` answers are datatypes.
- The clock: the two rendered ends of the calendar's date range are parameters
  of `FetchCalendar`, so `datetime.now`, `timedelta(days)` and the `%z`
  rendering are not modelled.
- Logging: no semantics. The `get_child_id()` inside a logging f-string is
  modelled because it sends requests.
- `fetch_basic_data` returns `str(children_data)`: the model returns the
  dictionary itself, because Python's `repr` rendering is not modelled.
- `datetime.fromisoformat`: modelled for the RFC 3339 shape
  `YYYY-MM-DD?HH:MM[:SS[.fraction]][±HH:MM]` after "Z" is replaced. Other forms
  that Python 3.11 and later also accept (week dates, compact forms) are
  treated as unparsable.
- `list.sort` is modelled by its result, a stable sort on the `startDateTime`
  string, defined as an insertion sort. Timsort's steps are not modelled.
- The mutation of the caller's event dictionaries by `formatted_time`, and any
  aliasing between returned lists and the response: values are immutable in
  the model.
- A `KeyError` or `TypeError` from a response missing an expected field: every
  scripted answer has the fields the client reads. The errors of the field
  reads that depend on the state are modelled: `ids` or `_profiles` read before
  any login stored them, `_profiles[0]` of an empty list, a missing CSRF
  cookie, a message text that is not an object, an unparsable timestamp.
- Client.AulaClient.NegotiateVersion: the Python loop does not terminate when
  every version answers 410. The model requires the scripted answers to hold
  some answer other than 410 (`Portal.Negotiable`), a precondition of every
  operation that may log in.
- Client.AulaClient.Login: `_login` is one method; the model splits its two
  loops into `PostForms` and `NegotiateVersion`, and `Login` calls them in
  order.
- Client.AulaClient.FetchMessages, FetchCalendar and FetchGallery: each outer
  loop is its own class method (`ReadThreads`, `RetainEvents`, `ReadAlbums`)
  and the inner loops are module-level methods (`AppendMessages`,
  `AppendItems`), called where the Python code runs those loops. The two
  loops of `fetch_basic_data` are likewise `CollectBasicData` and
  `AddChildren`.
- Module-level code: `load_dotenv`, the `CHILDREN` list (whose `split`
  arguments are inverted), and the global `client` are not part of this model.
- The other files of the repository are not part of this model: the LLM agent,
  research tool, web API and UI code.
