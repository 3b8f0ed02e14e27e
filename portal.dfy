/**
 * The portal as the client sees it through its HTTP session. Nothing here
 * talks to a network: every exchange the client makes is answered from a
 * scripted `Portal` value, one reply per endpoint, and every request the
 * client issues is recorded as a `Request` value so that what was sent, in
 * which order, is part of what the model states.
 */
module Portal {
  import opened Wrappers
  import opened Json
  import opened Dict
  import opened Decimal

  /** An `<input>` element of a login page: its `name` and `value` attributes, either may be absent. */
  datatype Input = Input(name: Option<string>, value: Option<string>)

  /** A login page, reduced to its first form: the form's `action` and every `<input>` of the page. */
  datatype Page = Page(action: string, inputs: seq<Input>)

  /** The answer to a form POST: the final URL after redirects and the page it returned. */
  datatype Reply = Reply(url: string, page: Page)

  /** A child of a profile: `id`, `name` and `institutionProfile.institutionName`. */
  datatype Child = Child(id: int, name: string, institutionName: string)

  datatype Profile = Profile(children: seq<Child>)

  /** The answer to `profiles.getProfilesByLogin` during version negotiation. */
  datatype ProbeReply = ProbeReply(status: int, profiles: seq<Profile>)

  /** One entry of `messaging.getThreads`. */
  datatype Thread = Thread(id: int, read: bool)

  /** One entry of a thread's `data.messages`; `text` is absent when the key is missing, `sender` is the sender object. */
  datatype RawMessage = RawMessage(messageType: Json, text: Option<Json>, sender: map<string, Json>)

  /** The answer to `messaging.getMessagesForThread`: `status.code`, `data.subject` (may be absent) and `data.messages`. */
  datatype ThreadReply = ThreadReply(statusCode: int, subject: Option<Json>, messages: seq<RawMessage>)

  /**
   * A calendar event: the fields the client reads, the `formatted_time` it may
   * add, and every other field of the event object, passed through untouched.
   */
  datatype Event = Event(
    startDateTime: string,
    endDateTime: string,
    belongsToProfiles: seq<Json>,
    formattedTime: Option<string>,
    other: map<string, Json>)

  /** The answer to `calendar.getEventsByProfileIdsAndResourceIds`: `status.message` and `data`. */
  datatype CalendarReply = CalendarReply(message: string, events: seq<Event>)

  /** The answer to `gallery.getAlbums`: `status.message` and the ids of `data.albums`. */
  datatype AlbumsReply = AlbumsReply(message: string, albums: seq<int>)

  /** The answer to `gallery.getAlbum`: `status.message` and the picture objects of `data.pictures`. */
  datatype AlbumReply = AlbumReply(message: string, pictures: seq<map<string, Json>>)

  /** A request the client issues. Headers are not modelled. */
  datatype Request =
    | Get(url: string)
    | PostForm(url: string, form: Dict<string, string>)
    | PostJson(url: string, body: Json)

  /**
   * The scripted portal. A reply that depends on the request is a function of
   * the part of the request that selects it: the login hop number, the thread
   * id, the album id, the whole request of a custom call. `decode` stands for
   * `json.loads`: None when the text is not valid JSON.
   */
  datatype Portal = Portal(
    loginPage: Page,                   // GET login.php?type=unilogin
    idpPage: Page,                     // POST selectedIdp=uni_idp to the login page's form action
    hops: nat -> Reply,                // the k-th credential form POST
    versions: seq<ProbeReply>,         // probe of version 20 + k, for k < |versions|
    probeMessage: string,              // status.message of the session validity probe
    cookies: map<string, string>,      // the session's cookie jar
    overview: seq<Json>,               // data of presence.getDailyOverview
    threads: seq<Thread>,              // data.threads of messaging.getThreads
    threadReply: int -> ThreadReply,   // messaging.getMessagesForThread by thread id
    calendar: CalendarReply,
    albums: AlbumsReply,
    album: int -> AlbumReply,          // gallery.getAlbum by album id
    customText: Request -> string,     // response text of a custom call
    decode: string -> Option<Json>)

  const LoginEntry := "https://login.aula.dk/auth/login.php?type=unilogin"
  const Landing := "https://www.aula.dk:443/portal/"
  const ApiBase := "https://www.aula.dk/api/v"
  const FirstVersion := 20
  const ProfilesQuery := "?method=profiles.getProfilesByLogin"
  const CsrfCookie := "Csrfp-Token"

  /** The API base URL of a version: `f"https://www.aula.dk/api/v{apiver}"`. */
  function ApiUrl(version: int): string {
    ApiBase + IntToString(version)
  }

  /**
   * The version loop asks for versions until one answers something other than
   * 410. It ends only if the scripted replies contain such an answer.
   */
  predicate Negotiable(versions: seq<ProbeReply>) {
    exists j :: 0 <= j < |versions| && versions[j].status != 410
  }
}
