/** The client's state as a value, the errors it raises, and the shape of one operation's outcome. */
module State {
  import opened Wrappers
  import opened Dict
  import opened Portal

  /** The exceptions the client raises, one per cause. */
  datatype Error =
    | LoginFailed          // "Login failed": no form POST reached the portal
    | AccessDenied         // "Invalid credentials or access denied": 403 while probing versions
    | ApiConnectionFailed  // "API connection failed": any other non-200 while probing versions
    | NoActiveChild        // ValueError from require_active_child
    | NoProfile            // IndexError: `_profiles[0]` of an empty profile list
    | NotLoggedIn          // `ids` or `_profiles` read before any login stored them
    | NoMatchingChild      // IndexError: no child name contains the active child's name
    | MissingCsrfToken     // KeyError: the cookie jar has no Csrfp-Token
    | BadTimestamp         // ValueError from `datetime.fromisoformat`
    | BadMessageText       // AttributeError: a message's `text` is neither absent nor an object

  /**
   * The fields of AulaClient: whether `_session` is set, `apiurl`, `_profiles`,
   * `ids` (None until the first login gets that far) and `active_child`.
   */
  datatype Core = Core(
    session: bool,
    apiurl: string,
    profiles: Option<seq<Profile>>,
    ids: Option<Dict<string, int>>,
    activeChild: Option<string>)

  /** The state after `AulaClient(username, password)`. */
  function Initial(): Core {
    Core(false, ApiUrl(FirstVersion), None, None, None)
  }

  /**
   * One operation: the state it leaves, the requests it issued in order, and
   * its return value or the exception it raised. A raised exception keeps
   * the field updates made before it.
   */
  datatype Step<T> = Step(core: Core, sent: seq<Request>, out: Result<T, Error>)

  /** `if not self.active_child`: None and the empty string are both falsy. */
  predicate NoChildSelected(c: Core) {
    c.activeChild.None? || c.activeChild.value == ""
  }
}
