/**
 * `fetch_messages`: the thread list, then the messages of every unread
 * thread. A thread that answers 403 contributes one placeholder; any other
 * answer contributes its messages of type "Message", in order.
 */
module Messages {
  import opened Wrappers
  import opened Json
  import opened Decimal
  import opened Portal
  import opened State
  import opened SessionGuard

  /** One entry of the returned list: `subject`, `text` and `sender`. */
  datatype Message = Message(subject: Json, text: Json, sender: Json)

  /** What a thread that answers 403 contributes. */
  const Placeholder := Message(
    Str("Følsom besked"),
    Str("Log ind på Aula med MitID for at læse denne besked."),
    Str("Ukendt afsender"))

  const ThreadsQuery := "?method=messaging.getThreads&sortOn=date&orderDirection=desc&page=0"

  function ThreadUrl(apiurl: string, id: int): string {
    apiurl + "?method=messaging.getMessagesForThread&threadId=" + IntToString(id) + "&page=0"
  }

  /**
   * `msg.get("text", {}).get("html", msg.get("text", "intet indhold..."))`:
   * a missing text reads as the default, an object gives its "html" entry or
   * itself, and anything else has no `.get` and raises.
   */
  function TextOf(text: Option<Json>): (r: Result<Json, Error>)
    ensures text.None? ==> r == Success(Str("intet indhold..."))
    ensures text.Some? && text.value.Obj? ==> r == Success(GetOr(text.value.fields, "html", text.value))
    ensures r.Failure? <==> text.Some? && !text.value.Obj?
    ensures r.Failure? ==> r.error == BadMessageText
  {
    match text
    case None => Success(Str("intet indhold..."))
    case Some(Obj(fields)) => Success(GetOr(fields, "html", Obj(fields)))
    case Some(_) => Failure(BadMessageText)
  }

  /** The entry built from one raw message of a thread with the given subject. */
  function MessageOf(subject: Option<Json>, m: RawMessage): (r: Result<Message, Error>)
    ensures r.Success? <==> TextOf(m.text).Success?
    ensures r.Success? ==> r.value == Message(subject.GetOr(Str("")), TextOf(m.text).value, GetOr(m.sender, "fullName", Str("Ukendt afsender")))
  {
    match TextOf(m.text)
    case Failure(e) => Failure(e)
    case Success(t) => Success(Message(subject.GetOr(Str("")), t, GetOr(m.sender, "fullName", Str("Ukendt afsender"))))
  }

  predicate IsMessage(m: RawMessage) {
    m.messageType == Str("Message")
  }

  /** The inner loop: the entries built from the raw messages of type "Message", in order. */
  function Collect(subject: Option<Json>, ms: seq<RawMessage>): Result<seq<Message>, Error> {
    if ms == [] then Success([])
    else
      match Collect(subject, ms[..|ms| - 1])
      case Failure(e) => Failure(e)
      case Success(acc) =>
        var m := ms[|ms| - 1];
        if !IsMessage(m) then Success(acc)
        else
          match MessageOf(subject, m)
          case Failure(e) => Failure(e)
          case Success(x) => Success(acc + [x])
  }

  /** What one thread contributes, once its messages have been fetched. */
  function Expand(r: ThreadReply): Result<seq<Message>, Error> {
    if r.statusCode == 403 then Success([Placeholder]) else Collect(r.subject, r.messages)
  }

  /** The requests the outer loop has sent and the list it has built, or the error it raised. */
  datatype Run = Run(sent: seq<Request>, out: Result<seq<Message>, Error>)

  /** The outer loop over the threads: read threads are skipped, each unread one is fetched and expanded. */
  function Threads(apiurl: string, p: Portal, ts: seq<Thread>): Run {
    if ts == [] then Run([], Success([]))
    else
      var r := Threads(apiurl, p, ts[..|ts| - 1]);
      var t := ts[|ts| - 1];
      if r.out.Failure? || t.read then r
      else
        var sent := r.sent + [Get(ThreadUrl(apiurl, t.id))];
        match Expand(p.threadReply(t.id))
        case Failure(e) => Run(sent, Failure(e))
        case Success(xs) => Run(sent, Success(r.out.value + xs))
  }

  /** `fetch_messages`: the guard, the thread list GET, then the outer loop. The state is the guard's. */
  function FetchMessages(c: Core, p: Portal, user: string, pwd: string): Step<seq<Message>>
    requires Negotiable(p.versions)
  {
    var g := Guard(c, p, user, pwd);
    if g.out.Failure? then Raise(g)
    else
      var r := Threads(g.core.apiurl, p, p.threads);
      Step(g.core, g.sent + [Get(g.core.apiurl + ThreadsQuery)] + r.sent, r.out)
  }

  // ---------------------------------------------------------------- properties

  /** A raw message whose entry cannot be built: of type "Message" with a text that is not an object. */
  predicate Unreadable(m: RawMessage) {
    IsMessage(m) && m.text.Some? && !m.text.value.Obj?
  }

  /**
   * The inner loop fails exactly when some message of type "Message" has an
   * unreadable text; otherwise an entry is in the list exactly when it is
   * built from such a message.
   */
  lemma {:induction false} CollectMeaning(subject: Option<Json>, ms: seq<RawMessage>, x: Message)
    ensures Collect(subject, ms).Failure? <==> exists j :: 0 <= j < |ms| && Unreadable(ms[j])
    ensures Collect(subject, ms).Failure? ==> Collect(subject, ms).error == BadMessageText
    ensures Collect(subject, ms).Success? ==>
      (x in Collect(subject, ms).value <==>
         exists j :: 0 <= j < |ms| && IsMessage(ms[j]) && MessageOf(subject, ms[j]) == Success(x))
  {
    if ms != [] {
      var init, m := ms[..|ms| - 1], ms[|ms| - 1];
      CollectMeaning(subject, init, x);
      if exists j :: 0 <= j < |init| && Unreadable(init[j]) {
        var j :| 0 <= j < |init| && Unreadable(init[j]);
        assert ms[j] == init[j];
      }
      if exists j :: 0 <= j < |ms| && Unreadable(ms[j]) {
        var j :| 0 <= j < |ms| && Unreadable(ms[j]);
        if j < |init| { assert init[j] == ms[j]; }
      }
      if exists j :: 0 <= j < |init| && IsMessage(init[j]) && MessageOf(subject, init[j]) == Success(x) {
        var j :| 0 <= j < |init| && IsMessage(init[j]) && MessageOf(subject, init[j]) == Success(x);
        assert ms[j] == init[j];
      }
      if exists j :: 0 <= j < |ms| && IsMessage(ms[j]) && MessageOf(subject, ms[j]) == Success(x) {
        var j :| 0 <= j < |ms| && IsMessage(ms[j]) && MessageOf(subject, ms[j]) == Success(x);
        if j < |init| { assert init[j] == ms[j]; }
      }
    }
  }

  /**
   * What one raw message contributes: nothing unless it is of type
   * "Message"; then one entry with the thread's subject ("" without one),
   * the text's "html" entry (the text object itself without one, and
   * "intet indhold..." when the message has no text) and the sender's full
   * name ("Ukendt afsender" without one). A text that is not an object raises.
   */
  lemma CollectOne(subject: Option<Json>, m: RawMessage)
    ensures var sender := GetOr(m.sender, "fullName", Str("Ukendt afsender"));
      var subj := subject.GetOr(Str(""));
      Collect(subject, [m]) ==
        if !IsMessage(m) then Success([])
        else if m.text.None? then Success([Message(subj, Str("intet indhold..."), sender)])
        else if m.text.value.Obj? then Success([Message(subj, GetOr(m.text.value.fields, "html", m.text.value), sender)])
        else Failure(BadMessageText)
  {
    assert [m][..0] == [];
    assert Collect(subject, [m][..0]) == Success([]);
    if IsMessage(m) && MessageOf(subject, m).Success? {
      assert [] + [MessageOf(subject, m).value] == [MessageOf(subject, m).value];
    }
  }

  /**
   * The inner loop over two runs of messages succeeds when it succeeds on
   * both, and its list is then the first run's entries followed by the
   * second's: entries keep the order of their messages.
   */
  lemma {:induction false} CollectAppend(subject: Option<Json>, a: seq<RawMessage>, b: seq<RawMessage>)
    ensures Collect(subject, a + b).Success? <==> Collect(subject, a).Success? && Collect(subject, b).Success?
    ensures Collect(subject, a + b).Success? ==>
      Collect(subject, a + b).value == Collect(subject, a).value + Collect(subject, b).value
    decreases |b|
  {
    if b == [] {
      assert a + b == a;
    } else {
      var init := b[..|b| - 1];
      assert (a + b)[..|a + b| - 1] == a + init;
      assert (a + b)[|a + b| - 1] == b[|b| - 1];
      CollectAppend(subject, a, init);
    }
  }

  /** Messages not of type "Message" contribute nothing: the count is that of the ones that are. */
  function CountMessages(ms: seq<RawMessage>): nat {
    if ms == [] then 0 else CountMessages(ms[..|ms| - 1]) + (if IsMessage(ms[|ms| - 1]) then 1 else 0)
  }

  lemma {:induction false} CollectCount(subject: Option<Json>, ms: seq<RawMessage>)
    requires Collect(subject, ms).Success?
    ensures |Collect(subject, ms).value| == CountMessages(ms)
  {
    if ms != [] {
      CollectCount(subject, ms[..|ms| - 1]);
    }
  }

  /** An unread thread that the outer loop fetches. */
  ghost predicate Fetched(apiurl: string, ts: seq<Thread>, req: Request) {
    exists i :: 0 <= i < |ts| && !ts[i].read && req == Get(ThreadUrl(apiurl, ts[i].id))
  }

  /** Once the inner loop has raised on a prefix, the later messages change nothing. */
  lemma {:induction false} CollectStuck(subject: Option<Json>, ms: seq<RawMessage>, j: nat)
    requires j <= |ms| && Collect(subject, ms[..j]).Failure?
    ensures Collect(subject, ms) == Collect(subject, ms[..j])
  {
    if j == |ms| {
      assert ms[..j] == ms;
    } else {
      var init := ms[..|ms| - 1];
      assert init[..j] == ms[..j];
      CollectStuck(subject, init, j);
    }
  }

  /** Once the outer loop has raised on a prefix, the later threads change nothing. */
  lemma {:induction false} ThreadsStuck(apiurl: string, p: Portal, ts: seq<Thread>, i: nat)
    requires i <= |ts| && Threads(apiurl, p, ts[..i]).out.Failure?
    ensures Threads(apiurl, p, ts) == Threads(apiurl, p, ts[..i])
  {
    if i == |ts| {
      assert ts[..i] == ts;
    } else {
      var init := ts[..|ts| - 1];
      assert init[..i] == ts[..i];
      ThreadsStuck(apiurl, p, init, i);
    }
  }

  /** One pass of the outer loop, as the lemmas below use it. */
  lemma ThreadsStep(apiurl: string, p: Portal, ts: seq<Thread>)
    requires ts != []
    ensures var r0 := Threads(apiurl, p, ts[..|ts| - 1]);
      var t := ts[|ts| - 1];
      var r := Threads(apiurl, p, ts);
      && (r0.out.Failure? || t.read ==> r == r0)
      && (r0.out.Success? && !t.read ==>
            && r.sent == r0.sent + [Get(ThreadUrl(apiurl, t.id))]
            && (r.out.Failure? <==> Expand(p.threadReply(t.id)).Failure?)
            && (r.out.Success? ==> r.out.value == r0.out.value + Expand(p.threadReply(t.id)).value))
  {
  }

  /** The outer loop requests only unread threads. */
  lemma {:induction false} ThreadsOnlyUnread(apiurl: string, p: Portal, ts: seq<Thread>)
    ensures forall req :: req in Threads(apiurl, p, ts).sent ==> Fetched(apiurl, ts, req)
  {
    if ts != [] {
      var init, t := ts[..|ts| - 1], ts[|ts| - 1];
      ThreadsOnlyUnread(apiurl, p, init);
      ThreadsStep(apiurl, p, ts);
      var r0 := Threads(apiurl, p, init);
      forall req | req in Threads(apiurl, p, ts).sent ensures Fetched(apiurl, ts, req) {
        if req in r0.sent {
          var i :| 0 <= i < |init| && !init[i].read && req == Get(ThreadUrl(apiurl, init[i].id));
          assert ts[i] == init[i];
        } else {
          assert !ts[|ts| - 1].read && req == Get(ThreadUrl(apiurl, ts[|ts| - 1].id));
        }
      }
    }
  }

  /** When the outer loop completes it has requested every unread thread. */
  lemma {:induction false} ThreadsAllUnread(apiurl: string, p: Portal, ts: seq<Thread>, i: nat)
    requires Threads(apiurl, p, ts).out.Success? && i < |ts| && !ts[i].read
    ensures Get(ThreadUrl(apiurl, ts[i].id)) in Threads(apiurl, p, ts).sent
  {
    var init := ts[..|ts| - 1];
    ThreadsStep(apiurl, p, ts);
    if i < |init| {
      assert init[i] == ts[i];
      ThreadsAllUnread(apiurl, p, init, i);
    }
  }

  /** The thread is fetched and its messages cannot all be read. */
  ghost predicate Breaks(p: Portal, t: Thread) {
    !t.read && Expand(p.threadReply(t.id)).Failure?
  }

  /** The outer loop fails exactly when an unread thread does not expand. */
  lemma {:induction false} ThreadsFailure(apiurl: string, p: Portal, ts: seq<Thread>)
    ensures Threads(apiurl, p, ts).out.Failure? <==> exists i :: 0 <= i < |ts| && Breaks(p, ts[i])
  {
    if ts != [] {
      var init := ts[..|ts| - 1];
      ThreadsFailure(apiurl, p, init);
      ThreadsStep(apiurl, p, ts);
      var before := exists i :: 0 <= i < |init| && Breaks(p, init[i]);
      assert Threads(apiurl, p, ts).out.Failure? <==> before || Breaks(p, ts[|ts| - 1]);
      if before {
        var i :| 0 <= i < |init| && Breaks(p, init[i]);
        assert ts[i] == init[i];
      }
      if exists i :: 0 <= i < |ts| && Breaks(p, ts[i]) {
        var i :| 0 <= i < |ts| && Breaks(p, ts[i]);
        if i < |init| { assert init[i] == ts[i]; }
      }
    }
  }

  /** x is one of the entries the thread contributes. */
  ghost predicate Contributes(p: Portal, t: Thread, x: Message) {
    !t.read && Expand(p.threadReply(t.id)).Success? && x in Expand(p.threadReply(t.id)).value
  }

  /**
   * When the outer loop completes, an entry is in the list exactly when some
   * unread thread contributes it: read threads contribute nothing.
   */
  lemma {:induction false} ThreadsContents(apiurl: string, p: Portal, ts: seq<Thread>, x: Message)
    requires Threads(apiurl, p, ts).out.Success?
    ensures x in Threads(apiurl, p, ts).out.value <==> exists i :: 0 <= i < |ts| && Contributes(p, ts[i], x)
  {
    if ts != [] {
      var init, t := ts[..|ts| - 1], ts[|ts| - 1];
      ThreadsStep(apiurl, p, ts);
      var r0 := Threads(apiurl, p, init);
      assert r0.out.Success?;
      ThreadsContents(apiurl, p, init, x);
      var before := exists i :: 0 <= i < |init| && Contributes(p, init[i], x);
      assert x in Threads(apiurl, p, ts).out.value <==> before || Contributes(p, t, x);
      if before {
        var i :| 0 <= i < |init| && Contributes(p, init[i], x);
        assert ts[i] == init[i];
      }
      if exists i :: 0 <= i < |ts| && Contributes(p, ts[i], x) {
        var i :| 0 <= i < |ts| && Contributes(p, ts[i], x);
        if i < |init| { assert init[i] == ts[i]; }
      }
    }
  }

  /** What one thread contributes to the outer loop: nothing when it is read, otherwise one GET and its expansion. */
  function Contribution(apiurl: string, p: Portal, t: Thread): Run {
    if t.read then Run([], Success([])) else Run([Get(ThreadUrl(apiurl, t.id))], Expand(p.threadReply(t.id)))
  }

  /**
   * Two runs one after the other: an error in the first stops there;
   * otherwise the requests are the first's then the second's, and the list
   * is the first's entries then the second's, or the second's error.
   */
  function Then(x: Run, y: Run): Run {
    if x.out.Failure? then x
    else Run(x.sent + y.sent, match y.out
                              case Failure(e) => Failure(e)
                              case Success(v) => Success(x.out.value + v))
  }

  lemma ThenAssoc(x: Run, y: Run, z: Run)
    ensures Then(Then(x, y), z) == Then(x, Then(y, z))
  {
    if x.out.Success? && y.out.Success? {
      assert x.sent + y.sent + z.sent == x.sent + (y.sent + z.sent);
      if z.out.Success? {
        assert x.out.value + y.out.value + z.out.value == x.out.value + (y.out.value + z.out.value);
      }
    }
  }

  lemma ThenNothing(x: Run)
    ensures Then(x, Run([], Success([]))) == x
  {
    if x.out.Success? {
      assert x.sent + [] == x.sent;
      assert x.out.value + [] == x.out.value;
    }
  }

  /** One more thread: the loop so far, then that thread's contribution. */
  lemma ThreadsSnoc(apiurl: string, p: Portal, ts: seq<Thread>, t: Thread)
    ensures Threads(apiurl, p, ts + [t]) == Then(Threads(apiurl, p, ts), Contribution(apiurl, p, t))
  {
    assert (ts + [t])[..|ts + [t]| - 1] == ts;
    if Threads(apiurl, p, ts).out.Success? && t.read {
      ThenNothing(Threads(apiurl, p, ts));
    }
  }

  /** The loop over a single thread is that thread's contribution. */
  lemma ThreadsOne(apiurl: string, p: Portal, t: Thread)
    ensures Threads(apiurl, p, [t]) == Contribution(apiurl, p, t)
  {
    ThreadsSnoc(apiurl, p, [], t);
    assert [] + [t] == [t];
    var c := Contribution(apiurl, p, t);
    assert c.sent == [] + c.sent;
    if c.out.Success? { assert c.out.value == [] + c.out.value; }
  }

  /**
   * The outer loop over two runs of threads is the loop over the first,
   * then the loop over the second: requests and entries keep the thread
   * order, and an error stops the loop where it happens.
   */
  lemma {:induction false} ThreadsAppend(apiurl: string, p: Portal, ts: seq<Thread>, us: seq<Thread>)
    ensures Threads(apiurl, p, ts + us) == Then(Threads(apiurl, p, ts), Threads(apiurl, p, us))
    decreases |us|
  {
    if us == [] {
      assert ts + us == ts;
      ThenNothing(Threads(apiurl, p, ts));
    } else {
      var init, t := us[..|us| - 1], us[|us| - 1];
      assert ts + us == (ts + init) + [t];
      assert us == init + [t];
      ThreadsSnoc(apiurl, p, ts + init, t);
      ThreadsSnoc(apiurl, p, init, t);
      ThreadsAppend(apiurl, p, ts, init);
      ThenAssoc(Threads(apiurl, p, ts), Threads(apiurl, p, init), Contribution(apiurl, p, t));
    }
  }

  /**
   * A read thread and an unread thread whose expansion answers 403: one GET,
   * for the unread thread, and exactly the placeholder message.
   */
  lemma ReadSkippedForbiddenPlaceholder(apiurl: string, p: Portal, a: int, b: int)
    requires p.threadReply(b).statusCode == 403
    ensures Threads(apiurl, p, [Thread(a, true), Thread(b, false)]) ==
      Run([Get(ThreadUrl(apiurl, b))], Success([Placeholder]))
  {
    var ts := [Thread(a, true), Thread(b, false)];
    assert ts[..1] == [Thread(a, true)];
    assert ts[..1][..0] == [];
    assert Threads(apiurl, p, ts[..1]) == Run([], Success([]));
    assert [] + [Get(ThreadUrl(apiurl, b))] == [Get(ThreadUrl(apiurl, b))];
    assert [] + [Placeholder] == [Placeholder];
  }
}
