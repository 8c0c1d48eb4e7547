/** What each frame does to the server and what it is answered with, outcome by
    outcome, in terms of the records alone. */
module Effects {
  import opened Text
  import opened World
  import opened Mentions
  import opened Invariants
  import opened Subscriptions
  import opened Posting
  import opened Order

  /** Session k's output gains one frame; nothing else changes. */
  ghost predicate AnsweredOnly(w: World, v: World, k: nat, f: ServerFrame)
  {
    k in w.sessions && v == w.(sessions := w.sessions[k := w.sessions[k].(out := w.sessions[k].out + [f])])
  }

  /** Session k holds u. */
  ghost predicate LoggedIn(w: World, k: nat, u: string) { k in w.sessions && w.sessions[k].user == Some(u) }

  /** A new session nobody is logged in on; a known number or a frame for a session
      never opened changes nothing. */
  lemma OpenEffect(w: World, e: Event)
    requires e.Open? || e.session !in w.sessions
    ensures if e.Open? && e.session !in w.sessions
            then Step(w, e) == w.(sessions := w.sessions[e.session := Session(None, false, [], [])])
            else Step(w, e) == w
  {
  }

  // ------------------------------------------------------------------ refusals

  /** The error a frame is answered with, if it is refused. */
  function Refusal(w: World, e: Event): Option<ServerFrame>
    requires e.Receive? && e.session in w.sessions
    requires w.sessions[e.session].user.Some? ==> w.sessions[e.session].user.value in w.users
  {
    var s := w.sessions[e.session];
    match e.frame
    case Invalid(message, body) => Some(Error(message, body))
    case Disconnect(_) => None
    case Connect(u, passcode) =>
      if u in w.users && w.users[u].session.Some? then Some(Error("Already logged in", ""))
      else if u in w.users && passcode != w.users[u].password then Some(Error("Login Error", "Password is wrong"))
      else None
    case Subscribe(_, _) | Unsubscribe(_) | Send(_, _) =>
      if s.user.None? then Some(Error("Action cannot be completed. Please login.", ""))
      else RequestRefusal(w, s.user.value, e.frame)
  }

  /** The same for a request of a logged-in user. */
  function RequestRefusal(w: World, u: string, f: ClientFrame): Option<ServerFrame>
    requires u in w.users && (f.Subscribe? || f.Unsubscribe? || f.Send?)
  {
    match f
    case Subscribe(destination, id) =>
      if StripTopics(destination) == u then Some(Error("Subscribe", "You cannot following on yourself."))
      else if StripTopics(destination) !in w.topics then Some(Error("Subscribe", "Topic was not found."))
      else if id in w.users[u].subs then Some(Error("Subscribe", "Already Following"))
      else None
    case Unsubscribe(id) =>
      if id !in w.users[u].subs then
        Some(Error("Unsubscription error", "User does not have subscription id #" + id))
      else if w.users[u].subs[id] == u then
        Some(Error("Cannot unsubscribe", "You cannot unsubscribe from yourself."))
      else None
    case Send(destination, _) =>
      if StripTopics(destination) !in w.topics then
        Some(Error("No topic found", "FATAL Error! Please contact " + "server administator ASAP"))
      else if StripTopics(destination) != "server" && StripTopics(destination) != u then
        Some(Error("Oops.", "You cannot post on behalf " + "other user.\nThis action was " + "reported to the server " +
                            "administator."))
      else None
  }

  /** A refused frame has no effect but its answer; only a refused login as a
      connected user also redirects that user's connection to the session. */
  lemma RefusedFrame(w: World, e: Event)
    requires Reachable(w) && e.Receive? && e.session in w.sessions
    ensures SessionsHold(w)
    ensures var v := if e.frame.Connect? && e.frame.login in w.users && w.users[e.frame.login].session.Some? then
              w.(users := w.users[e.frame.login := w.users[e.frame.login].(session := Some(e.session))]) else w;
            Refusal(w, e).Some? ==> AnsweredOnly(v, Step(w, e), e.session, Refusal(w, e).value)
    ensures Refusal(w, e).None? ==> forall f :: f in ReplyTo(w, e, e.session) ==> !f.Error?
  {
    Holding(w);
    hide Reachable;
    var s := w.sessions[e.session];
    if e.frame.Connect? {
      RefusedLogin(w, e);
    } else if s.user.Some? && (e.frame.Subscribe? || e.frame.Unsubscribe? || e.frame.Send?) {
      RefusedRequest(w, s.user.value, e.frame, e.report, e.order);
      hide Request, RequestRefusal;
      assert ReplyTo(w, e, e.session) != [] ==>
        Some(ReplyTo(w, e, e.session)[0]) == Request(w, s.user.value, e.frame, e.report, e.order).1;
    } else {
      hide Request, RequestRefusal, EngineConnect;
    }
  }

  lemma RefusedLogin(w: World, e: Event)
    requires e.Receive? && e.session in w.sessions && e.frame.Connect? && SessionsHold(w)
    ensures var v := if e.frame.login in w.users && w.users[e.frame.login].session.Some? then
              w.(users := w.users[e.frame.login := w.users[e.frame.login].(session := Some(e.session))]) else w;
            Refusal(w, e).Some? ==> AnsweredOnly(v, Step(w, e), e.session, Refusal(w, e).value)
    ensures Refusal(w, e).None? ==> forall f :: f in ReplyTo(w, e, e.session) ==> !f.Error?
  {
    hide RequestRefusal, ResetTo, Flush, NewUser;
  }

  lemma RefusedRequest(w: World, u: string, f: ClientFrame, report: string, order: map<string, seq<string>>)
    requires u in w.users && (f.Subscribe? || f.Unsubscribe? || f.Send?)
    ensures var (v, reply) := Request(w, u, f, report, order);
            if RequestRefusal(w, u, f).Some? then v == w && reply == RequestRefusal(w, u, f)
            else reply.Some? ==> !reply.value.Error?
  {
  }

  ghost predicate SessionsHold(w: World)
  {
    forall k :: k in w.sessions && w.sessions[k].user.Some? ==> w.sessions[k].user.value in w.users
  }

  lemma Holding(w: World)
    requires Reachable(w)
    ensures SessionsHold(w)
  {
    ReachableInv(w);
    assert forall k :: k in w.sessions ==> DirectoryOf(w).sessions[k] == w.sessions[k].user;
  }

  // -------------------------------------------------------- login and logout

  /** DISCONNECT: the user, if there is one, is offline, the session is without user
      and closing, and the receipt is the last frame out. */
  lemma DisconnectEffect(w: World, e: Event)
    requires Reachable(w) && e.Receive? && e.frame.Disconnect? && e.session in w.sessions
    ensures var v, s := Step(w, e), w.sessions[e.session];
            v.topics == w.topics && v.total == w.total &&
            v.sessions == w.sessions[e.session := Session(None, true, s.queue, s.out + [Receipt(e.frame.receipt)])] &&
            (s.user.Some? ==> s.user.value in w.users) &&
            v.users == match s.user
                       case None => w.users
                       case Some(u) => w.users[u := w.users[u].(session := None)]
  {
    Holding(w);
    hide Reachable;
  }

  /** CONNECT of an unknown user: an account with that passcode and a topic, each with
      the user's own name under "0", and CONNECTED before whatever waits in the
      session. */
  lemma RegistrationEffect(w: World, e: Event)
    requires e.Receive? && e.frame.Connect? && e.session in w.sessions && e.frame.login !in w.users
    ensures var v, k, u, s := Step(w, e), e.session, e.frame.login, w.sessions[e.session];
            v.total == w.total &&
            v.users == w.users[u := UserState(e.frame.passcode, Some(k), [], map["0" := u])] &&
            v.topics == w.topics[u := TopicState(map[u := "0"], Some(u), 0, 0, 0)] &&
            v.sessions == w.sessions[k := Session(Some(u), s.closing, [], s.out + [Connected] + s.queue)]
  {
    assert w.sessions[e.session].out + [Connected] + w.sessions[e.session].queue + [] ==
             w.sessions[e.session].out + [Connected] + w.sessions[e.session].queue;
  }

  /** The frames that carry posts. */
  function PostFrames(ms: seq<Message>): (fs: seq<ServerFrame>)
    ensures |fs| == |ms|
  {
    seq(|ms|, i requires 0 <= i < |ms| => MessageFrame("/topic/" + ms[i].topic, ms[i].id, ms[i].text))
  }

  lemma PostFramesAre(ms: seq<Message>)
    ensures ToFrames(ms) == PostFrames(ms)
  {
  }

  /** CONNECT of a known user who is offline, with the right password: the user is
      connected to the session, keeps the subscription under "0" alone and is on no
      other topic's list. The session gets CONNECTED, what waited in it and the
      backlog; if it held somebody already, the backlog comes before CONNECTED. */
  lemma LoginEffect(w: World, e: Event)
    requires Reachable(w) && e.Receive? && e.frame.Connect? && e.session in w.sessions
    requires e.frame.login in w.users && w.users[e.frame.login].session.None? &&
             e.frame.passcode == w.users[e.frame.login].password
    ensures var v, k, u := Step(w, e), e.session, e.frame.login;
            var s, posts := w.sessions[k], PostFrames(w.users[u].messages);
            v.total == w.total &&
            v.users == w.users[u := UserState(e.frame.passcode, Some(k), [], map["0" := u])] &&
            v.topics == (map t | t in w.topics ::
              if t == u then w.topics[t] else w.topics[t].(subscribers := w.topics[t].subscribers - {u})) &&
            v.sessions == w.sessions[k := Session(Some(u), s.closing, [],
              if s.user.None? then s.out + [Connected] + s.queue + posts else s.out + posts + [Connected])]
  {
    var k, u := e.session, e.frame.login;
    NothingWaits(w, u, k);
    SelfSubscription(w, u);
    PostFramesAre(w.users[u].messages);
    LoginState(w, k, u);
  }

  lemma LoginState(w: World, k: nat, u: string)
    requires u in w.users && w.users[u].session.None? && k in w.sessions
    requires SELF_ID in w.users[u].subs && w.users[u].subs[SELF_ID] == u
    requires w.sessions[k].user.Some? ==> w.sessions[k].queue == []
    ensures var v := Respond(SetUser(ResetTo(Flush(SetSession(w, u, Some(k)), u), u), k, Some(u)), k, Some(Connected));
            var s, posts := w.sessions[k], ToFrames(w.users[u].messages);
            v.total == w.total &&
            v.users == w.users[u := UserState(w.users[u].password, Some(k), [], map["0" := u])] &&
            v.topics == (map t | t in w.topics ::
              if t == u then w.topics[t] else w.topics[t].(subscribers := w.topics[t].subscribers - {u})) &&
            v.sessions == w.sessions[k := Session(Some(u), s.closing, [],
              if s.user.None? then s.out + [Connected] + s.queue + posts else s.out + posts + [Connected])]
  {
    hide ToFrames;
    var s, posts := w.sessions[k], ToFrames(w.users[u].messages);
    var x := ResetTo(Flush(SetSession(w, u, Some(k)), u), u);
    assert x.users[u].subs == map["0" := u];
    assert x.users == w.users[u := UserState(w.users[u].password, Some(k), [], map["0" := u])];
    assert x.sessions == w.sessions[k := Hand(s, posts)];
    assert ToFrames([]) == [];
    assert s.out + [] + posts == s.out + posts;
    assert (s.out + [Connected]) + (s.queue + posts) + [] == s.out + [Connected] + s.queue + posts;
    assert s.out + posts + [Connected] + [] + [] == s.out + posts + [Connected];
  }

  // ------------------------------------------------------------- subscriptions

  /** An accepted SUBSCRIBE: one new entry in each index, and the confirmation. */
  lemma SubscribeEffect(w: World, e: Event, u: string)
    requires Reachable(w) && e.Receive? && e.frame.Subscribe? && LoggedIn(w, e.session, u)
    requires u in w.users && RequestRefusal(w, u, e.frame).None?
    ensures var k, id, t := e.session, e.frame.id, StripTopics(e.frame.destination);
            AnsweredOnly(w.(users := w.users[u := w.users[u].(subs := w.users[u].subs[id := t])],
                            topics := w.topics[t := w.topics[t].(subscribers := w.topics[t].subscribers[u := id])]),
                         Step(w, e), k, MessageFrame("/topic/" + u, id, "following " + t))
  {
  }

  /** An accepted UNSUBSCRIBE: the entry goes from both indexes, and the confirmation
      names what was left. */
  lemma UnsubscribeEffect(w: World, e: Event, u: string)
    requires Reachable(w) && e.Receive? && e.frame.Unsubscribe? && LoggedIn(w, e.session, u)
    requires u in w.users && RequestRefusal(w, u, e.frame).None?
    ensures var k, id := e.session, e.frame.id;
            var t := w.users[u].subs[id];
            t in w.topics &&
            AnsweredOnly(w.(users := w.users[u := w.users[u].(subs := w.users[u].subs - {id})],
                            topics := w.topics[t := w.topics[t].(subscribers := w.topics[t].subscribers - {u})]),
                         Step(w, e), k, MessageFrame("/topic/" + u, id, "unfollowing " + t))
  {
    ReachableInv(w);
    assert UserIndex(DirectoryOf(w), u) && DirectoryOf(w).users[u].subs == w.users[u].subs;
    assert DirectoryOf(w).topics.Keys == w.topics.Keys;
  }

  // ----------------------------------------------------------- server commands

  function Flat(parts: seq<string>): string { if parts == [] then "" else parts[0] + Flat(parts[1..]) }

  /** c is what is left of body without the characters up to the space at either end
      and without carriage returns: what stands between the returns, in order. */
  ghost predicate CommandIs(body: string, c: string)
  {
    exists a: string, parts: seq<string>, b: string ::
      body == a + Join(parts, '\r') + b && c == Flat(parts) && (forall x :: x in a || x in b ==> x <= ' ') &&
      (forall p :: p in parts ==> '\r' !in p) && parts != [] &&
      var m := Join(parts, '\r'); m == "" || (m[0] > ' ' && m[|m| - 1] > ' ')
  }

  lemma {:induction false} ReturnsGone(parts: seq<string>)
    requires forall p :: p in parts ==> '\r' !in p
    ensures WithoutReturns(Join(parts, '\r')) == Flat(parts)
  {
    if parts != [] {
      NoReturns(parts[0]);
      if |parts| == 1 {
        assert parts[0] + "" == parts[0];
      } else {
        ReturnsGone(parts[1..]);
        ReturnsBetween(parts[0], "\r" + Join(parts[1..], '\r'));
        assert ("\r" + Join(parts[1..], '\r'))[1..] == Join(parts[1..], '\r');
        assert parts[0] + ['\r'] + Join(parts[1..], '\r') == parts[0] + ("\r" + Join(parts[1..], '\r'));
      }
    }
  }

  lemma {:induction false} NoReturns(s: string)
    requires '\r' !in s
    ensures WithoutReturns(s) == s
  {
    if s != "" { NoReturns(s[1..]); }
  }

  lemma {:induction false} ReturnsBetween(a: string, b: string)
    ensures WithoutReturns(a + b) == WithoutReturns(a) + WithoutReturns(b)
  {
    if a == "" {
      assert a + b == b;
    } else {
      ReturnsBetween(a[1..], b);
      assert (a + b)[0] == a[0] && (a + b)[1..] == a[1..] + b;
      hide WithoutReturns;
      FirstReturn(a);
      FirstReturn(a + b);
    }
  }

  lemma FirstReturn(s: string)
    requires s != ""
    ensures WithoutReturns(s) == (if s[0] == '\r' then "" else [s[0]]) + WithoutReturns(s[1..])
  {
    assert "" + WithoutReturns(s[1..]) == WithoutReturns(s[1..]);
  }

  /** Every text has exactly one such rest. */
  lemma CommandOfText(body: string, c: string)
    ensures CommandIs(body, c) <==> c == ServerCommand(body)
  {
    if CommandIs(body, c) {
      var a: string, parts: seq<string>, b: string :|
        body == a + Join(parts, '\r') + b && c == Flat(parts) && (forall x :: x in a || x in b ==> x <= ' ') &&
        (forall p :: p in parts ==> '\r' !in p) && parts != [] &&
        var m := Join(parts, '\r'); m == "" || (m[0] > ' ' && m[|m| - 1] > ' ');
      TrimAround(Blank, a, Join(parts, '\r'), b);
      ReturnsGone(parts);
    }
    var a, b := TrimParts(Blank, body);
    var parts := Split(Trim(body), '\r');
    JoinSplit(Trim(body), '\r');
    ReturnsGone(parts);
    assert body == a + Join(parts, '\r') + b;
  }

  /** "stop": everybody is offline, and that is all. */
  lemma StopEffect(w: World, e: Event, u: string)
    requires Reachable(w) && e.Receive? && e.frame.Send? && LoggedIn(w, e.session, u)
    requires StripTopics(e.frame.destination) == "server" && CommandIs(e.frame.body, "stop")
    ensures Step(w, e) == w.(users := map x | x in w.users :: w.users[x].(session := None))
  {
    Holding(w);
    ServerTopic(w);
    CommandOfText(e.frame.body, "stop");
  }

  lemma ServerTopic(w: World)
    requires Reachable(w)
    ensures "server" in w.topics
  {
    ReachableInv(w);
    assert DirectoryOf(w).topics.Keys == w.topics.Keys;
  }

  /** x is news to a user: v is w with the user's queue, or the output of the session
      the user alone is connected to, longer by these messages. */
  ghost predicate Told(w: World, v: World, x: string, ms: seq<Message>)
  {
    (Offline(w, x) ==> x in v.users && v.users[x] == w.users[x].(messages := w.users[x].messages + ms)) &&
    forall j :: j in w.sessions && Live(DirectoryOf(w), j, x) ==>
      j in v.sessions && v.sessions[j] == w.sessions[j].(out := w.sessions[j].out + PostFrames(ms))
  }

  /** Nobody's account, list or login changes, and neither does a session to which
      nobody is connected. */
  ghost predicate OnlyTold(w: World, v: World)
  {
    DirectoryOf(v) == DirectoryOf(w) &&
    forall j :: j in w.sessions && (forall y :: y in w.users ==> w.users[y].session != Some(j)) ==>
      j in v.sessions && v.sessions[j] == w.sessions[j]
  }

  lemma SendOnlyTells(w: World, e: Event, u: string)
    requires Reachable(w) && Allowed(w, e) && e.Receive? && e.frame.Send? && LoggedIn(w, e.session, u) && u in w.users
    requires RequestRefusal(w, u, e.frame).None?
    ensures OnlyTold(w, Step(w, e))
  {
    hide Reachable, Allowed, Calls, EngineSend, RequestRefusal, DirectoryOf, Step, Process;
    ReachableInv(w);
    NoAnswer(w, e, u);
    StepDirectory(w, e);
    SendDirectory(DirectoryOf(w), e);
    forall j | j in w.sessions && (forall y :: y in w.users ==> w.users[y].session != Some(j))
      ensures j in Step(w, e).sessions && Step(w, e).sessions[j] == w.sessions[j]
    {
      SessionSend(w, e, j);
      ProjectNone(Calls(w, e), Attached(w, j));
      HandNothing(w.sessions[j]);
    }
  }

  lemma SendDirectory(d: Directory, e: Event)
    requires e.Receive? && e.frame.Send?
    ensures DirectoryStep(d, e) == d
  {
  }

  /** An accepted SEND tells each user what is posted to that user, and has no other
      answer. */
  lemma SendTells(w: World, e: Event, u: string, x: string)
    requires Reachable(w) && Allowed(w, e) && e.Receive? && e.frame.Send? && LoggedIn(w, e.session, u) && u in w.users
    requires RequestRefusal(w, u, e.frame).None?
    ensures Told(w, Step(w, e), x, Posted(w, e, x))
  {
    hide Reachable, Allowed, Posted, Calls, EngineSend, Live, RequestRefusal, Hand;
    ReachableInv(w);
    NoAnswer(w, e, u);
    SendEffect(w, e);
    CallsProject(w, e, x);
    if Offline(w, x) { DeliverOffline(w, Calls(w, e), x); }
    forall j | j in w.sessions && Live(DirectoryOf(w), j, x)
      ensures j in Step(w, e).sessions &&
              Step(w, e).sessions[j] == w.sessions[j].(out := w.sessions[j].out + PostFrames(Posted(w, e, x)))
    {
      SessionSend(w, e, j);
      LiveAttached(w, j, x);
      ProjectSame(Calls(w, e), Attached(w, j), iset{x});
      PostFramesAre(Posted(w, e, x));
      LiveHand(w, j, x, PostFrames(Posted(w, e, x)));
    }
  }

  lemma LiveHand(w: World, j: nat, x: string, fs: seq<ServerFrame>)
    requires Inv(w) && Live(DirectoryOf(w), j, x) && j in w.sessions
    ensures Hand(w.sessions[j], fs) == w.sessions[j].(out := w.sessions[j].out + fs)
  {
    assert DirectoryOf(w).sessions[j] == w.sessions[j].user;
    assert w.sessions[j].out + [] + fs == w.sessions[j].out + fs;
  }

  lemma NoAnswer(w: World, e: Event, u: string)
    requires e.Receive? && e.frame.Send? && LoggedIn(w, e.session, u) && u in w.users
    requires RequestRefusal(w, u, e.frame).None?
    ensures Step(w, e) == Process(w, e.session, e.frame, e.report, e.order).0
  {
  }

  /** Any other text to the server topic: one post is counted there, and each
      subscriber is sent one message, with the report for "stats" and for anything
      that begins with "clients", and an empty one otherwise. */
  lemma BroadcastEffect(w: World, e: Event, u: string, c: string, x: string)
    requires Reachable(w) && e.Receive? && e.frame.Send? && LoggedIn(w, e.session, u) && LegalOrder(w, e.order)
    requires StripTopics(e.frame.destination) == "server" && CommandIs(e.frame.body, c) && c != "stop"
    ensures "server" in w.topics
    ensures var v, s := Step(w, e), w.topics["server"];
            v.topics == w.topics["server" := s.(posted := s.posted + 1)] && v.total == w.total && OnlyTold(w, v) &&
            Told(w, v, x, if x !in s.subscribers then []
                          else [Message("server", s.subscribers[x],
                                        if "clients" <= c || c == "stats" then e.report else "")])
  {
    hide Told, OnlyTold, Live, Reachable, CommandIs, WithoutReturns, Trim, DeliverList, DeliverAll;
    Holding(w);
    ServerTopic(w);
    CommandOfText(e.frame.body, c);
    SendTells(w, e, u, x);
    SendOnlyTells(w, e, u);
    NoAnswer(w, e, u);
    BroadcastCount(w, Answer(e.frame.body, e.report), OrderOf(e.order, "server"));
  }

  lemma BroadcastCount(w: World, text: string, order: seq<string>)
    requires "server" in w.topics
    ensures var v, s := TopicSend(w, "server", text, order, {}), w.topics["server"];
            v.topics == w.topics["server" := s.(posted := s.posted + 1)] && v.total == w.total
  {
    TopicSendEffect(w, "server", text, order, {});
    DeliverAllRestated(w, DeliverList(w.topics["server"].subscribers, "server", text, order, {}), w.topics, w.total);
  }

  // --------------------------------------------------------------------- tweets

  /** The places, in order, at which names has a topic that x is subscribed to. */
  ghost predicate Hits(w: World, x: string, names: seq<string>, places: seq<nat>)
  {
    (forall i, j :: 0 <= i < j < |places| ==> places[i] < places[j]) &&
    forall i: nat :: i in places <==> i < |names| && names[i] in w.topics && x in w.topics[names[i]].subscribers
  }

  ghost function CopiesAt(w: World, x: string, names: seq<string>, text: string, places: seq<nat>): (ms: seq<Message>)
    requires Hits(w, x, names, places)
    ensures |ms| == |places|
  {
    seq(|places|, i requires 0 <= i < |places| =>
      assert places[i] in places;
      Message(names[places[i]], w.topics[names[places[i]]].subscribers[x], text))
  }

  lemma {:induction false} CopiesAtHits(w: World, x: string, names: seq<string>, text: string)
    returns (places: seq<nat>)
    ensures Hits(w, x, names, places) && MentionCopies(w, text, names, x) == CopiesAt(w, x, names, text, places)
  {
    if names == [] {
      places := [];
    } else {
      hide Hits, CopiesAt;
      var n := |names| - 1;
      var before := CopiesAtHits(w, x, names[..n], text);
      places := OneMoreHit(w, x, names, before);
      CopiesSnoc(w, x, names, text, before, places);
    }
  }

  lemma OneMoreHit(w: World, x: string, names: seq<string>, before: seq<nat>) returns (places: seq<nat>)
    requires names != [] && Hits(w, x, names[..|names| - 1], before)
    ensures Hits(w, x, names, places)
    ensures var n := |names| - 1;
            places == if names[n] in w.topics && x in w.topics[names[n]].subscribers then before + [n] else before
  {
    var n := |names| - 1;
    places := if names[n] in w.topics && x in w.topics[names[n]].subscribers then before + [n] else before;
    forall i, j | 0 <= i < j < |places| ensures places[i] < places[j] {
      assert before[i] in before;
    }
    assert forall i: nat :: i in places <==> i in before || (|places| > |before| && i == n);
  }

  lemma CopiesSnoc(w: World, x: string, names: seq<string>, text: string, before: seq<nat>, places: seq<nat>)
    requires names != [] && Hits(w, x, names[..|names| - 1], before) && Hits(w, x, names, places)
    requires var n := |names| - 1;
             places == if names[n] in w.topics && x in w.topics[names[n]].subscribers then before + [n] else before
    ensures var n := |names| - 1;
            CopiesAt(w, x, names, text, places) ==
              CopiesAt(w, x, names[..n], text, before) +
                if names[n] in w.topics && x in w.topics[names[n]].subscribers
                then [Message(names[n], w.topics[names[n]].subscribers[x], text)] else []
  {
    var n := |names| - 1;
    forall i | 0 <= i < |before| ensures before[i] < n && names[..n][before[i]] == names[before[i]] {
      assert before[i] in before;
    }
  }

  /** An accepted post: the messages go to the subscribers of the author's topic, and
      from each mention, in textual order, of an existing topic to those of its
      subscribers who are not the author's. It counts once on the author's topic and
      in total, once on each mentioned topic for each mention, as a post and as a
      mention received, and every mention counts as one made by the author. */
  lemma TweetEffect(w: World, e: Event, u: string, x: string, names: seq<string>) returns (places: seq<nat>)
    requires Reachable(w) && e.Receive? && e.frame.Send? && LoggedIn(w, e.session, u) && LegalOrder(w, e.order)
    requires StripTopics(e.frame.destination) == u && Successive(e.frame.body, 0, names)
    ensures u in w.topics && Hits(w, x, names, places) && OnlyTold(w, Step(w, e))
    ensures Told(w, Step(w, e), x, if x in w.topics[u].subscribers
                                   then [Message(u, w.topics[u].subscribers[x], e.frame.body)]
                                   else CopiesAt(w, x, names, e.frame.body, places))
    ensures var v := Step(w, e);
            v.total == w.total + 1 && v.topics.Keys == w.topics.Keys &&
            forall t :: t in w.topics ==>
              var s, n, own := w.topics[t], multiset(names)[t], if t == u then 1 else 0;
              v.topics[t] == s.(posted := s.posted + n + own, mentioned := s.mentioned + n,
                                mentions := s.mentions + own * |names|)
  {
    hide Told, OnlyTold, Live, Reachable, Successive, CopiesAt, Tweet;
    Author(w, e.session, u);
    FoundAre(e.frame.body, names);
    places := CopiesAtHits(w, x, names, e.frame.body);
    SendTells(w, e, u, x);
    SendOnlyTells(w, e, u);
    NoAnswer(w, e, u);
    TweetCounts(w, u, e.frame.body, e.order);
  }

  lemma Author(w: World, k: nat, u: string)
    requires Reachable(w) && LoggedIn(w, k, u)
    ensures u in w.users && u in w.topics && u != SERVER
  {
    Holding(w);
    ReachableInv(w);
    assert UserIndex(DirectoryOf(w), u) && DirectoryOf(w).topics.Keys == w.topics.Keys;
  }

  // -------------------------------------------------------------------- closing

  ghost predicate SameClosing(w: World, v: World)
  {
    v.sessions.Keys == w.sessions.Keys && forall k :: k in w.sessions ==> v.sessions[k].closing == w.sessions[k].closing
  }

  lemma DeliverClosing(w: World, u: string, m: Message)
    ensures SameClosing(w, Deliver(w, u, m))
  {
  }

  lemma {:induction false} DeliverAllClosing(w: World, ds: seq<Delivery>)
    ensures SameClosing(w, DeliverAll(w, ds))
  {
    hide Deliver;
    if ds != [] {
      DeliverAllClosing(w, ds[..|ds| - 1]);
      DeliverClosing(DeliverAll(w, ds[..|ds| - 1]), ds[|ds| - 1].0, ds[|ds| - 1].1);
    }
  }

  lemma TopicSendClosing(w: World, t: string, text: string, order: seq<string>, except: set<string>)
    ensures SameClosing(w, TopicSend(w, t, text, order, except))
  {
    if t in w.topics { DeliverAllClosing(w, DeliverList(w.topics[t].subscribers, t, text, order, except)); }
  }

  lemma {:induction false} SendMentionsClosing(w: World, p: string, text: string, names: seq<string>,
        order: map<string, seq<string>>, except: set<string>)
    ensures SameClosing(w, SendMentions(w, p, text, names, order, except))
  {
    hide TopicSend;
    if names != [] {
      var t, v := names[|names| - 1], SendMentions(w, p, text, names[..|names| - 1], order, except);
      SendMentionsClosing(w, p, text, names[..|names| - 1], order, except);
      TopicSendClosing(CountMention(v, p), t, text, OrderOf(order, t), except);
    }
  }

  lemma SendClosing(w: World, p: string, dest: string, text: string, report: string, order: map<string, seq<string>>)
    ensures var r := EngineSend(w, p, dest, text, report, order); r.Done? ==> SameClosing(w, r.value)
  {
    hide TopicSend, SendMentions;
    TopicSendClosing(w, SERVER, Answer(text, report), OrderOf(order, SERVER), {});
    var except := if p in w.topics then w.topics[p].subscribers.Keys else {};
    var v := TopicSend(w, p, text, OrderOf(order, p), {});
    TopicSendClosing(w, p, text, OrderOf(order, p), {});
    SendMentionsClosing(v, p, text, FindMentions(text), order, except);
  }

  lemma RequestClosing(w: World, u: string, f: ClientFrame, report: string, order: map<string, seq<string>>)
    requires u in w.users
    ensures SameClosing(w, Request(w, u, f, report, order).0)
  {
    hide EngineSend;
    if f.Send? { SendClosing(w, u, StripTopics(f.destination), f.body, report, order); }
  }

  lemma RespondClosing(w: World, k: nat, reply: Option<ServerFrame>)
    ensures SameClosing(w, Respond(w, k, reply))
  {
  }

  lemma ConnectClosing(w: World, k: nat, login: string, passcode: string)
    ensures SameClosing(w, EngineConnect(w, k, login, passcode).0)
  {
  }

  lemma ProcessClosing(w: World, j: nat, f: ClientFrame, report: string, order: map<string, seq<string>>)
    requires j in w.sessions
    ensures var v := Process(w, j, f, report, order).0;
            if f.Disconnect? then SameClosing(w.(sessions := w.sessions[j := w.sessions[j].(closing := true)]), v)
            else SameClosing(w, v)
  {
    hide Request, EngineConnect;
    var s := w.sessions[j];
    if f.Connect? {
      ConnectClosing(w, j, f.login, f.passcode);
    } else if s.user.Some? && s.user.value in w.users {
      RequestClosing(w, s.user.value, f, report, order);
    }
  }

  /** Only DISCONNECT touches the flag, and it sets that of its own session. */
  lemma ClosingStep(w: World, e: Event, k: nat)
    ensures k in Step(w, e).sessions <==> k in w.sessions || e == Open(k)
    ensures k in Step(w, e).sessions ==>
              (Step(w, e).sessions[k].closing <==>
                 k in w.sessions && (w.sessions[k].closing || (e.Receive? && e.session == k && e.frame.Disconnect?)))
  {
    hide Process, Respond;
    if e.Receive? && e.session in w.sessions {
      var (v, reply) := Process(w, e.session, e.frame, e.report, e.order);
      ProcessClosing(w, e.session, e.frame, e.report, e.order);
      RespondClosing(v, e.session, reply);
    }
  }

  /** From the start: a session is closing if and only if it was opened and has sent a
      DISCONNECT afterwards, whatever else happened. */
  lemma {:induction false} ClosingRun(w0: World, es: seq<Event>, k: nat)
    requires Initial(w0)
    ensures k in Run(w0, es).sessions <==> OpenedIn(es, k)
    ensures k in Run(w0, es).sessions && Run(w0, es).sessions[k].closing <==> DisconnectedIn(es, k)
  {
    hide Step, OpenedIn, DisconnectedIn;
    if es == [] {
      NothingIn(k);
    } else {
      var n := |es| - 1;
      ClosingRun(w0, es[..n], k);
      ClosingStep(Run(w0, es[..n]), es[n], k);
      OneMoreIn(es, k);
    }
  }

  ghost predicate OpenedIn(es: seq<Event>, k: nat)
  {
    exists i :: 0 <= i < |es| && es[i] == Open(k)
  }

  predicate DisconnectOf(e: Event, k: nat) { e.Receive? && e.session == k && e.frame.Disconnect? }

  ghost predicate DisconnectedIn(es: seq<Event>, k: nat)
  {
    exists i, j :: 0 <= i < j < |es| && es[i] == Open(k) && DisconnectOf(es[j], k)
  }

  lemma NothingIn(k: nat)
    ensures !OpenedIn([], k) && !DisconnectedIn([], k)
  {
  }

  lemma OneMoreIn(es: seq<Event>, k: nat)
    requires es != []
    ensures var n := |es| - 1;
            (OpenedIn(es, k) <==> OpenedIn(es[..n], k) || es[n] == Open(k)) &&
            (DisconnectedIn(es, k) <==>
               DisconnectedIn(es[..n], k) || (OpenedIn(es[..n], k) && DisconnectOf(es[n], k)))
  {
    var n := |es| - 1;
    assert forall i :: 0 <= i < n ==> es[..n][i] == es[i];
    if DisconnectedIn(es, k) {
      var i, j :| 0 <= i < j < |es| && es[i] == Open(k) && DisconnectOf(es[j], k);
      assert es[..n][i] == Open(k);
      if j < n { assert DisconnectOf(es[..n][j], k); }
    }
    if DisconnectedIn(es[..n], k) {
      var i, j :| 0 <= i < j < n && es[..n][i] == Open(k) && DisconnectOf(es[..n][j], k);
      assert es[i] == Open(k) && DisconnectOf(es[j], k);
    }
    if OpenedIn(es[..n], k) {
      var i :| 0 <= i < n && es[..n][i] == Open(k);
      assert es[i] == Open(k);
    }
  }
}
