/** End-to-end order and conservation: what a session's output buffer receives. */
module Order {
  import opened Text
  import opened World
  import opened Mentions
  import opened Invariants
  import opened Subscriptions
  import opened Posting

  // ------------------------------------------------- what one event posts to u

  /** The messages event e makes the engine post to user u. */
  function Posted(w: World, e: Event, u: string): seq<Message>
  {
    if !(e.Receive? && e.frame.Send? && e.session in w.sessions && w.sessions[e.session].user.Some? &&
         w.sessions[e.session].user.value in w.users) then []
    else
      var p, dest := w.sessions[e.session].user.value, StripTopics(e.frame.destination);
      if dest !in w.topics then []
      else if dest == SERVER then
        if u in w.topics[SERVER].subscribers
        then [Message(SERVER, w.topics[SERVER].subscribers[u], Answer(e.frame.body, e.report))] else []
      else if p == dest then Copies(w, p, e.frame.body, u)
      else []
  }

  function PostedIn(w: World, es: seq<Event>, u: string): seq<Message>
  {
    if es == [] then [] else
      PostedIn(w, es[..|es| - 1], u) + Posted(Run(w, es[..|es| - 1]), es[|es| - 1], u)
  }

  /** The calls of User.send that Posted sums up. */
  function Calls(w: World, e: Event): seq<Delivery>
  {
    if !(e.Receive? && e.frame.Send? && e.session in w.sessions && w.sessions[e.session].user.Some? &&
         w.sessions[e.session].user.value in w.users) then []
    else
      var p, dest := w.sessions[e.session].user.value, StripTopics(e.frame.destination);
      if dest !in w.topics then []
      else if dest == SERVER then
        DeliverList(w.topics[SERVER].subscribers, SERVER, Answer(e.frame.body, e.report), OrderOf(e.order, SERVER), {})
      else if p == dest then TweetCalls(w, p, e.frame.body, e.order)
      else []
  }

  lemma CallsProject(w: World, e: Event, u: string)
    requires Allowed(w, e)
    ensures Project(Calls(w, e), iset{u}) == Posted(w, e, u)
  {
    if Calls(w, e) != [] || Posted(w, e, u) != [] {
      var p, dest := w.sessions[e.session].user.value, StripTopics(e.frame.destination);
      if dest == SERVER {
        ProjectDeliverList(w.topics[SERVER].subscribers, SERVER, Answer(e.frame.body, e.report), e.order[SERVER], {},
          u);
      } else {
        FanOut(w, p, e.frame.body, e.order, u);
      }
    }
  }

  /** A SEND changes users and sessions exactly by its calls of User.send. */
  lemma SendEffect(w: World, e: Event)
    requires Allowed(w, e) && e.Receive? && e.frame.Send? && e.session in w.sessions
    requires w.sessions[e.session].user.Some? && w.sessions[e.session].user.value in w.users
    ensures var v, x := Process(w, e.session, e.frame, e.report, e.order).0, DeliverAll(w, Calls(w, e));
            v.users == x.users && v.sessions == x.sessions
  {
    var p, dest := w.sessions[e.session].user.value, StripTopics(e.frame.destination);
    if dest in w.topics {
      if dest == SERVER {
        TopicSendEffect(w, SERVER, Answer(e.frame.body, e.report), OrderOf(e.order, SERVER), {});
      } else if p == dest {
        TweetDelivers(w, p, e.frame.body, e.order);
      }
    }
  }

  lemma {:induction false} MentionCallsListed(w: World, text: string, names: seq<string>,
          order: map<string, seq<string>>, except: set<string>)
    ensures forall d :: d in MentionCalls(w, text, names, order, except) ==>
              d.1.topic in w.topics && d.0 in w.topics[d.1.topic].subscribers &&
              d.1.id == w.topics[d.1.topic].subscribers[d.0]
  {
    if names != [] {
      var t := names[|names| - 1];
      MentionCallsListed(w, text, names[..|names| - 1], order, except);
      if t in w.topics { DeliverListFacts(w.topics[t].subscribers, t, text, OrderOf(order, t), except); }
    }
  }

  /** Every message carries the subscription id its receiver holds there; so one
      from the receiver's own topic carries "0". */
  lemma CallsSelfAddressed(w: World, e: Event)
    requires SelfListed(DirectoryOf(w))
    ensures SelfAddressed(Calls(w, e))
  {
    var ds := Calls(w, e);
    if ds != [] {
      var p, dest := w.sessions[e.session].user.value, StripTopics(e.frame.destination);
      var t := if dest == SERVER then SERVER else p;
      var text := if dest == SERVER then Answer(e.frame.body, e.report) else e.frame.body;
      DeliverListFacts(w.topics[t].subscribers, t, text, OrderOf(e.order, t), {});
      if dest != SERVER {
        MentionCallsListed(w, text, FindMentions(text), e.order, w.topics[p].subscribers.Keys);
      }
      forall d | d in ds && d.1.topic == d.0 ensures d.1.id == SELF_ID {
        assert DirectoryOf(w).topics[d.0].subscribers == w.topics[d.0].subscribers;
      }
    }
  }

  // ------------------------------------------------------------- offline users

  /** e logs u in. */
  predicate LogsIn(w: World, e: Event, u: string)
  {
    e.Receive? && e.frame.Connect? && e.frame.login == u && u in w.users && e.frame.passcode == w.users[u].password
  }

  ghost predicate Offline(w: World, u: string) { u in w.users && w.users[u].session.None? }

  lemma OfflineConnect(w: World, k: nat, x: string, passcode: string, u: string)
    requires Offline(w, u) && !(x == u && passcode == w.users[u].password)
    ensures var v := EngineConnect(w, k, x, passcode).0;
            Offline(v, u) && v.users[u].messages == w.users[u].messages && v.users[u].password == w.users[u].password
  {
  }

  lemma OfflineRequest(w: World, x: string, f: ClientFrame, report: string, order: map<string, seq<string>>, u: string)
    requires Offline(w, u) && x in w.users && !f.Send?
    ensures var v := Request(w, x, f, report, order).0;
            Offline(v, u) && v.users[u].messages == w.users[u].messages && v.users[u].password == w.users[u].password
  {
  }

  /** v is w with u still offline and ms added to u's queue. */
  ghost predicate Backlog(w: World, v: World, u: string, ms: seq<Message>)
  {
    Offline(w, u) && Offline(v, u) && v.users[u].password == w.users[u].password &&
    v.users[u].messages == w.users[u].messages + ms
  }

  lemma BacklogConcat(a: World, b: World, c: World, u: string, ms: seq<Message>, ns: seq<Message>)
    requires Backlog(a, b, u, ms) && Backlog(b, c, u, ns)
    ensures Backlog(a, c, u, ms + ns)
  {
  }

  /** While u is offline, an event adds to u's queue exactly what it posts to u. */
  lemma OfflineStep(w: World, e: Event, u: string)
    requires Inv(w) && Allowed(w, e) && Offline(w, u) && !LogsIn(w, e, u)
    ensures Backlog(w, Step(w, e), u, Posted(w, e, u))
  {
    if e.Receive? && e.session in w.sessions {
      var v, s := Process(w, e.session, e.frame, e.report, e.order).0, w.sessions[e.session];
      assert Step(w, e).users == v.users;
      if e.frame.Connect? {
        OfflineConnect(w, e.session, e.frame.login, e.frame.passcode, u);
      } else if !e.frame.Disconnect? && s.user.Some? && s.user.value in w.users {
        if e.frame.Send? {
          SendEffect(w, e);
          DeliverOffline(w, Calls(w, e), u);
          CallsProject(w, e, u);
        } else {
          OfflineRequest(w, s.user.value, e.frame, e.report, e.order, u);
        }
      }
    }
  }

  ghost predicate StaysOut(w: World, es: seq<Event>, u: string)
  {
    es == [] || (StaysOut(w, es[..|es| - 1], u) && !LogsIn(Run(w, es[..|es| - 1]), es[|es| - 1], u))
  }

  /** The offline backlog is what was posted meanwhile, in posting order. */
  lemma {:induction false} OfflineRun(w: World, es: seq<Event>, u: string)
    requires Inv(w) && AllowedRun(w, es) && Offline(w, u) && StaysOut(w, es, u)
    ensures Backlog(w, Run(w, es), u, PostedIn(w, es, u))
  {
    hide Step, Posted;
    if es != [] {
      var before := es[..|es| - 1];
      OfflineRun(w, before, u);
      RunKeeps(w, before);
      OfflineStep(Run(w, before), es[|es| - 1], u);
      BacklogConcat(w, Run(w, before), Run(w, es), u, PostedIn(w, before, u), Posted(Run(w, before), es[|es| - 1], u));
    }
  }

  // -------------------------------------------------------------- live sessions

  /** Session k holds u, and u is the only user whose messages go to k. */
  ghost predicate Live(d: Directory, k: nat, u: string)
  {
    k in d.sessions && d.sessions[k] == Some(u) && u in d.users &&
    forall x :: x in d.users ==> (d.users[x].session == Some(k) <==> x == u)
  }

  /** e is not a CONNECT or DISCONNECT of session k, nor a CONNECT as u elsewhere. */
  predicate Undisturbed(e: Event, k: nat, u: string)
  {
    e.Receive? ==>
      (e.session == k ==> !e.frame.Connect? && !e.frame.Disconnect?) && (e.frame.Connect? ==> e.frame.login != u)
  }

  lemma LiveStep(d: Directory, e: Event, k: nat, u: string)
    requires Live(d, k, u) && Exclusive(d) && Undisturbed(e, k, u)
    ensures Live(DirectoryStep(d, e), k, u)
  {
  }

  /** The reply session k gets to event e. */
  function ReplyTo(w: World, e: Event, k: nat): seq<ServerFrame>
  {
    if e.Receive? && e.session == k && k in w.sessions then
      match Process(w, k, e.frame, e.report, e.order).1
      case Some(f) => [f]
      case None => []
    else []
  }

  lemma LiveAttached(w: World, k: nat, u: string)
    requires Live(DirectoryOf(w), k, u)
    ensures forall x :: x in Attached(w, k) <==> x in iset{u}
  {
    assert forall x :: x in w.users ==> DirectoryOf(w).users[x].session == w.users[x].session;
  }

  lemma {:induction false} ProjectSame(ds: seq<Delivery>, a: iset<string>, b: iset<string>)
    requires forall x :: x in a <==> x in b
    ensures Project(ds, a) == Project(ds, b)
  {
    if ds != [] {
      ProjectSame(ds[..|ds| - 1], a, b);
    }
  }

  /** Session k holds u, and no one else's messages go there. */
  ghost predicate Held(d: Directory, k: nat, u: string)
  {
    k in d.sessions && d.sessions[k] == Some(u) && u in d.users && d.users[u].session.Some? &&
    forall x :: x in d.users && d.users[x].session == Some(k) ==> x == u
  }

  /** e is no CONNECT or DISCONNECT of session k. */
  predicate Calm(e: Event, k: nat)
  {
    e.Receive? && e.session == k ==> !e.frame.Connect? && !e.frame.Disconnect?
  }

  /** What event e posts to the users attached to session k. */
  ghost function Pushed(w: World, e: Event, k: nat): seq<Message> { Project(Calls(w, e), Attached(w, k)) }

  lemma SessionSend(w: World, e: Event, k: nat)
    requires Inv(w) && Allowed(w, e) && k in w.sessions
    requires e.Receive? && e.frame.Send? && e.session in w.sessions
    requires w.sessions[e.session].user.Some? && w.sessions[e.session].user.value in w.users
    ensures var v := Process(w, e.session, e.frame, e.report, e.order).0;
            k in v.sessions && v.sessions[k] == Hand(w.sessions[k], ToFrames(Pushed(w, e, k)))
  {
    IndexesSelfListed(DirectoryOf(w));
    CallsSelfAddressed(w, e);
    SendEffect(w, e);
    DeliverOnline(w, Calls(w, e), k);
  }

  /** No event but a SEND, and no one else's login, hands anything to k but replies. */
  lemma OtherConnect(w: World, j: nat, x: string, passcode: string, k: nat)
    requires j != k && k in w.sessions
    ensures var v := EngineConnect(w, j, x, passcode).0;
            v.sessions.Keys == w.sessions.Keys && v.sessions[k].out == w.sessions[k].out &&
            v.sessions[k].queue == w.sessions[k].queue
  {
  }

  lemma OtherRequest(w: World, x: string, f: ClientFrame, report: string, order: map<string, seq<string>>)
    requires x in w.users && !f.Send?
    ensures Request(w, x, f, report, order).0.sessions == w.sessions
  {
  }

  lemma AuthorizedQueue(w: World, k: nat)
    requires Inv(w) && k in w.sessions && w.sessions[k].user.Some?
    ensures w.sessions[k].queue == []
  {
  }

  /** Only the SEND of a logged-in user posts anything. */
  lemma NothingPushed(w: World, e: Event, k: nat)
    requires e.Receive? && e.session in w.sessions
    requires !(e.frame.Send? && w.sessions[e.session].user.Some? && w.sessions[e.session].user.value in w.users)
    ensures ToFrames(Pushed(w, e, k)) == []
  {
  }

  lemma ProcessOutput(w: World, e: Event, k: nat)
    requires Inv(w) && Allowed(w, e) && Calm(e, k) && e.Receive?
    requires k in w.sessions && w.sessions[k].user.Some? && e.session in w.sessions
    ensures var v := Process(w, e.session, e.frame, e.report, e.order).0;
            k in v.sessions && e.session in v.sessions &&
            v.sessions[k].out == w.sessions[k].out + ToFrames(Pushed(w, e, k))
  {
    hide Inv, Allowed, EngineConnect, Request, ToFrames, Pushed;
    AuthorizedQueue(w, k);
    var s := w.sessions[e.session];
    if e.frame.Send? && s.user.Some? && s.user.value in w.users {
      SessionSend(w, e, k);
      SessionSend(w, e, e.session);
    } else {
      NothingPushed(w, e, k);
      if e.frame.Connect? {
        OtherConnect(w, e.session, e.frame.login, e.frame.passcode, k);
      } else if s.user.Some? && s.user.value in w.users {
        OtherRequest(w, s.user.value, e.frame, e.report, e.order);
      }
      assert w.sessions[k].out + [] == w.sessions[k].out;
    }
  }

  /** What an authorized session's output buffer receives from one event: what
      is posted to the users attached to it, then the reply to its own frame. */
  lemma SessionOutput(w: World, e: Event, k: nat)
    requires Inv(w) && Allowed(w, e) && Calm(e, k) && k in w.sessions && w.sessions[k].user.Some?
    ensures var v := Step(w, e);
            k in v.sessions && v.sessions[k].out == w.sessions[k].out + ToFrames(Pushed(w, e, k)) + ReplyTo(w, e, k)
  {
    hide Inv, Allowed;
    if e.Receive? && e.session in w.sessions {
      ProcessOutput(w, e, k);
      hide Process;
      var (v, reply) := Process(w, e.session, e.frame, e.report, e.order);
      assert e.session == k ==> reply != Some(Connected) by { if e.session == k { OwnReply(w, e, k); } }
      RespondOutput(v, e.session, reply, k);
    } else {
      assert ToFrames([]) == [];
    }
  }

  lemma OwnReply(w: World, e: Event, k: nat)
    requires e.Receive? && e.session == k && k in w.sessions && !e.frame.Connect?
    ensures Process(w, k, e.frame, e.report, e.order).1 != Some(Connected)
  {
  }

  /** For a live session that is exactly what is posted to its user. */
  lemma LiveOutput(w: World, e: Event, k: nat, u: string)
    requires Inv(w) && Allowed(w, e) && Live(DirectoryOf(w), k, u) && Undisturbed(e, k, u)
    ensures var v := Step(w, e);
            k in w.sessions && k in v.sessions &&
            v.sessions[k].out == w.sessions[k].out + ToFrames(Posted(w, e, u)) + ReplyTo(w, e, k)
  {
    hide Step, Inv, Allowed, Posted, Calls, ReplyTo;
    assert DirectoryOf(w).sessions.Keys == w.sessions.Keys && DirectoryOf(w).sessions[k] == w.sessions[k].user;
    SessionOutput(w, e, k);
    LiveAttached(w, k, u);
    ProjectSame(Calls(w, e), Attached(w, k), iset{u});
    CallsProject(w, e, u);
  }

  lemma RespondOutput(w: World, j: nat, reply: Option<ServerFrame>, k: nat)
    requires j in w.sessions && k in w.sessions && (j == k ==> reply != Some(Connected))
    ensures var v := Respond(w, j, reply);
            k in v.sessions && v.sessions[k].out ==
              w.sessions[k].out + if j == k && reply.Some? then [reply.value] else []
  {
  }

  /** All that a live session's output buffer receives during a run. */
  function Traffic(w: World, es: seq<Event>, k: nat, u: string): seq<ServerFrame>
  {
    if es == [] then [] else
      var v, e := Run(w, es[..|es| - 1]), es[|es| - 1];
      Traffic(w, es[..|es| - 1], k, u) + ToFrames(Posted(v, e, u)) + ReplyTo(v, e, k)
  }

  predicate UndisturbedRun(es: seq<Event>, k: nat, u: string)
  {
    forall e :: e in es ==> Undisturbed(e, k, u)
  }

  lemma {:induction false} LiveRun(w: World, es: seq<Event>, k: nat, u: string)
    requires Inv(w) && AllowedRun(w, es) && Live(DirectoryOf(w), k, u) && UndisturbedRun(es, k, u)
    ensures var v := Run(w, es);
            Live(DirectoryOf(v), k, u) && k in w.sessions && k in v.sessions &&
            v.sessions[k].out == w.sessions[k].out + Traffic(w, es, k, u)
  {
    hide Step, Posted, ReplyTo, DirectoryStep, Inv, Allowed, ToFrames, Undisturbed;
    if es == [] {
      assert DirectoryOf(w).sessions.Keys == w.sessions.Keys;
    } else {
      var before, e := es[..|es| - 1], es[|es| - 1];
      LiveRun(w, before, k, u);
      RunKeeps(w, before);
      LiveOutput(Run(w, before), e, k, u);
      StepDirectory(Run(w, before), e);
      LiveStep(DirectoryOf(Run(w, before)), e, k, u);
    }
  }

  // ------------------------------------------------- telling replies from posts

  /** The client's test: a message on u's own topic under an id other than "0". */
  predicate Confirmation(f: ServerFrame, u: string)
  {
    f.MessageFrame? && f.subscription != SELF_ID && f.destination == TOPICS_LOCATION + u
  }

  /** The messages among fs that are no confirmations. */
  function Posts(fs: seq<ServerFrame>, u: string): seq<ServerFrame>
  {
    if fs == [] then [] else
      var f := fs[|fs| - 1];
      Posts(fs[..|fs| - 1], u) + if f.MessageFrame? && !Confirmation(f, u) then [f] else []
  }

  lemma {:induction false} PostsConcat(a: seq<ServerFrame>, b: seq<ServerFrame>, u: string)
    ensures Posts(a + b, u) == Posts(a, u) + Posts(b, u)
  {
    if b == [] {
      assert a + b == a;
    } else {
      PostsConcat(a, b[..|b| - 1], u);
      assert (a + b)[..|a + b| - 1] == a + b[..|b| - 1];
    }
  }

  lemma PostNotConfirmation(m: Message, u: string)
    requires m.topic == u ==> m.id == SELF_ID
    ensures ToFrame(m).MessageFrame? && !Confirmation(ToFrame(m), u)
  {
    TopicPrefix(m.topic, u);
  }

  lemma {:induction false} PostsOfMessages(ms: seq<Message>, u: string)
    requires forall m :: m in ms && m.topic == u ==> m.id == SELF_ID
    ensures Posts(ToFrames(ms), u) == ToFrames(ms)
    ensures forall f :: f in ToFrames(ms) ==> !Confirmation(f, u)
  {
    hide Confirmation;
    forall m | m in ms ensures ToFrame(m).MessageFrame? && !Confirmation(ToFrame(m), u) {
      PostNotConfirmation(m, u);
    }
    PostsOfAll(ToFrames(ms), u);
  }

  lemma {:induction false} PostsOfAll(fs: seq<ServerFrame>, u: string)
    requires forall f :: f in fs ==> f.MessageFrame? && !Confirmation(f, u)
    ensures Posts(fs, u) == fs
  {
    hide Confirmation;
    if fs != [] {
      PostsOfAll(fs[..|fs| - 1], u);
    }
  }

  lemma TopicPrefix(a: string, b: string)
    ensures TOPICS_LOCATION + a == TOPICS_LOCATION + b <==> a == b
  {
    assert (TOPICS_LOCATION + a)[|TOPICS_LOCATION|..] == a;
    assert (TOPICS_LOCATION + b)[|TOPICS_LOCATION|..] == b;
  }

  lemma {:induction false} MentionCopiesListed(w: World, text: string, names: seq<string>, u: string)
    ensures forall m :: m in MentionCopies(w, text, names, u) ==>
              m.topic in w.topics && u in w.topics[m.topic].subscribers && m.id == w.topics[m.topic].subscribers[u]
  {
    if names != [] {
      MentionCopiesListed(w, text, names[..|names| - 1], u);
    }
  }

  /** What is posted to u from u's own topic carries "0". */
  lemma PostedSelf(w: World, e: Event, u: string)
    requires Inv(w)
    ensures forall m :: m in Posted(w, e, u) && m.topic == u ==> m.id == SELF_ID
  {
    IndexesSelfListed(DirectoryOf(w));
    forall m | m in Posted(w, e, u) && m.topic == u ensures m.id == SELF_ID {
      MentionCopiesListed(w, e.frame.body, FindMentions(e.frame.body), u);
      assert DirectoryOf(w).topics[u].subscribers == w.topics[u].subscribers;
    }
  }

  /** e is a request of u's session that changes u's subscriptions. */
  ghost predicate Changes(w: World, e: Event, u: string)
  {
    u in w.users && u in Step(w, e).users && Step(w, e).users[u].subs != w.users[u].subs
  }

  lemma RequestConfirms(w: World, u: string, f: ClientFrame, report: string, order: map<string, seq<string>>)
    requires u in w.users && UserIndex(DirectoryOf(w), u) && !f.Send?
    ensures var (v, reply) := Request(w, u, f, report, order);
            u in v.users && (v.users[u].subs != w.users[u].subs <==> reply.Some? && Confirmation(reply.value, u)) &&
            (reply.Some? && reply.value.MessageFrame? ==> Confirmation(reply.value, u))
  {
    assert DirectoryOf(w).users[u].subs == w.users[u].subs;
    match f
    case Subscribe(destination, id) =>
      var t := StripTopics(destination);
      if EngineSubscribe(w, u, id, t).Done? {
        assert id in w.users[u].subs[id := t];
      }
    case Unsubscribe(id) =>
      if id in w.users[u].subs && w.users[u].subs[id] != u {
        assert id !in w.users[u].subs - {id};
      }
    case _ =>
  }

  /** What is posted to the holder of session k looks like no confirmation. */
  lemma PushedIgnored(w: World, e: Event, k: nat, u: string)
    requires Inv(w) && Held(DirectoryOf(w), k, u)
    ensures forall f :: f in ToFrames(Pushed(w, e, k)) ==> f.MessageFrame? && !Confirmation(f, u)
  {
    IndexesSelfListed(DirectoryOf(w));
    CallsSelfAddressed(w, e);
    assert forall x :: x in w.users ==> DirectoryOf(w).users[x].session == w.users[x].session;
    ProjectSelf(Calls(w, e), Attached(w, k), u);
    PostsOfMessages(Pushed(w, e, k), u);
  }

  lemma {:induction false} ProjectSelf(ds: seq<Delivery>, us: iset<string>, u: string)
    requires SelfAddressed(ds) && forall x :: x in us ==> x == u
    ensures forall m :: m in Project(ds, us) && m.topic == u ==> m.id == SELF_ID
  {
    if ds != [] {
      assert ds[|ds| - 1] in ds;
      ProjectSelf(ds[..|ds| - 1], us, u);
    }
  }

  /** The confirmation discriminator: what a session that holds u alone is sent are
      posts, which never look like a confirmation, and the reply to its request,
      which looks like one exactly when the request changed u's subscriptions. */
  lemma Discriminator(w: World, e: Event, k: nat, u: string)
    requires Reachable(w) && Allowed(w, e) && Held(DirectoryOf(w), k, u) && Calm(e, k)
    ensures k in w.sessions && k in Step(w, e).sessions
    ensures Step(w, e).sessions[k].out == w.sessions[k].out + ToFrames(Pushed(w, e, k)) + ReplyTo(w, e, k)
    ensures forall f :: f in ToFrames(Pushed(w, e, k)) ==> f.MessageFrame? && !Confirmation(f, u)
    ensures forall f :: f in ReplyTo(w, e, k) ==>
              (Confirmation(f, u) <==> Changes(w, e, u)) && (f.MessageFrame? ==> Confirmation(f, u))
  {
    hide Step, Allowed, Pushed, ReplyTo, Confirmation, Changes, Inv;
    ReachableInv(w);
    PushedIgnored(w, e, k, u);
    ReplyConfirms(w, e, k, u);
    HeldUser(w, k, u);
    SessionOutput(w, e, k);
  }

  lemma HeldUser(w: World, k: nat, u: string)
    requires Held(DirectoryOf(w), k, u)
    ensures k in w.sessions && w.sessions[k].user == Some(u)
  {
    assert DirectoryOf(w).sessions[k] == w.sessions[k].user;
  }

  lemma ReplyConfirms(w: World, e: Event, k: nat, u: string)
    requires Inv(w) && Allowed(w, e) && Held(DirectoryOf(w), k, u) && Calm(e, k)
    ensures forall f :: f in ReplyTo(w, e, k) ==>
              (Confirmation(f, u) <==> Changes(w, e, u)) && (f.MessageFrame? ==> Confirmation(f, u))
  {
    if e.Receive? && e.session == k && k in w.sessions {
      var d := DirectoryOf(w);
      assert d.sessions[k] == w.sessions[k].user && UserIndex(d, u);
      var (v, reply) := Process(w, k, e.frame, e.report, e.order);
      assert Step(w, e).users == v.users;
      if e.frame.Send? {
        SendReply(w, u, e);
      } else if !e.frame.Invalid? {
        RequestConfirms(w, u, e.frame, e.report, e.order);
      }
    }
  }

  lemma SameSubs(w: World, v: World, u: string)
    requires DirectoryOf(v) == DirectoryOf(w) && u in w.users
    ensures u in v.users && v.users[u].subs == w.users[u].subs
  {
    assert DirectoryOf(v).users.Keys == v.users.Keys && DirectoryOf(w).users.Keys == w.users.Keys;
    assert DirectoryOf(v).users[u].subs == v.users[u].subs && DirectoryOf(w).users[u].subs == w.users[u].subs;
  }

  lemma SendReply(w: World, u: string, e: Event)
    requires Inv(w) && Allowed(w, e) && e.Receive? && e.frame.Send? && e.session in w.sessions
    requires w.sessions[e.session].user == Some(u) && u in w.users
    ensures var (v, reply) := Request(w, u, e.frame, e.report, e.order);
            u in v.users && v.users[u].subs == w.users[u].subs && (reply.Some? ==> reply.value.Error?)
  {
    EngineSendKeeps(w, u, StripTopics(e.frame.destination), e.frame.body, e.report, e.order);
    SameSubs(w, Request(w, u, e.frame, e.report, e.order).0, u);
  }

  /** The posts in a live session's traffic are all that was posted to u meanwhile. */
  lemma {:induction false} PostsOfTraffic(w: World, es: seq<Event>, k: nat, u: string)
    requires Inv(w) && AllowedRun(w, es) && Live(DirectoryOf(w), k, u) && UndisturbedRun(es, k, u)
    ensures Posts(Traffic(w, es, k, u), u) == ToFrames(PostedIn(w, es, u))
  {
    hide Step, Posted, ReplyTo, DirectoryStep;
    if es != [] {
      var before, e := es[..|es| - 1], es[|es| - 1];
      PostsOfTraffic(w, before, k, u);
      RunKeeps(w, before);
      LiveRun(w, before, k, u);
      var v := Run(w, before);
      PostsStep(v, e, k, u);
      PostsConcat(Traffic(w, before, k, u) + ToFrames(Posted(v, e, u)), ReplyTo(v, e, k), u);
      PostsConcat(Traffic(w, before, k, u), ToFrames(Posted(v, e, u)), u);
      ToFramesConcat(PostedIn(w, before, u), Posted(v, e, u));
    }
  }

  lemma PostsStep(w: World, e: Event, k: nat, u: string)
    requires Inv(w) && Allowed(w, e) && Live(DirectoryOf(w), k, u) && Undisturbed(e, k, u)
    ensures Posts(ToFrames(Posted(w, e, u)), u) == ToFrames(Posted(w, e, u)) && Posts(ReplyTo(w, e, k), u) == []
  {
    PostedSelf(w, e, u);
    PostsOfMessages(Posted(w, e, u), u);
    ReplyConfirms(w, e, k, u);
    var fs := ReplyTo(w, e, k);
    assert |fs| <= 1;
    if fs != [] {
      assert fs[0] in fs && fs[..|fs| - 1] == [];
    }
  }

  // --------------------------------------------------------------- end to end

  /** Session k has not been connected yet: no user's messages go to it. */
  ghost predicate Fresh(w: World, k: nat)
  {
    k in w.sessions && w.sessions[k].user.None? && w.sessions[k].queue == [] &&
    forall x :: x in w.users ==> w.users[x].session != Some(k)
  }

  /** A known user logs in on a fresh session: the session is handed CONNECTED
      and then the whole backlog, and is live from then on. */
  lemma LoginOutput(w: World, k: nat, u: string, e: Event)
    requires Inv(w) && Allowed(w, e) && Fresh(w, k) && Offline(w, u) && LogsIn(w, e, u) && e.session == k
    ensures var v := Step(w, e);
            Live(DirectoryOf(v), k, u) && k in v.sessions &&
            v.sessions[k].out == w.sessions[k].out + [Connected] + ToFrames(w.users[u].messages)
  {
    StepDirectory(w, e);
    var d := DirectoryOf(w);
    assert forall x :: x in w.users ==> d.users[x].session == w.users[x].session;
    assert d.users[u].password == w.users[u].password;
    LoginHands(w, k, u);
  }

  lemma LoginHands(w: World, k: nat, u: string)
    requires Fresh(w, k) && Offline(w, u)
    ensures var v := ResetTo(Flush(SetSession(w, u, Some(k)), u), u);
            var x := Respond(SetUser(v, k, Some(u)), k, Some(Connected));
            k in x.sessions && x.sessions[k].out == w.sessions[k].out + [Connected] + ToFrames(w.users[u].messages)
  {
    var v := ResetTo(Flush(SetSession(w, u, Some(k)), u), u);
    assert v.sessions[k] == w.sessions[k].(queue := ToFrames(w.users[u].messages)) by {
      assert [] + ToFrames(w.users[u].messages) == ToFrames(w.users[u].messages);
    }
  }

  /** The first login of an unknown user on a fresh session: CONNECTED and nothing else. */
  lemma FirstLoginOutput(w: World, k: nat, u: string, e: Event)
    requires Inv(w) && Allowed(w, e) && Fresh(w, k) && u !in w.users
    requires e.Receive? && e.session == k && e.frame.Connect? && e.frame.login == u
    ensures var v := Step(w, e);
            Live(DirectoryOf(v), k, u) && k in v.sessions && v.sessions[k].out == w.sessions[k].out + [Connected]
  {
    StepDirectory(w, e);
    var d := DirectoryOf(w);
    assert forall x :: x in w.users ==> d.users[x].session == w.users[x].session;
    var x := Respond(SetUser(NewUser(w, k, u, e.frame.passcode), k, Some(u)), k, Some(Connected));
    assert Step(w, e) == x;
    assert x.sessions[k].out == w.sessions[k].out + [Connected];
  }

  /** End-to-end order and conservation. User u is offline in w with some backlog;
      es1 happens; u logs in on a fresh session k; es2 happens undisturbed. Then
      k's output buffer has received CONNECTED first, right after it the backlog
      and everything posted to u during es1, and then, but for replies to k's own
      requests, everything posted to u during es2: in posting order, nothing
      lost, nothing twice. */
  lemma EndToEnd(w: World, es1: seq<Event>, login: Event, es2: seq<Event>, k: nat, u: string)
    requires Reachable(w) && Offline(w, u)
    requires AllowedRun(w, es1) && StaysOut(w, es1, u)
    requires var w1 := Run(w, es1); Allowed(w1, login) && Fresh(w1, k) && LogsIn(w1, login, u) && login.session == k
    requires AllowedRun(Step(Run(w, es1), login), es2) && UndisturbedRun(es2, k, u)
    ensures var w1 := Run(w, es1);
            var w2 := Step(w1, login);
            var w3 := Run(w2, es2);
            k in w3.sessions &&
            w3.sessions[k].out == w1.sessions[k].out + [Connected] +
              ToFrames(w.users[u].messages + PostedIn(w, es1, u)) + Traffic(w2, es2, k, u) &&
            Posts(Traffic(w2, es2, k, u), u) == ToFrames(PostedIn(w2, es2, u))
  {
    hide Step, Traffic, PostedIn, Run;
    ReachableInv(w);
    OfflineRun(w, es1, u);
    RunKeeps(w, es1);
    LoginOutput(Run(w, es1), k, u, login);
    StepKeeps(Run(w, es1), login);
    LiveRun(Step(Run(w, es1), login), es2, k, u);
    PostsOfTraffic(Step(Run(w, es1), login), es2, k, u);
  }

  /** At step boundaries a connected user's queue and an authorized session's
      queue are empty. */
  lemma NothingWaits(w: World, u: string, k: nat)
    requires Reachable(w) && u in w.users && k in w.sessions
    ensures w.users[u].session.Some? ==> w.users[u].messages == []
    ensures w.sessions[k].user.Some? ==> w.sessions[k].queue == []
  {
    ReachableInv(w);
    assert UserQueue(u, w.users[u]);
  }

  ghost predicate NoneAttached(d: Directory, k: nat)
  {
    k in d.sessions && d.sessions[k].None? && forall x :: x in d.users ==> d.users[x].session != Some(k)
  }

  lemma NoneAttachedStep(d: Directory, e: Event, k: nat)
    requires NoneAttached(d, k) && !(e.Receive? && e.session == k && e.frame.Connect?)
    ensures NoneAttached(DirectoryStep(d, e), k)
  {
  }

  lemma FreshDirectory(w: World, k: nat)
    ensures Fresh(w, k) <==> NoneAttached(DirectoryOf(w), k) && w.sessions[k].queue == []
  {
    var d := DirectoryOf(w);
    assert forall x :: x in w.users ==> d.users[x].session == w.users[x].session;
    assert forall x :: x in d.users ==> d.users[x].session == w.users[x].session;
    assert k in w.sessions ==> d.sessions[k] == w.sessions[k].user;
  }

  /** A session stays fresh until it sends CONNECT itself. */
  lemma FreshStep(w: World, e: Event, k: nat)
    requires Inv(w) && Allowed(w, e) && Fresh(w, k) && !(e.Receive? && e.session == k && e.frame.Connect?)
    ensures Fresh(Step(w, e), k)
  {
    hide DirectoryStep, Inv, Allowed;
    StepDirectory(w, e);
    FreshDirectory(w, k);
    NoneAttachedStep(DirectoryOf(w), e, k);
    FreshDirectory(Step(w, e), k);
    FreshQueue(w, e, k);
  }

  lemma FreshQueue(w: World, e: Event, k: nat)
    requires Inv(w) && Allowed(w, e) && Fresh(w, k) && !(e.Receive? && e.session == k && e.frame.Connect?)
    ensures k in Step(w, e).sessions && Step(w, e).sessions[k].queue == []
  {
    hide EngineConnect, Request, Inv, Allowed;
    if e.Receive? && e.session in w.sessions {
      var s := w.sessions[e.session];
      var v := Process(w, e.session, e.frame, e.report, e.order).0;
      assert k in v.sessions && v.sessions[k].queue == [] by {
        if e.frame.Send? && s.user.Some? && s.user.value in w.users {
          FreshSend(w, e, k);
        } else if e.frame.Connect? {
          OtherConnect(w, e.session, e.frame.login, e.frame.passcode, k);
        } else if s.user.Some? && s.user.value in w.users {
          OtherRequest(w, s.user.value, e.frame, e.report, e.order);
        }
      }
      assert k in Respond(v, e.session, Process(w, e.session, e.frame, e.report, e.order).1).sessions;
    }
  }

  lemma FreshSend(w: World, e: Event, k: nat)
    requires Inv(w) && Allowed(w, e) && Fresh(w, k) && e.Receive? && e.frame.Send? && e.session in w.sessions
    requires w.sessions[e.session].user.Some? && w.sessions[e.session].user.value in w.users
    ensures var v := Process(w, e.session, e.frame, e.report, e.order).0;
            k in v.sessions && v.sessions[k].queue == []
  {
    SessionSend(w, e, k);
    ProjectNone(Calls(w, e), Attached(w, k));
    assert ToFrames([]) == [];
  }
}
