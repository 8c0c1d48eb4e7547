/** Client and server over two byte streams: the frames of a run of Agreement.dfy,
    printed, cut and parsed on the way. */
module Bytes {
  import opened Text
  import opened World
  import opened Mentions
  import opened Invariants
  import opened Subscriptions
  import opened Posting
  import opened Order
  import opened Client
  import opened Agreement
  import opened Wire
  import RoundTrip
  import Tokenizers
  import ClientFrames
  import Frames

  // ---------------------------------------------------------- plain contents

  predicate PlainFrame(f: ClientFrame)
  {
    match f
    case Connect(login, _) => Plain(login)
    case Disconnect(receipt) => Plain(receipt)
    case Subscribe(destination, id) => Plain(destination) && Plain(id)
    case Unsubscribe(id) => Plain(id)
    case Send(_, body) => NUL !in body
    case Invalid(message, body) => Plain(message) && NUL !in body
  }

  predicate PlainEvent(e: Event) { e.Receive? ==> PlainFrame(e.frame) && NUL !in e.report }

  /** Names of topics and ids of subscriptions fit in a header line. */
  ghost predicate PlainDirectory(d: Directory)
  {
    (forall t :: t in d.topics ==> Plain(t)) &&
    forall u, id :: u in d.users && id in d.users[u].subs ==> Plain(id)
  }

  lemma PlainStep(d: Directory, e: Event)
    requires PlainDirectory(d) && PlainEvent(e)
    ensures PlainDirectory(DirectoryStep(d, e))
  {
    assert Plain(SELF_ID);
    hide Plain;
  }

  lemma PlainTopic(t: string)
    requires Plain(t)
    ensures Plain(TOPICS_LOCATION + t)
  {
    var s := TOPICS_LOCATION + t;
    assert t != "" ==> s[|s| - 1] == t[|t| - 1] == (":" + t)[|t|];
    assert (":" + s)[|s|] == s[|s| - 1];
  }

  lemma PlainDecimal(n: nat)
    ensures Plain(Decimal(n))
  {
    var s := ":" + Decimal(n);
    assert s[|s| - 1] == Decimal(n)[|Decimal(n)| - 1];
    assert s[|s| - 1] in Decimal(n);
  }

  // ------------------------------------------------------- what a session gets

  lemma {:induction false} MentionCallsText(w: World, text: string, names: seq<string>, order: map<string, seq<string>>,
          except: set<string>)
    ensures forall d :: d in MentionCalls(w, text, names, order, except) ==> d.1.text == text
  {
    if names != [] {
      var t := names[|names| - 1];
      MentionCallsText(w, text, names[..|names| - 1], order, except);
      if t in w.topics { DeliverListFacts(w.topics[t].subscribers, t, text, OrderOf(order, t), except); }
    }
  }

  /** Every message posted carries a topic's name, a subscriber's id there, and the
      posted text. */
  lemma CallsListed(w: World, e: Event)
    ensures forall d :: d in Calls(w, e) ==>
              d.1.topic in w.topics && d.0 in w.topics[d.1.topic].subscribers &&
              d.1.id == w.topics[d.1.topic].subscribers[d.0] &&
              e.Receive? && e.frame.Send? && (d.1.text == e.frame.body || d.1.text == e.report || d.1.text == "")
  {
    if Calls(w, e) != [] {
      var p, dest := w.sessions[e.session].user.value, StripTopics(e.frame.destination);
      var t := if dest == SERVER then SERVER else p;
      var text := if dest == SERVER then Answer(e.frame.body, e.report) else e.frame.body;
      DeliverListFacts(w.topics[t].subscribers, t, text, OrderOf(e.order, t), {});
      if dest != SERVER {
        MentionCallsListed(w, text, FindMentions(text), e.order, w.topics[p].subscribers.Keys);
        MentionCallsText(w, text, FindMentions(text), e.order, w.topics[p].subscribers.Keys);
      }
    }
  }

  lemma {:induction false} ProjectFrom(ds: seq<Delivery>, us: iset<string>)
    ensures forall m :: m in Project(ds, us) ==> exists d :: d in ds && d.1 == m
  {
    if ds != [] {
      var n := |ds| - 1;
      ProjectFrom(ds[..n], us);
      forall m | m in Project(ds, us) ensures exists d :: d in ds && d.1 == m {
        if m in Project(ds[..n], us) {
          var d :| d in ds[..n] && d.1 == m;
          assert d in ds;
        } else {
          assert ds[n] in ds && ds[n].1 == m;
        }
      }
    }
  }

  lemma PostPlain(w: World, e: Event, c: Delivery)
    requires Indexes(DirectoryOf(w)) && PlainDirectory(DirectoryOf(w)) && PlainEvent(e) && c in Calls(w, e)
    ensures PlainReply(ToFrame(c.1))
  {
    hide Plain, Calls;
    CallsListed(w, e);
    PlainTopic(c.1.topic);
    var d := DirectoryOf(w);
    assert d.topics[c.1.topic].subscribers == w.topics[c.1.topic].subscribers && TopicIndex(d, c.1.topic);
  }

  lemma PushedPlain(w: World, e: Event, k: nat)
    requires Inv(w) && PlainDirectory(DirectoryOf(w)) && PlainEvent(e)
    ensures forall f :: f in ToFrames(Pushed(w, e, k)) ==> PlainReply(f)
  {
    hide PlainReply, PlainDirectory, PlainEvent, Calls, Indexes, Exclusive, Queues;
    ProjectFrom(Calls(w, e), Attached(w, k));
    var ms, fs := Pushed(w, e, k), ToFrames(Pushed(w, e, k));
    forall f | f in fs ensures PlainReply(f) {
      var i :| 0 <= i < |fs| && fs[i] == f;
      assert ms[i] in Project(Calls(w, e), Attached(w, k));
      var c :| c in Calls(w, e) && c.1 == ms[i];
      PostPlain(w, e, c);
    }
  }

  predicate NulFree(s: string) { NUL !in s }

  lemma ErrorPlain(message: string, body: string)
    requires Plain(message) && NulFree(body)
    ensures PlainReply(Error(message, body))
  {
  }

  lemma SubscribeTexts()
    ensures Plain("Subscribe") && NulFree("You cannot following on yourself.")
    ensures NulFree("Topic was not found.") && NulFree("Already Following")
  {
  }

  lemma UnsubscribeTexts(id: string)
    requires NUL !in id
    ensures Plain("Unsubscription error") && NulFree("User does not have subscription id #" + id)
  {
    assert NulFree("User does not have subscription id #");
  }

  lemma LeaveTexts()
    ensures Plain("Cannot unsubscribe") && NulFree("You cannot unsubscribe from yourself.")
  {
  }

  lemma NoTopicText()
    ensures Plain("No topic found") && NulFree(NO_TOPIC_TEXT)
  {
  }

  lemma OnBehalfText()
    ensures Plain("Oops.") && NulFree(ON_BEHALF_TEXT)
  {
  }

  lemma SubscribeRefused(w: World, u: string, id: string, name: string)
    requires u in w.users && EngineSubscribe(w, u, id, name).Thrown?
    ensures PlainReply(EngineSubscribe(w, u, id, name).error)
  {
    hide Plain, NulFree, PlainReply;
    SubscribeTexts();
    var e := EngineSubscribe(w, u, id, name).error;
    ErrorPlain(e.message, e.body);
  }

  lemma UnsubscribeRefused(w: World, u: string, id: string)
    requires u in w.users && EngineUnsubscribe(w, u, id).Thrown? && NUL !in id
    ensures PlainReply(EngineUnsubscribe(w, u, id).error)
  {
    hide Plain, NulFree, PlainReply;
    LeaveTexts();
    UnsubscribeTexts(id);
    var e := EngineUnsubscribe(w, u, id).error;
    ErrorPlain(e.message, e.body);
  }

  lemma SendRefused(w: World, u: string, dest: string, body: string, report: string, order: map<string, seq<string>>)
    requires EngineSend(w, u, dest, body, report, order).Thrown?
    ensures PlainReply(EngineSend(w, u, dest, body, report, order).error)
  {
    hide Plain, NulFree, PlainReply, Tweet, ServerMessage;
    NoTopicText();
    OnBehalfText();
    var e := EngineSend(w, u, dest, body, report, order).error;
    ErrorPlain(e.message, e.body);
  }

  lemma Refusals(w: World, u: string, f: ClientFrame, report: string, order: map<string, seq<string>>)
    requires u in w.users && (f.Subscribe? || f.Unsubscribe? || f.Send?) && PlainFrame(f)
    ensures var reply := Request(w, u, f, report, order).1;
            reply.Some? && reply.value.Error? ==> PlainReply(reply.value)
  {
    hide EngineSubscribe, EngineUnsubscribe, EngineSend, StripTopics, PlainReply;
    match f
    case Subscribe(destination, id) =>
      if EngineSubscribe(w, u, id, StripTopics(destination)).Thrown? {
        SubscribeRefused(w, u, id, StripTopics(destination));
      }
    case Unsubscribe(id) =>
      if EngineUnsubscribe(w, u, id).Thrown? { UnsubscribeRefused(w, u, id); }
    case Send(destination, body) =>
      if EngineSend(w, u, StripTopics(destination), body, report, order).Thrown? {
        SendRefused(w, u, StripTopics(destination), body, report, order);
      }
  }

  /** The reply to one of u's requests fits in a frame. */
  lemma ReplyPlain(w: World, e: Event, k: nat, u: string)
    requires Inv(w) && Allowed(w, e) && Held(DirectoryOf(w), k, u) && e.Receive? && e.session == k
    requires (e.frame.Subscribe? || e.frame.Unsubscribe? || e.frame.Send?) && PlainEvent(e) &&
             PlainDirectory(DirectoryOf(w))
    ensures forall f :: f in ReplyTo(w, e, k) ==> PlainReply(f)
  {
    hide Plain, Request, EngineConnect, Logout, Indexes, Exclusive, Queues, Allowed, StripTopics;
    HeldSession(w, k, u);
    Served(w, e, k, u);
    Refusals(w, u, e.frame, e.report, e.order);
    HeldTopic(w, u);
    PlainTopic(u);
    var d, f := DirectoryOf(w), e.frame;
    forall g | g in ReplyTo(w, e, k) ensures PlainReply(g) {
      if g.Error? {
        assert g == Request(w, u, f, e.report, e.order).1.value;
      } else if Accepts(d, u, f) {
        FollowText(f);
      } else {
        UnfollowText(d.users[u].subs[f.id], f);
      }
    }
  }

  lemma FollowText(f: ClientFrame)
    requires f.Subscribe? && PlainFrame(f)
    ensures NUL !in "following " + StripTopics(f.destination) && Plain(f.id)
  {
    assert forall c :: c in StripTopics(f.destination) ==> c in f.destination;
  }

  lemma UnfollowText(n: string, f: ClientFrame)
    requires f.Unsubscribe? && PlainFrame(f) && Plain(n)
    ensures NUL !in "unfollowing " + n && Plain(f.id)
  {
  }

  lemma HeldTopic(w: World, u: string)
    requires Inv(w) && PlainDirectory(DirectoryOf(w)) && u in DirectoryOf(w).users
    ensures Plain(u) && forall id :: id in DirectoryOf(w).users[u].subs ==> Plain(DirectoryOf(w).users[u].subs[id])
  {
    assert UserIndex(DirectoryOf(w), u);
  }

  // ----------------------------------------------------------- the whole system

  /** Names the client has recorded beside its own are single words. */
  ghost predicate WordTable(c: ClientState)
  {
    forall n :: n in c.subs ==> n == c.user || Word(n)
  }

  lemma {:induction false} SpanIsUniform(s: string, sep: bool)
    ensures forall c :: c in s[..Span(s, sep)] ==> Separator(c) == sep
  {
    if s != "" && Separator(s[0]) == sep {
      SpanIsUniform(s[1..], sep);
      assert s[..Span(s, sep)] == [s[0]] + s[1..][..Span(s[1..], sep)];
    }
  }

  lemma SecondWordIsWord(s: string)
    ensures Word(SecondWord(s))
  {
    var a := s[Span(s, false)..];
    SpanIsUniform(a[Span(a, true)..], false);
  }

  lemma VisitWords(c: ClientState, f: ServerFrame)
    requires WordTable(c)
    ensures WordTable(Visit(c, f))
  {
    if f.MessageFrame? { SecondWordIsWord(f.body); }
    hide SecondWord, UserOf;
  }

  lemma {:induction false} VisitAllWords(c: ClientState, fs: seq<ServerFrame>)
    requires WordTable(c)
    ensures WordTable(VisitAll(c, fs))
  {
    hide Visit, WordTable;
    if fs != [] {
      VisitAllWords(c, fs[..|fs| - 1]);
      VisitWords(VisitAll(c, fs[..|fs| - 1]), fs[|fs| - 1]);
    }
  }

  /** r is how some request that the client can print arrives. */
  ghost predicate Arrives(r: ClientFrame)
  {
    exists q :: PlainRequest(q) && Arrived(q) == r
  }

  /** What may be typed at the client: arguments that fit in a header, posts in the
      form in which the server reads them; and elsewhere only plain frames. */
  ghost predicate PlainAction(a: Action)
  {
    match a
    case Follow(arg) => Plain(arg)
    case Post(destination, body) => Arrives(Send(destination, body))
    case Serve(report, _) => NUL !in report
    case Elsewhere(e) => PlainEvent(e)
    case _ => true
  }

  ghost predicate PlainSystem(s: System)
  {
    PlainDirectory(DirectoryOf(s.w)) && WordTable(s.c) && (forall r :: r in s.requests ==> Arrives(r)) &&
    forall f :: f in InFlight(s) ==> PlainReply(f) && Readable(f, s.c.user)
  }

  /** A body that arrives holds no NUL. */
  lemma {:induction false} TabBodyClean(ls: seq<string>)
    requires forall l :: l in ls ==> NUL !in l
    ensures NUL !in Frames.TabBody(ls)
  {
    if ls != [] {
      var l := ls[|ls| - 1];
      TabBodyClean(ls[..|ls| - 1]);
      TrimFacts(Blank, l);
      assert l in ls;
    }
  }

  lemma {:induction false} SplitFrom(s: string, d: char)
    ensures forall part, c :: part in Split(s, d) && c in part ==> c in s
  {
    if s != "" {
      SplitFrom(s[1..], d);
      var rest := Split(s[1..], d);
      forall part, c | part in Split(s, d) && c in part ensures c in s {
        if s[0] != d && part == [s[0]] + rest[0] {
          assert c == s[0] || c in rest[0];
          assert rest[0] in rest;
        } else {
          assert part == "" || part in rest;
        }
      }
    }
  }

  lemma NormClean(b: string)
    requires NUL !in b
    ensures NUL !in RoundTrip.Norm(b)
  {
    var ls := Split(b, '\n');
    SplitFrom(b, '\n');
    var kept := Frames.DropEmptyTail(ls);
    forall l | l in kept ensures NUL !in l { assert l in ls; }
    TabBodyClean(kept);
  }

  lemma ArrivesPlain(r: ClientFrame)
    requires Arrives(r)
    ensures PlainFrame(r)
  {
    var q :| PlainRequest(q) && Arrived(q) == r;
    if q.Send? { NormClean("\n" + q.body); }
  }

  lemma ClientPlain(s: System, a: Action)
    requires Good(s) && PlainSystem(s) && PlainAction(a) && (a.Follow? || a.Unfollow? || a.Post?)
    ensures PlainSystem(Next(s, a))
  {
    hide Good, Plain, PlainRequest, PlainDirectory, WordTable, PlainReply, Readable;
    assert InFlight(Next(s, a)) == InFlight(s);
    match a
    case Follow(arg) => if FollowRequest(s.c, arg).Some? { FollowArrives(s.c, arg); }
    case Unfollow(arg) =>
      if UnfollowRequest(s.c, arg).Some? {
        NowTableOk(s);
        UnfollowArrives(s.c, arg);
      }
    case Post(_, _) =>
  }

  lemma NowTableOk(s: System)
    requires Good(s)
    ensures TableOk(s.c)
  {
    assert TableOk(VisitAll(s.c, InFlight(s)[..0])) && InFlight(s)[..0] == [] && VisitAll(s.c, []) == s.c;
  }

  lemma FollowArrives(c: ClientState, arg: string)
    requires Plain(arg) && FollowRequest(c, arg).Some?
    ensures Arrives(FollowRequest(c, arg).value)
  {
    hide Plain;
    PlainTopic(arg);
    PlainDecimal(c.uid + 1);
    var r := FollowRequest(c, arg).value;
    assert PlainRequest(r) && Arrived(r) == r;
  }

  lemma UnfollowArrives(c: ClientState, arg: string)
    requires TableOk(c) && UnfollowRequest(c, arg).Some?
    ensures Arrives(UnfollowRequest(c, arg).value)
  {
    hide Plain, Mirror;
    var n: nat :| n <= c.uid && c.subs[arg] == Decimal(n);
    PlainDecimal(n);
    var r := UnfollowRequest(c, arg).value;
    assert PlainRequest(r) && Arrived(r) == r;
  }

  lemma ElsewherePlain(s: System, e: Event)
    requires Good(s) && PlainSystem(s) && Allowed(s.w, e) && (e.Receive? ==> e.session != s.k) && PlainEvent(e)
    ensures PlainSystem(Next(s, Elsewhere(e)))
  {
    hide Step, DirectoryStep, Protocol, Held, Inv, Pushed, DirectoryOf, ToFrames, AcceptedOk, TablesOk, Allowed;
    hide Plain, PlainReply, PlainDirectory, PlainEvent, WordTable, Arrives, Confirmation;
    ElsewhereEffect(s, e);
    PlainStep(DirectoryOf(s.w), e);
    PushedPlain(s.w, e, s.k);
    PushedIgnored(s.w, e, s.k, s.c.user);
  }

  lemma ConfirmReadable(u: string, id: string, verb: string, n: string)
    requires (verb == "following " || verb == "unfollowing ") && Word(n) && n != ""
    ensures Readable(Confirm(u, id, verb + n), u)
  {
    assert Confirm(u, id, verb + n).body == verb + n;
  }

  /** The client can read the reply to the request at the front. */
  lemma ReplyReadable(s: System, a: Action)
    requires Good(s) && WordTable(s.c) && a.Serve? && s.requests != [] && Allowed(s.w, ServeEvent(s, a))
    ensures s.requests[0].Subscribe? || s.requests[0].Unsubscribe? || s.requests[0].Send?
    ensures forall f :: f in ReplyTo(s.w, ServeEvent(s, a), s.k) ==> Readable(f, s.c.user)
  {
    hide Inv, Held, AcceptedOk, TablesOk, Allowed, ReplyTo, DirectoryStep, Word, UpTo, StripTopics, Readable;
    var d, u, x, f := DirectoryOf(s.w), s.c.user, Settled(s), s.requests[0];
    HeldSession(s.w, s.k, u);
    var ids := d.users[u].subs;
    assert RequestOk(f, s.c, x.uid, x.subs, ids);
    Served(s.w, ServeEvent(s, a), s.k, u);
    if Accepts(d, u, f) {
      ConfirmReadable(u, f.id, "following ", StripTopics(f.destination));
    } else if f.Unsubscribe? && f.id in ids && ids[f.id] != u {
      VisitAllWords(s.c, InFlight(s));
      assert ids[f.id] in x.subs;
      ConfirmReadable(u, f.id, "unfollowing ", ids[f.id]);
    } else {
      ErrorsReadable(ReplyTo(s.w, ServeEvent(s, a), s.k), u);
    }
  }

  lemma ErrorsReadable(fs: seq<ServerFrame>, u: string)
    requires forall f :: f in fs ==> f.MessageFrame? ==> !Confirmation(f, u)
    ensures forall f :: f in fs ==> Readable(f, u)
  {
  }

  lemma ServePlain(s: System, a: Action)
    requires Good(s) && PlainSystem(s) && a.Serve? && Enabled(s, a) && PlainAction(a)
    ensures PlainSystem(Next(s, a))
  {
    if s.requests != [] {
      hide Step, DirectoryStep, Protocol, Held, Inv, Pushed, ReplyTo, DirectoryOf, ToFrames, AcceptedOk, TablesOk;
      hide Allowed;
      hide Plain, PlainReply, PlainDirectory, WordTable, Arrives, Confirmation, PlainFrame, Readable;
      var e, u := ServeEvent(s, a), s.c.user;
      var pushed := ToFrames(Pushed(s.w, e, s.k));
      assert s.requests[0] in s.requests;
      ArrivesPlain(s.requests[0]);
      ReplyReadable(s, a);
      ServeEffect(s, a);
      PlainStep(DirectoryOf(s.w), e);
      PushedPlain(s.w, e, s.k);
      PushedIgnored(s.w, e, s.k, u);
      ErrorsReadable(pushed, u);
      ReplyPlain(s.w, e, s.k, u);
      ServedPlain(s, Next(s, a), pushed, ReplyTo(s.w, e, s.k));
    }
  }

  lemma ServedPlain(s: System, v: System, pushed: seq<ServerFrame>, reply: seq<ServerFrame>)
    requires PlainSystem(s) && v.c == s.c && PlainDirectory(DirectoryOf(v.w))
    requires (forall r :: r in v.requests ==> r in s.requests) && InFlight(v) == InFlight(s) + pushed + reply
    requires forall f :: f in pushed || f in reply ==> PlainReply(f) && Readable(f, s.c.user)
    ensures PlainSystem(v)
  {
    hide PlainDirectory, PlainReply, Readable, WordTable, Arrives;
  }

  lemma HandlePlain(s: System)
    requires Good(s) && PlainSystem(s)
    ensures PlainSystem(Next(s, Handle))
  {
    if s.read < |OutOf(s)| {
      hide Good, Visit, PlainDirectory, WordTable, Arrives, PlainReply, Readable;
      var f := OutOf(s)[s.read];
      VisitWords(s.c, f);
      VisitKeepsUser(s.c, f);
      assert InFlight(Next(s, Handle)) == InFlight(s)[1..];
    }
  }

  lemma {:induction false} RunPlain(s: System, actions: seq<Action>)
    requires Good(s) && PlainSystem(s) && EnabledRun(s, actions) && forall a :: a in actions ==> PlainAction(a)
    ensures PlainSystem(RunAll(s, actions))
  {
    hide Good, PlainSystem, PlainAction, Next;
    if actions != [] {
      var n := |actions| - 1;
      RunPlain(s, actions[..n]);
      RunAllOk(s, actions[..n]);
      var v, a := RunAll(s, actions[..n]), actions[n];
      assert a in actions;
      NextPlain(v, a);
    }
  }

  lemma NextPlain(s: System, a: Action)
    requires Good(s) && PlainSystem(s) && Enabled(s, a) && PlainAction(a)
    ensures PlainSystem(Next(s, a))
  {
    hide Good, PlainSystem, Next, Allowed, PlainEvent, Arrives;
    match a
    case Serve(_, _) => ServePlain(s, a);
    case Elsewhere(e) => ElsewherePlain(s, e);
    case Handle => HandlePlain(s);
    case _ => ClientPlain(s, a);
  }

  // --------------------------------------------------------------- the theorems

  /** A start with plain names, ids and backlog. */
  ghost predicate PlainStart(s: System)
  {
    Started(s) && PlainDirectory(DirectoryOf(s.w)) && forall f :: f in InFlight(s) ==> PlainReply(f)
  }

  /** Plain frames keep names and ids plain, from the empty engine on. */
  lemma {:induction false} PlainOnceAndAlways(w: World, es: seq<Event>)
    requires Inv(w) && PlainDirectory(DirectoryOf(w)) && AllowedRun(w, es) && forall e :: e in es ==> PlainEvent(e)
    ensures PlainDirectory(DirectoryOf(Run(w, es)))
  {
    hide Inv, Allowed, Step, DirectoryStep, PlainDirectory, PlainEvent;
    if es != [] {
      var n := |es| - 1;
      PlainOnceAndAlways(w, es[..n]);
      RunKeeps(w, es[..n]);
      assert es[n] in es;
      StepDirectory(Run(w, es[..n]), es[n]);
      PlainStep(DirectoryOf(Run(w, es[..n])), es[n]);
    }
  }

  lemma PlainInitially(w: World)
    requires Initial(w)
    ensures PlainDirectory(DirectoryOf(w))
  {
    assert Plain(SERVER);
  }

  /** A client that registers starts plain if its name is. */
  lemma RegistrationStarts(w: World, k: nat, u: string, e: Event, c: ClientState)
    requires Reachable(w) && Allowed(w, e) && Fresh(w, k) && Enters(w, e, u) && e.session == k && u !in w.users
    requires c.user == u && c.subs.Keys == {} && c.uid == 0 && PlainDirectory(DirectoryOf(w)) && PlainEvent(e)
    ensures PlainStart(System(Step(w, e), k, Visit(c, Connected), [], |w.sessions[k].out| + 1, []))
  {
    hide Step, DirectoryStep, Inv, Allowed, Started, PlainDirectory, PlainEvent, PlainReply;
    LoginStarts(w, k, u, e, c);
    ReachableInv(w);
    StepDirectory(w, e);
    PlainStep(DirectoryOf(w), e);
    FirstLoginOutput(w, k, u, e);
    var v, read := Step(w, e), |w.sessions[k].out| + 1;
    assert v.sessions[k].out[read..] == [];
  }

  ghost predicate PlainRun(s: System, actions: seq<Action>)
  {
    EnabledRun(s, actions) && forall a :: a in actions ==> PlainAction(a)
  }

  lemma PlainReached(s: System, actions: seq<Action>)
    requires PlainStart(s) && PlainRun(s, actions)
    ensures PlainSystem(RunAll(s, actions)) && RunAll(s, actions).c.user == s.c.user
  {
    hide Inv, Held, PlainDirectory, PlainReply, Confirmation, EnabledRun, Good, PlainAction;
    StartedGood(s);
    assert WordTable(s.c);
    ErrorsReadable(InFlight(s), s.c.user);
    RunPlain(s, actions);
    RunAllOk(s, actions);
  }

  /** What is needed besides the frames to print them: stamps, ids and an order of
      the headers. */
  ghost predicate Stamped(os: seq<Outgoing>)
  {
    forall o :: o in os ==>
      Plain(o.stamp) && Plain(o.unique) && Frames.HeaderOrder(o.keys, ReplyFrame(o.frame, o.stamp, o.unique).headers)
  }

  /** Agreement over bytes: at every step of every run, the client that reads the
      bytes of the frames in flight, from either server, ends up with the inverse
      of the server's map. */
  lemma AgreementOverBytes(s: System, actions: seq<Action>, os: seq<Outgoing>, trailer: char)
    requires PlainStart(s) && PlainRun(s, actions)
    requires FramesOf(os) == InFlight(RunAll(s, actions)) && Stamped(os) && trailer in [NUL, '\n']
    ensures var v := RunAll(s, actions);
            var bytes := ClientFrames.ServerStream(TextsOf(os), trailer);
            s.c.user in v.w.users &&
            Mirror(Listen(v.c, ClientFrames.Answers(Tokenizers.Complete(bytes))).subs, v.w.users[s.c.user].subs)
  {
    hide Started, EnabledRun, PlainReply, Plain, Readable, PlainDirectory, WordTable, Arrives, Mirror, Listen;
    hide PlainAction;
    PlainReached(s, actions);
    ClientServerAgreement(s, actions);
    var v := RunAll(s, actions);
    forall o | o in os ensures OutgoingOk(o, v.c.user) {
      var i :| 0 <= i < |os| && os[i] == o;
      assert FramesOf(os)[i] == o.frame && o.frame in InFlight(v);
    }
    ReplyStream(v.c, os, trailer);
  }

  /** The other way: the requests still to be served are what either server reads
      from the bytes of the requests the client has printed. */
  lemma RequestsOverBytes(s: System, actions: seq<Action>, host: string) returns (printed: seq<ClientFrame>)
    requires PlainStart(s) && PlainRun(s, actions) && Plain(host)
    ensures var requests := RunAll(s, actions).requests;
            |printed| == |requests| &&
            forall i :: 0 <= i < |printed| ==> PlainRequest(printed[i]) && Arrived(printed[i]) == requests[i]
    ensures forall keys :: Sendable(printed, host, keys) ==>
              var bytes := Tokenizers.ClientStream(RequestLines(printed, host, keys));
              ToRequests(Tokenizers.LineFrames(bytes)) == RunAll(s, actions).requests ==
                ToRequests(Tokenizers.ParseAll(Tokenizers.Complete(bytes)))
  {
    hide Started, EnabledRun, PlainRequest, Plain, PlainDirectory, WordTable, PlainReply, Readable, PlainAction;
    PlainReached(s, actions);
    var requests := RunAll(s, actions).requests;
    printed := PrintedRequests(requests);
    forall keys | Sendable(printed, host, keys)
      ensures var bytes := Tokenizers.ClientStream(RequestLines(printed, host, keys));
              ToRequests(Tokenizers.LineFrames(bytes)) == requests ==
                ToRequests(Tokenizers.ParseAll(Tokenizers.Complete(bytes)))
    {
      RequestStream(printed, host, keys);
    }
  }

  /** Requests to print for these to arrive. */
  lemma {:induction false} PrintedRequests(requests: seq<ClientFrame>) returns (printed: seq<ClientFrame>)
    requires forall r :: r in requests ==> Arrives(r)
    ensures |printed| == |requests|
    ensures forall i :: 0 <= i < |printed| ==> PlainRequest(printed[i]) && Arrived(printed[i]) == requests[i]
  {
    hide PlainRequest;
    printed := [];
    if requests != [] {
      var n := |requests| - 1;
      var before := PrintedRequests(requests[..n]);
      assert requests[n] in requests;
      var q :| PlainRequest(q) && Arrived(q) == requests[n];
      printed := before + [q];
    }
  }
}
