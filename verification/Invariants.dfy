/** What every reachable server state satisfies: the two subscription indexes
    agree, sessions and users match up, and nothing waits where it could be sent. */
module Invariants {
  import opened Text
  import opened World
  import opened Mentions

  // ------------------------------------------------------------- predicates

  datatype Account = Account(password: string, session: Option<nat>, subs: map<string, string>)

  datatype Listing = Listing(subscribers: map<string, string>, owner: Option<string>)

  /** Who is subscribed where and who is logged in on which session: the state
      without queues, output and counters. */
  datatype Directory = Directory(users: map<string, Account>, topics: map<string, Listing>,
          sessions: map<nat, Option<string>>)

  function DirectoryOf(w: World): Directory
  {
    Directory(map u | u in w.users :: Account(w.users[u].password, w.users[u].session, w.users[u].subs),
              map t | t in w.topics :: Listing(w.topics[t].subscribers, w.topics[t].owner),
              map k | k in w.sessions :: w.sessions[k].user)
  }

  /** user -> id -> topic: the user's own topic under "0" only, the rest existing topics. */
  ghost predicate UserIndex(d: Directory, u: string)
    requires u in d.users
  {
    var subs := d.users[u].subs;
    u in d.topics && u != SERVER && SELF_ID in subs && subs[SELF_ID] == u &&
    forall id :: id in subs ==> subs[id] in d.topics && (subs[id] == u ==> id == SELF_ID)
  }

  /** topic -> user -> id: whoever is listed holds this topic under that id. */
  ghost predicate TopicIndex(d: Directory, t: string)
    requires t in d.topics
  {
    var subs := d.topics[t].subscribers;
    d.topics[t].owner == (if t in d.users then Some(t) else None) &&
    (t in d.users || t == SERVER) && (t in d.users ==> t in subs) &&
    forall u :: u in subs ==> u in d.users && subs[u] in d.users[u].subs && d.users[u].subs[subs[u]] == t
  }

  ghost predicate Indexes(d: Directory)
  {
    SERVER in d.topics &&
    (forall u {:trigger UserIndex(d, u)} :: u in d.users ==> UserIndex(d, u)) &&
    (forall t {:trigger TopicIndex(d, t)} :: t in d.topics ==> TopicIndex(d, t))
  }

  /** Every session's user is connected, no user is held by two sessions, and
      every connected user points at an existing session. */
  ghost predicate Exclusive(d: Directory)
  {
    (forall k :: k in d.sessions && d.sessions[k].Some? ==>
      d.sessions[k].value in d.users && d.users[d.sessions[k].value].session.Some?) &&
    (forall j, k :: j in d.sessions && k in d.sessions && j != k && d.sessions[j].Some? ==>
      d.sessions[j] != d.sessions[k]) &&
    (forall u :: u in d.users && d.users[u].session.Some? ==> d.users[u].session.value in d.sessions)
  }

  ghost predicate UserQueue(u: string, us: UserState)
  {
    (us.session.Some? ==> us.messages == []) &&
    forall m :: m in us.messages ==> m.topic == u ==> m.id == SELF_ID
  }

  /** A connected user's queue and an authorized session's queue are empty; what
      waits for a user from the user's own topic carries id "0". */
  ghost predicate Queues(w: World)
  {
    (forall u {:trigger w.users[u]} :: u in w.users ==> UserQueue(u, w.users[u])) &&
    (forall k :: k in w.sessions && w.sessions[k].user.Some? ==> w.sessions[k].queue == [])
  }

  /** Connected users point at existing sessions. */
  ghost predicate SessionsExist(d: Directory)
  {
    forall u :: u in d.users && d.users[u].session.Some? ==> d.users[u].session.value in d.sessions
  }

  /** What holds even after a "stop". */
  ghost predicate Sound(w: World) { Indexes(DirectoryOf(w)) && SessionsExist(DirectoryOf(w)) && Queues(w) }

  ghost predicate Inv(w: World) { Sound(w) && Exclusive(DirectoryOf(w)) }

  /** order visits each of keys exactly once. */
  ghost predicate Enumerates(order: seq<string>, keys: set<string>)
  {
    (forall u :: u in order <==> u in keys) &&
    forall i, j :: 0 <= i < j < |order| ==> order[i] != order[j]
  }

  /** The "stop" command, which logs everybody out behind the sessions' backs. */
  predicate Stops(w: World, e: Event)
  {
    e.Receive? && e.frame.Send? && e.session in w.sessions && w.sessions[e.session].user.Some? &&
    StripTopics(e.frame.destination) == SERVER && ServerCommand(e.frame.body) == "stop"
  }

  /** Any event but a login as "server", the maps yielding each key once. */
  ghost predicate Orderly(w: World, e: Event)
  {
    e.Receive? ==>
      (e.frame.Connect? ==> e.frame.login != SERVER) &&
      forall t :: t in w.topics ==> t in e.order && Enumerates(e.order[t], w.topics[t].subscribers.Keys)
  }

  ghost predicate Allowed(w: World, e: Event) { Orderly(w, e) && !Stops(w, e) }

  ghost predicate OrderlyRun(w: World, es: seq<Event>)
  {
    es == [] || (OrderlyRun(w, es[..|es| - 1]) && Orderly(Run(w, es[..|es| - 1]), es[|es| - 1]))
  }

  ghost predicate AllowedRun(w: World, es: seq<Event>)
  {
    es == [] || (AllowedRun(w, es[..|es| - 1]) && Allowed(Run(w, es[..|es| - 1]), es[|es| - 1]))
  }

  /** v, which comes after w, is sound, and as exclusive as w. */
  ghost predicate Kept(w: World, v: World)
  {
    Sound(v) && (Exclusive(DirectoryOf(w)) ==> Exclusive(DirectoryOf(v)))
  }

  // ------------------------------------------------- what posting leaves alone

  lemma HandNothing(s: Session)
    requires s.user.Some? ==> s.queue == []
    ensures Hand(s, ToFrames([])) == s
  {
    assert s.queue + [] == s.queue && s.out + s.queue + [] == s.out + s.queue;
    assert s.out + [] == s.out;
  }

  lemma DeliverKeeps(w: World, u: string, m: Message)
    requires Queues(w) && (m.topic == u ==> m.id == SELF_ID)
    requires u in w.users && w.users[u].session.Some? ==> w.users[u].session.value in w.sessions
    ensures var v := Deliver(w, u, m);
            Queues(v) && DirectoryOf(v) == DirectoryOf(w) && v.topics == w.topics && v.total == w.total
  {
    if u in w.users {
      var v := Deliver(w, u, m);
      assert UserQueue(u, w.users[u]);
      assert v.users.Keys == w.users.Keys && v.sessions.Keys == w.sessions.Keys;
      assert DirectoryOf(v).users == DirectoryOf(w).users;
      assert DirectoryOf(v).sessions == DirectoryOf(w).sessions;
    }
  }

  ghost predicate SelfAddressed(ds: seq<Delivery>)
  {
    forall d :: d in ds && d.1.topic == d.0 ==> d.1.id == SELF_ID
  }

  lemma {:induction false} DeliverAllKeeps(w: World, ds: seq<Delivery>)
    requires Queues(w) && SessionsExist(DirectoryOf(w)) && SelfAddressed(ds)
    ensures var v := DeliverAll(w, ds);
            Queues(v) && DirectoryOf(v) == DirectoryOf(w) && v.topics == w.topics && v.total == w.total
  {
    if ds != [] {
      var w1 := DeliverAll(w, ds[..|ds| - 1]);
      DeliverAllKeeps(w, ds[..|ds| - 1]);
      var d := ds[|ds| - 1];
      assert d in ds;
      if d.0 in w1.users && w1.users[d.0].session.Some? {
        assert DirectoryOf(w1).users[d.0].session == w1.users[d.0].session;
      }
      DeliverKeeps(w1, d.0, d.1);
    }
  }

  lemma {:induction false} DeliverListFacts(subs: map<string, string>, t: string, text: string, order: seq<string>,
          except: set<string>)
    ensures forall d :: d in DeliverList(subs, t, text, order, except) ==>
              d.0 in subs && d.0 in order && d.0 !in except && d.1 == Message(t, subs[d.0], text)
  {
    if order != [] {
      DeliverListFacts(subs, t, text, order[..|order| - 1], except);
    }
  }

  /** A user on the list of the topic of the same name is there under "0". */
  ghost predicate SelfListed(d: Directory)
  {
    forall t :: t in d.topics && t in d.topics[t].subscribers ==> d.topics[t].subscribers[t] == SELF_ID
  }

  lemma IndexesSelfListed(d: Directory)
    requires Indexes(d)
    ensures SelfListed(d)
  {
    forall t | t in d.topics && t in d.topics[t].subscribers ensures d.topics[t].subscribers[t] == SELF_ID {
      assert TopicIndex(d, t) && UserIndex(d, t);
    }
  }

  /** What posting needs of a state, and keeps. */
  ghost predicate Postable(w: World)
  {
    Queues(w) && SessionsExist(DirectoryOf(w)) && SelfListed(DirectoryOf(w))
  }

  /** Changing only counters keeps everything. */
  lemma CountingKeeps(w: World, v: World)
    requires v.users == w.users && v.sessions == w.sessions && v.topics.Keys == w.topics.Keys
    requires forall t :: t in w.topics ==>
               v.topics[t].subscribers == w.topics[t].subscribers && v.topics[t].owner == w.topics[t].owner
    ensures DirectoryOf(v) == DirectoryOf(w) && (Queues(w) ==> Queues(v))
  {
    assert DirectoryOf(v).topics == DirectoryOf(w).topics;
  }

  lemma TopicSendKeeps(w: World, t: string, text: string, order: seq<string>, except: set<string>)
    requires Postable(w)
    ensures var v := TopicSend(w, t, text, order, except);
            Postable(v) && DirectoryOf(v) == DirectoryOf(w) && v.total == w.total
  {
    if t in w.topics {
      var ds := DeliverList(w.topics[t].subscribers, t, text, order, except);
      DeliverListFacts(w.topics[t].subscribers, t, text, order, except);
      assert DirectoryOf(w).topics[t].subscribers == w.topics[t].subscribers;
      DeliverAllKeeps(w, ds);
      CountingKeeps(DeliverAll(w, ds), TopicSend(w, t, text, order, except));
    }
  }

  lemma SendMentionKeeps(w: World, p: string, t: string, text: string, order: seq<string>, except: set<string>)
    requires Postable(w)
    ensures var v := SendMention(w, p, t, text, order, except);
            Postable(v) && DirectoryOf(v) == DirectoryOf(w) && v.total == w.total
  {
    hide Queues, DirectoryOf, TopicSend, SessionsExist, SelfListed;
    var v := CountMention(w, p);
    CountingKeeps(w, v);
    var x := TopicSend(v, t, text, order, except);
    TopicSendKeeps(v, t, text, order, except);
    CountingKeeps(x, CountMentioned(x, t));
  }

  lemma {:induction false} SendMentionsKeeps(w: World, p: string, text: string, names: seq<string>,
        order: map<string, seq<string>>, except: set<string>)
    requires Postable(w)
    ensures var v := SendMentions(w, p, text, names, order, except);
            Postable(v) && DirectoryOf(v) == DirectoryOf(w) && v.total == w.total
  {
    if names != [] {
      var t := names[|names| - 1];
      SendMentionsKeeps(w, p, text, names[..|names| - 1], order, except);
      SendMentionKeeps(SendMentions(w, p, text, names[..|names| - 1], order, except), p, t, text, OrderOf(order, t),
        except);
    }
  }

  lemma TweetKeeps(w: World, p: string, text: string, order: map<string, seq<string>>)
    requires Postable(w)
    ensures var v := Tweet(w, p, text, order);
            Queues(v) && DirectoryOf(v) == DirectoryOf(w) && v.total == w.total + 1
  {
    var except := if p in w.topics then w.topics[p].subscribers.Keys else {};
    var v := TopicSend(w, p, text, OrderOf(order, p), {});
    TopicSendKeeps(w, p, text, OrderOf(order, p), {});
    SendMentionsKeeps(v, p, text, FindMentions(text), order, except);
  }

  lemma EngineSendKeeps(w: World, p: string, dest: string, text: string, report: string,
          order: map<string, seq<string>>)
    requires Sound(w) && !(dest == SERVER && ServerCommand(text) == "stop")
    ensures var r := EngineSend(w, p, dest, text, report, order);
            r.Done? ==> Sound(r.value) && DirectoryOf(r.value) == DirectoryOf(w)
  {
    IndexesSelfListed(DirectoryOf(w));
    TopicSendKeeps(w, SERVER, Answer(text, report), OrderOf(order, SERVER), {});
    TweetKeeps(w, p, text, order);
  }

  // ------------------------------------------------------- the indexes alone

  /** The indexes say nothing about who is connected where. */
  lemma IndexesIgnoreSessions(d: Directory, e: Directory)
    requires Indexes(d) && e.topics == d.topics && e.users.Keys == d.users.Keys
    requires forall u :: u in d.users ==> e.users[u].subs == d.users[u].subs
    ensures Indexes(e)
  {
    forall u | u in e.users ensures UserIndex(e, u) { assert UserIndex(d, u); }
    forall t | t in e.topics ensures TopicIndex(e, t) { assert TopicIndex(d, t); }
  }

  function Joined(d: Directory, u: string, id: string, t: string): Directory
    requires u in d.users && t in d.topics
  {
    d.(users := d.users[u := d.users[u].(subs := d.users[u].subs[id := t])],
       topics := d.topics[t := d.topics[t].(subscribers := d.topics[t].subscribers[u := id])])
  }

  lemma JoinedIndexes(d: Directory, u: string, id: string, t: string)
    requires Indexes(d) && u in d.users && t in d.topics && t != u && id !in d.users[u].subs
    ensures Indexes(Joined(d, u, id, t))
  {
    var e := Joined(d, u, id, t);
    forall x | x in e.users ensures UserIndex(e, x) { assert UserIndex(d, x); }
    forall x | x in e.topics ensures TopicIndex(e, x) { assert TopicIndex(d, x); }
  }

  function Left(d: Directory, u: string, id: string): Directory
    requires u in d.users && id in d.users[u].subs && d.users[u].subs[id] in d.topics
  {
    var t := d.users[u].subs[id];
    d.(users := d.users[u := d.users[u].(subs := d.users[u].subs - {id})],
       topics := d.topics[t := d.topics[t].(subscribers := d.topics[t].subscribers - {u})])
  }

  lemma LeftIndexes(d: Directory, u: string, id: string)
    requires Indexes(d) && u in d.users && id in d.users[u].subs && d.users[u].subs[id] != u
    ensures d.users[u].subs[id] in d.topics && Indexes(Left(d, u, id))
  {
    assert UserIndex(d, u);
    var e := Left(d, u, id);
    forall x | x in e.users ensures UserIndex(e, x) { assert UserIndex(d, x); }
    forall x | x in e.topics ensures TopicIndex(e, x) { assert TopicIndex(d, x); }
  }

  function Cleared(d: Directory, u: string): Directory
    requires u in d.users
  {
    var subs := d.users[u].subs;
    d.(users := d.users[u := d.users[u].(subs := map id | id in subs && id == SELF_ID :: subs[id])],
       topics := map t | t in d.topics ::
         if t == u then d.topics[t] else d.topics[t].(subscribers := d.topics[t].subscribers - {u}))
  }

  lemma ClearedIndexes(d: Directory, u: string)
    requires Indexes(d) && u in d.users
    ensures Indexes(Cleared(d, u))
  {
    var e := Cleared(d, u);
    assert UserIndex(d, u);
    forall x | x in e.users ensures UserIndex(e, x) { assert UserIndex(d, x); }
    forall t | t in e.topics ensures TopicIndex(e, t) { assert TopicIndex(d, t) && UserIndex(d, u); }
  }

  function Registered(d: Directory, u: string, passcode: string, k: nat): Directory
  {
    d.(users := d.users[u := Account(passcode, Some(k), map[SELF_ID := u])],
       topics := d.topics[u := Listing(map[u := SELF_ID], Some(u))])
  }

  lemma RegisteredIndexes(d: Directory, u: string, passcode: string, k: nat)
    requires Indexes(d) && u !in d.users && u != SERVER
    ensures Indexes(Registered(d, u, passcode, k))
  {
    var e := Registered(d, u, passcode, k);
    assert u in d.topics ==> TopicIndex(d, u);
    forall x | x in e.users ensures UserIndex(e, x) { if x != u { assert UserIndex(d, x); } }
    forall t | t in e.topics ensures TopicIndex(e, t) { if t != u { assert TopicIndex(d, t); } }
  }

  // ------------------------------------------------------- login and sessions

  lemma SetSessionDirectory(w: World, u: string, k: Option<nat>)
    requires u in w.users
    ensures var d := DirectoryOf(w);
            DirectoryOf(SetSession(w, u, k)) == d.(users := d.users[u := d.users[u].(session := k)])
  {
  }

  lemma SetSessionKeeps(w: World, u: string, k: nat)
    requires Sound(w) && u in w.users && k in w.sessions
    ensures var v := SetSession(w, u, Some(k));
            Indexes(DirectoryOf(v)) && SessionsExist(DirectoryOf(v)) &&
            (Exclusive(DirectoryOf(w)) ==> Exclusive(DirectoryOf(v))) &&
            (w.users[u].session.Some? ==> Queues(v))
  {
    SetSessionDirectory(w, u, Some(k));
    IndexesIgnoreSessions(DirectoryOf(w), DirectoryOf(SetSession(w, u, Some(k))));
    assert UserQueue(u, w.users[u]);
  }

  lemma FlushKeeps(w: World, u: string)
    requires SessionsExist(DirectoryOf(w))
    requires u in w.users && w.users[u].session.Some?
    requires Queues(w.(users := w.users[u := w.users[u].(messages := [])]))
    ensures DirectoryOf(Flush(w, u)) == DirectoryOf(w) && Queues(Flush(w, u))
  {
    var v := Flush(w, u);
    assert DirectoryOf(w).users[u].session == w.users[u].session;
    assert v.users.Keys == w.users.Keys && v.sessions.Keys == w.sessions.Keys;
    assert DirectoryOf(v).users == DirectoryOf(w).users;
    assert DirectoryOf(v).sessions == DirectoryOf(w).sessions;
  }

  lemma ResetDirectory(w: World, u: string)
    requires u in w.users
    ensures DirectoryOf(ResetTo(w, u)) == Cleared(DirectoryOf(w), u)
  {
    var d, e := Cleared(DirectoryOf(w), u), DirectoryOf(ResetTo(w, u));
    assert e.users == d.users;
    assert e.topics == d.topics;
  }

  lemma ResetKeeps(w: World, u: string)
    requires Sound(w) && u in w.users
    ensures Kept(w, ResetTo(w, u))
  {
    ResetDirectory(w, u);
    ClearedIndexes(DirectoryOf(w), u);
    assert UserQueue(u, w.users[u]);
  }

  /** State after TwitterEngine.connect lets a known user in. */
  lemma LoginKeeps(w: World, k: nat, u: string)
    requires Sound(w) && u in w.users && k in w.sessions
    ensures var v := ResetTo(Flush(SetSession(w, u, Some(k)), u), u);
            Kept(w, v) && u in v.users && v.users[u].session == Some(k) && v.sessions.Keys == w.sessions.Keys &&
            (forall j :: j in w.sessions ==> v.sessions[j].user == w.sessions[j].user)
  {
    var v0 := SetSession(w, u, Some(k));
    SetSessionKeeps(w, u, k);
    assert UserQueue(u, w.users[u]);
    FlushKeeps(v0, u);
    ResetKeeps(Flush(v0, u), u);
  }

  lemma NewUserDirectory(w: World, k: nat, u: string, passcode: string)
    requires u !in w.users
    ensures DirectoryOf(NewUser(w, k, u, passcode)) == Registered(DirectoryOf(w), u, passcode, k)
  {
    var d, e := DirectoryOf(NewUser(w, k, u, passcode)), Registered(DirectoryOf(w), u, passcode, k);
    assert d.users == e.users;
    assert d.topics == e.topics;
  }

  lemma NewUserQueues(w: World, k: nat, u: string, passcode: string)
    requires Queues(w)
    ensures Queues(NewUser(w, k, u, passcode))
  {
  }

  lemma NewUserKeeps(w: World, k: nat, u: string, passcode: string)
    requires Sound(w) && u !in w.users && u != SERVER && k in w.sessions
    ensures Kept(w, NewUser(w, k, u, passcode))
  {
    hide Indexes, Queues;
    NewUserDirectory(w, k, u, passcode);
    RegisteredIndexes(DirectoryOf(w), u, passcode, k);
    NewUserQueues(w, k, u, passcode);
  }

  lemma SetUserDirectory(w: World, k: nat, s: Session)
    ensures var d := DirectoryOf(w);
            DirectoryOf(w.(sessions := w.sessions[k := s])) == d.(sessions := d.sessions[k := s.user])
  {
  }

  ghost predicate NobodyHolds(w: World, u: string)
  {
    forall j :: j in w.sessions ==> w.sessions[j].user != Some(u)
  }

  /** Session k takes a user; exclusively where the user is connected and no
      session holds the user. */
  lemma TakeUserKeeps(w: World, k: nat, u: string)
    requires Sound(w) && k in w.sessions
    ensures var v := Respond(SetUser(w, k, Some(u)), k, Some(Connected));
            Sound(v) &&
            (Exclusive(DirectoryOf(w)) && u in w.users && w.users[u].session.Some? && NobodyHolds(w, u) ==>
               Exclusive(DirectoryOf(v)))
  {
    hide Indexes, Exclusive, Queues, DirectoryOf;
    var v := Respond(SetUser(w, k, Some(u)), k, Some(Connected));
    TakeUserQueues(w, k, u);
    SetUserDirectory(w, k, v.sessions[k]);
    IndexesIgnoreSessions(DirectoryOf(w), DirectoryOf(v));
    if Exclusive(DirectoryOf(w)) && u in w.users && w.users[u].session.Some? && NobodyHolds(w, u) {
      TakeExclusive(w, k, u);
    }
  }

  lemma TakeUserQueues(w: World, k: nat, u: string)
    requires Queues(w) && k in w.sessions
    ensures var v := Respond(SetUser(w, k, Some(u)), k, Some(Connected));
            Queues(v) && k in v.sessions && v.sessions[k].user == Some(u) &&
            v == w.(sessions := w.sessions[k := v.sessions[k]])
  {
    var v := Respond(SetUser(w, k, Some(u)), k, Some(Connected));
    assert v == w.(sessions := w.sessions[k := v.sessions[k]]);
  }

  lemma TakeExclusive(w: World, k: nat, u: string)
    requires Exclusive(DirectoryOf(w)) && u in w.users && w.users[u].session.Some? && NobodyHolds(w, u)
    requires k in w.sessions
    ensures var d := DirectoryOf(w); Exclusive(d.(sessions := d.sessions[k := Some(u)]))
  {
    assert forall j :: j in w.sessions ==> DirectoryOf(w).sessions[j] == w.sessions[j].user;
    assert DirectoryOf(w).users[u].session == w.users[u].session;
  }

  lemma RespondKeeps(w: World, k: nat, reply: Option<ServerFrame>)
    requires Sound(w) && !(reply.Some? && reply.value.Connected?)
    ensures Kept(w, Respond(w, k, reply))
  {
    assert DirectoryOf(Respond(w, k, reply)) == DirectoryOf(w);
  }

  lemma LogoutKeeps(w: World, k: nat)
    requires Sound(w) && k in w.sessions
    ensures Kept(w, Logout(w, k))
  {
    var s, v := w.sessions[k], Logout(w, k);
    var d, e := DirectoryOf(w), DirectoryOf(v);
    assert d.sessions[k] == s.user;
    if s.user.Some? && s.user.value in w.users {
      SetSessionDirectory(w, s.user.value, None);
      SetUserDirectory(SetSession(w, s.user.value, None), k, v.sessions[k]);
      assert UserQueue(s.user.value, w.users[s.user.value]);
    } else {
      SetUserDirectory(w, k, v.sessions[k]);
    }
    IndexesIgnoreSessions(d, e);
  }

  /** Nobody's session holds a user who is not connected. */
  lemma OfflineIsFree(w: World, u: string)
    requires u !in w.users || w.users[u].session.None?
    ensures Exclusive(DirectoryOf(w)) ==> NobodyHolds(w, u)
  {
    var d := DirectoryOf(w);
    assert u in w.users ==> d.users[u].session == w.users[u].session;
    assert forall j :: j in w.sessions ==> d.sessions[j] == w.sessions[j].user;
  }

  lemma StaysFree(w: World, v: World, u: string)
    requires v.sessions.Keys == w.sessions.Keys &&
             forall j :: j in w.sessions ==> v.sessions[j].user == w.sessions[j].user
    ensures NobodyHolds(w, u) ==> NobodyHolds(v, u)
  {
  }

  lemma ConnectKeeps(w: World, e: Event)
    requires Sound(w) && Orderly(w, e) && e.Receive? && e.session in w.sessions && e.frame.Connect?
    ensures Kept(w, Step(w, e))
  {
    hide Indexes, Queues, SessionsExist, Enumerates, ResetTo, Flush, Exclusive, NobodyHolds;
    var k, u := e.session, e.frame.login;
    var (v, r) := EngineConnect(w, k, u, e.frame.passcode);
    if u !in w.users || w.users[u].session.None? { OfflineIsFree(w, u); }
    if u !in w.users {
      NewUserKeeps(w, k, u, e.frame.passcode);
      StaysFree(w, v, u);
      TakeUserKeeps(v, k, u);
    } else if w.users[u].session.Some? {
      SetSessionKeeps(w, u, k);
      RespondKeeps(v, k, Some(r.error));
    } else if r.Done? {
      LoginKeeps(w, k, u);
      StaysFree(w, v, u);
      TakeUserKeeps(v, k, u);
    } else {
      RespondKeeps(v, k, Some(r.error));
    }
  }

  // --------------------------------------------------------- subscription steps

  lemma SubscribeDirectory(w: World, u: string, id: string, name: string)
    requires u in w.users && EngineSubscribe(w, u, id, name).Done?
    ensures DirectoryOf(EngineSubscribe(w, u, id, name).value) == Joined(DirectoryOf(w), u, id, name)
  {
    var d, e := Joined(DirectoryOf(w), u, id, name), DirectoryOf(EngineSubscribe(w, u, id, name).value);
    assert e.users == d.users;
    assert e.topics == d.topics;
  }

  lemma SubscribeKeeps(w: World, u: string, id: string, name: string)
    requires Sound(w) && u in w.users
    ensures var r := EngineSubscribe(w, u, id, name); r.Done? ==> Kept(w, r.value)
  {
    var r := EngineSubscribe(w, u, id, name);
    if r.Done? {
      SubscribeDirectory(w, u, id, name);
      JoinedIndexes(DirectoryOf(w), u, id, name);
      assert UserQueue(u, w.users[u]);
    }
  }

  lemma LeaveDirectory(w: World, u: string, id: string)
    requires Indexes(DirectoryOf(w)) && u in w.users && id in w.users[u].subs && w.users[u].subs[id] != u
    ensures DirectoryOf(w).users[u].subs[id] in DirectoryOf(w).topics && Leave(w, u, id).Done? &&
            DirectoryOf(Leave(w, u, id).value) == Left(DirectoryOf(w), u, id)
  {
    assert UserIndex(DirectoryOf(w), u);
  }

  lemma LeaveKeeps(w: World, u: string, id: string)
    requires Sound(w) && u in w.users
    ensures var r := Leave(w, u, id); r.Done? ==> Kept(w, r.value)
  {
    var r := Leave(w, u, id);
    if r.Done? && id in w.users[u].subs {
      LeaveDirectory(w, u, id);
      LeftIndexes(DirectoryOf(w), u, id);
      assert UserQueue(u, w.users[u]);
    }
  }

  // ------------------------------------------------------------- every run

  /** Every event leaves a sound state sound; every event but a "stop" leaves it as
      exclusive as it was. */
  lemma StepSound(w: World, e: Event)
    requires Sound(w) && Orderly(w, e)
    ensures Sound(Step(w, e))
    ensures !Stops(w, e) ==> Kept(w, Step(w, e))
  {
    hide Indexes, Exclusive, Queues, SessionsExist, Enumerates, EngineConnect, Tweet, TopicSend, LogoutAll, StripTopics;
    match e
    case Open(k) =>
      if k !in w.sessions { OpenKeeps(w, k); }
    case Receive(k, f, report, order) =>
      if k in w.sessions {
        var (v, reply) := Process(w, k, f, report, order);
        if f.Connect? {
          ConnectKeeps(w, e);
        } else {
          if f.Disconnect? {
            LogoutKeeps(w, k);
          } else if w.sessions[k].user.Some? && w.sessions[k].user.value in w.users {
            var u := w.sessions[k].user.value;
            match f {
              case Subscribe(dest, id) => SubscribeKeeps(w, u, id, StripTopics(dest));
              case Unsubscribe(id) => LeaveKeeps(w, u, id);
              case Send(dest, body) =>
                if Stops(w, e) {
                  LogoutAllSound(w);
                } else {
                  EngineSendKeeps(w, u, StripTopics(dest), body, report, order);
                }
              case _ =>
            }
          }
          RespondKeeps(v, k, reply);
        }
      }
  }

  lemma LogoutAllSound(w: World)
    requires Sound(w)
    ensures Sound(LogoutAll(w))
  {
    var d, e := DirectoryOf(w), DirectoryOf(LogoutAll(w));
    assert e.topics == d.topics && e.users.Keys == d.users.Keys;
    IndexesIgnoreSessions(d, e);
    forall u | u in w.users ensures UserQueue(u, LogoutAll(w).users[u]) { assert UserQueue(u, w.users[u]); }
  }

  lemma StepKeeps(w: World, e: Event)
    requires Inv(w) && Allowed(w, e)
    ensures Inv(Step(w, e))
  {
    hide Step, Sound, Orderly, Exclusive;
    StepSound(w, e);
  }

  /** A "stop" is the only event that breaks exclusivity, and it always does: the
      session it comes from still holds a user who is not connected any more. */
  lemma StopAloneBreaks(w: World, e: Event)
    requires Inv(w) && Orderly(w, e)
    ensures Inv(Step(w, e)) <==> !Stops(w, e)
  {
    if Stops(w, e) {
      StopStep(w, e);
      NotExclusive(w, e.session);
    } else {
      StepKeeps(w, e);
    }
  }

  lemma StopStep(w: World, e: Event)
    requires Inv(w) && Stops(w, e)
    ensures w.sessions[e.session].user.value in w.users && Step(w, e) == LogoutAll(w)
  {
    hide Queues, Indexes, Exclusive, StripTopics, EngineConnect, EngineSubscribe, EngineUnsubscribe, Tweet, TopicSend;
    hide LogoutAll, Logout, ServerCommand;
    ServerListed(DirectoryOf(w));
    HeldKnown(DirectoryOf(w), e.session);
    assert DirectoryOf(w).sessions[e.session] == w.sessions[e.session].user;
  }

  lemma ServerListed(d: Directory)
    requires Indexes(d)
    ensures SERVER in d.topics
  {
  }

  lemma HeldKnown(d: Directory, k: nat)
    requires Exclusive(d)
    ensures k in d.sessions && d.sessions[k].Some? ==> d.sessions[k].value in d.users
  {
  }

  lemma NotExclusive(w: World, k: nat)
    requires k in w.sessions && w.sessions[k].user.Some? && w.sessions[k].user.value in w.users
    ensures !Exclusive(DirectoryOf(LogoutAll(w)))
  {
    var v, u := LogoutAll(w), w.sessions[k].user.value;
    assert DirectoryOf(v).sessions[k] == Some(u) && DirectoryOf(v).users[u].session.None?;
  }

  /** An orderly run without a "stop" is one of the runs allowed. */
  lemma {:induction false} OrderlyAllowed(w: World, es: seq<Event>)
    requires OrderlyRun(w, es) && forall i :: 0 <= i < |es| ==> !Stops(Run(w, es[..i]), es[i])
    ensures AllowedRun(w, es)
  {
    hide Orderly, Stops;
    if es != [] {
      var n := |es| - 1;
      forall i | 0 <= i < n ensures !Stops(Run(w, es[..n][..i]), es[..n][i]) {
        assert es[..n][..i] == es[..i];
      }
      OrderlyAllowed(w, es[..n]);
      assert !Stops(Run(w, es[..n]), es[n]);
    }
  }

  lemma OpenKeeps(w: World, k: nat)
    requires Sound(w) && k !in w.sessions
    ensures Kept(w, Step(w, Open(k)))
  {
    SetUserDirectory(w, k, Session(None, false, [], []));
    IndexesIgnoreSessions(DirectoryOf(w), DirectoryOf(Step(w, Open(k))));
  }

  lemma {:induction false} RunKeeps(w: World, es: seq<Event>)
    requires Inv(w) && AllowedRun(w, es)
    ensures Inv(Run(w, es))
  {
    if es != [] {
      RunKeeps(w, es[..|es| - 1]);
      StepKeeps(Run(w, es[..|es| - 1]), es[|es| - 1]);
    }
  }

  lemma {:induction false} RunSound(w: World, es: seq<Event>)
    requires Sound(w) && OrderlyRun(w, es)
    ensures Sound(Run(w, es))
  {
    if es != [] {
      RunSound(w, es[..|es| - 1]);
      StepSound(Run(w, es[..|es| - 1]), es[|es| - 1]);
    }
  }

  lemma InitialInv(w: World)
    requires Initial(w)
    ensures Inv(w)
  {
    assert TopicIndex(DirectoryOf(w), SERVER);
  }

  /** Some run of allowed events leads from the initial state to w. */
  ghost predicate Reachable(w: World)
  {
    exists w0, es :: Initial(w0) && AllowedRun(w0, es) && Run(w0, es) == w
  }

  lemma ReachableInv(w: World)
    requires Reachable(w)
    ensures Inv(w)
  {
    var w0, es :| Initial(w0) && AllowedRun(w0, es) && Run(w0, es) == w;
    InitialInv(w0);
    RunKeeps(w0, es);
  }
}
