/** What the server promises about logins and subscriptions on every run. */
module Subscriptions {
  import opened Text
  import opened World
  import opened Invariants

  // ------------------------------------- the directory evolves on its own

  /** One event seen by the directory alone: no queue, text or order matters. */
  function DirectoryStep(d: Directory, e: Event): Directory
  {
    match e
    case Open(k) => if k in d.sessions then d else d.(sessions := d.sessions[k := None])
    case Receive(k, f, _, _) =>
      if k !in d.sessions then d else
        match f
        case Connect(u, passcode) =>
          if u !in d.users then Taken(Registered(d, u, passcode, k), k, u)
          else if d.users[u].session.Some? then At(d, u, Some(k))
          else if passcode == d.users[u].password then Taken(Cleared(At(d, u, Some(k)), u), k, u)
          else d
        case Disconnect(_) =>
          var v := if d.sessions[k].Some? && d.sessions[k].value in d.users then At(d, d.sessions[k].value, None)
          else d;
          v.(sessions := v.sessions[k := None])
        case _ =>
          if d.sessions[k].Some? && d.sessions[k].value in d.users then RequestStep(d, d.sessions[k].value, f) else d
  }

  function RequestStep(d: Directory, u: string, f: ClientFrame): Directory
    requires u in d.users
  {
    var subs := d.users[u].subs;
    match f
    case Subscribe(dest, id) =>
      var t := StripTopics(dest);
      if t != u && t in d.topics && id !in subs then Joined(d, u, id, t) else d
    case Unsubscribe(id) =>
      if id in subs && subs[id] != u && subs[id] in d.topics then Left(d, u, id) else d
    case _ => d
  }

  function At(d: Directory, u: string, k: Option<nat>): Directory
    requires u in d.users
  {
    d.(users := d.users[u := d.users[u].(session := k)])
  }

  function Taken(d: Directory, k: nat, u: string): Directory
  {
    d.(sessions := d.sessions[k := Some(u)])
  }

  lemma LoginDirectory(w: World, k: nat, u: string)
    requires Sound(w) && u in w.users && w.users[u].session.None? && k in w.sessions
    ensures u in DirectoryOf(w).users
    ensures DirectoryOf(ResetTo(Flush(SetSession(w, u, Some(k)), u), u)) == Cleared(At(DirectoryOf(w), u, Some(k)), u)
  {
    var v0 := SetSession(w, u, Some(k));
    SetSessionDirectory(w, u, Some(k));
    SetSessionKeeps(w, u, k);
    assert UserQueue(u, w.users[u]);
    FlushKeeps(v0, u);
    ResetDirectory(Flush(v0, u), u);
  }

  lemma ConnectDirectory(w: World, e: Event)
    requires Inv(w) && Allowed(w, e) && e.Receive? && e.session in w.sessions && e.frame.Connect?
    ensures DirectoryOf(Step(w, e)) == DirectoryStep(DirectoryOf(w), e)
  {
    var k, u := e.session, e.frame.login;
    var d := DirectoryOf(w);
    var (v, r) := EngineConnect(w, k, u, e.frame.passcode);
    assert u in w.users ==> d.users[u].session == w.users[u].session && d.users[u].password == w.users[u].password;
    if u !in w.users {
      NewUserDirectory(w, k, u, e.frame.passcode);
    } else if w.users[u].session.Some? {
      SetSessionDirectory(w, u, Some(k));
    } else if r.Done? {
      LoginDirectory(w, k, u);
    }
    AfterConnect(v, k, u, r);
  }

  /** Handing over the reply touches the directory only where the session takes the user. */
  lemma AfterConnect(v: World, k: nat, u: string, r: Reply<string>)
    requires k in v.sessions && (r.Done? ==> r.value == u) && (r.Thrown? ==> r.error.Error?)
    ensures r.Done? ==> DirectoryOf(Respond(SetUser(v, k, Some(u)), k, Some(Connected))) == Taken(DirectoryOf(v), k, u)
    ensures r.Thrown? ==> DirectoryOf(Respond(v, k, Some(r.error))) == DirectoryOf(v)
  {
    if r.Done? {
      var x := Respond(SetUser(v, k, Some(u)), k, Some(Connected));
      assert x == v.(sessions := v.sessions[k := x.sessions[k]]);
    } else {
      assert DirectoryOf(Respond(v, k, Some(r.error))).sessions == DirectoryOf(v).sessions;
    }
  }

  lemma RespondDirectory(w: World, k: nat, reply: Option<ServerFrame>)
    requires !(reply.Some? && reply.value.Connected?)
    ensures DirectoryOf(Respond(w, k, reply)) == DirectoryOf(w)
  {
    assert DirectoryOf(Respond(w, k, reply)).sessions == DirectoryOf(w).sessions;
  }

  lemma LogoutDirectory(w: World, k: nat)
    requires Inv(w) && k in w.sessions
    ensures var d := DirectoryOf(w);
            var v := if d.sessions[k].Some? && d.sessions[k].value in d.users then At(d, d.sessions[k].value, None)
            else d;
            DirectoryOf(Logout(w, k)) == v.(sessions := v.sessions[k := None])
  {
    var s := w.sessions[k];
    assert DirectoryOf(w).sessions[k] == s.user;
    if s.user.Some? {
      SetSessionDirectory(w, s.user.value, None);
      SetUserDirectory(SetSession(w, s.user.value, None), k, Logout(w, k).sessions[k]);
    } else {
      SetUserDirectory(w, k, Logout(w, k).sessions[k]);
    }
  }

  /** The server's step, projected to the directory, is DirectoryStep. */
  lemma StepDirectory(w: World, e: Event)
    requires Inv(w) && Allowed(w, e)
    ensures DirectoryOf(Step(w, e)) == DirectoryStep(DirectoryOf(w), e)
  {
    match e
    case Open(k) =>
      if k !in w.sessions { SetUserDirectory(w, k, Session(None, false, [], [])); }
    case Receive(k, f, report, order) =>
      if k in w.sessions {
        var (v, reply) := Process(w, k, f, report, order);
        var d := DirectoryOf(w);
        assert d.sessions[k] == w.sessions[k].user;
        if f.Connect? {
          ConnectDirectory(w, e);
        } else {
          RespondDirectory(v, k, reply);
          if f.Disconnect? {
            LogoutDirectory(w, k);
          } else if w.sessions[k].user.Some? && w.sessions[k].user.value in w.users {
            RequestDirectory(w, w.sessions[k].user.value, e);
          }
        }
      }
  }

  lemma RequestDirectory(w: World, u: string, e: Event)
    requires Inv(w) && Allowed(w, e) && e.Receive? && e.session in w.sessions
    requires w.sessions[e.session].user == Some(u) && u in w.users
    ensures DirectoryOf(Request(w, u, e.frame, e.report, e.order).0) == RequestStep(DirectoryOf(w), u, e.frame)
  {
    var d := DirectoryOf(w);
    assert d.users[u].subs == w.users[u].subs && UserIndex(d, u);
    match e.frame
    case Subscribe(dest, id) =>
      if EngineSubscribe(w, u, id, StripTopics(dest)).Done? { SubscribeDirectory(w, u, id, StripTopics(dest)); }
    case Unsubscribe(id) =>
      if id in w.users[u].subs && w.users[u].subs[id] != u { LeaveDirectory(w, u, id); }
    case Send(dest, body) => EngineSendKeeps(w, u, StripTopics(dest), body, e.report, e.order);
    case _ =>
  }

  // ------------------------------------------------------- session exclusivity

  /** Over any interleaving of frames from any sessions, no two sessions hold
      the same user and every session's user is connected. */
  lemma SessionExclusivity(w: World, j: nat)
    requires Reachable(w) && j in w.sessions && w.sessions[j].user.Some?
    ensures w.sessions[j].user.value in w.users && w.users[w.sessions[j].user.value].session.Some?
    ensures forall k :: k in w.sessions && k != j ==> w.sessions[k].user != w.sessions[j].user
  {
    ReachableInv(w);
    var d := DirectoryOf(w);
    assert forall k :: k in w.sessions ==> d.sessions[k] == w.sessions[k].user;
    assert d.users[w.sessions[j].user.value].session == w.users[w.sessions[j].user.value].session;
  }

  // --------------------------------------------------------- index agreement

  /** On every run: a topic that lists u under id is what u holds under id. */
  lemma IndexAgreement(w: World, t: string, u: string)
    requires Reachable(w) && t in w.topics && u in w.topics[t].subscribers
    ensures u in w.users && w.topics[t].subscribers[u] in w.users[u].subs &&
            w.users[u].subs[w.topics[t].subscribers[u]] == t
  {
    ReachableInv(w);
    var d := DirectoryOf(w);
    assert TopicIndex(d, t) && d.topics[t].subscribers == w.topics[t].subscribers;
    assert d.users[u].subs == w.users[u].subs;
  }

  /** On every run the self-subscription under "0" stands, in both indexes. */
  lemma SelfSubscription(w: World, u: string)
    requires Reachable(w) && u in w.users
    ensures SELF_ID in w.users[u].subs && w.users[u].subs[SELF_ID] == u
    ensures u in w.topics && u in w.topics[u].subscribers && w.topics[u].subscribers[u] == SELF_ID
  {
    ReachableInv(w);
    var d := DirectoryOf(w);
    assert UserIndex(d, u) && TopicIndex(d, u);
    assert d.topics[u].subscribers == w.topics[u].subscribers && d.users[u].subs == w.users[u].subs;
  }

  /** Every subscription a user holds is listed by its topic under that very id. */
  ghost predicate Exact(d: Directory)
  {
    forall u, id :: u in d.users && id in d.users[u].subs ==> Listed(d, u, id)
  }

  ghost predicate Listed(d: Directory, u: string, id: string)
    requires u in d.users && id in d.users[u].subs
  {
    var t := d.users[u].subs[id];
    t in d.topics && u in d.topics[t].subscribers && d.topics[t].subscribers[u] == id
  }

  /** An accepted subscription to a topic the user already holds. */
  predicate Doubles(d: Directory, e: Event)
  {
    e.Receive? && e.session in d.sessions && e.frame.Subscribe? &&
    d.sessions[e.session].Some? && d.sessions[e.session].value in d.users &&
    var u, t := d.sessions[e.session].value, StripTopics(e.frame.destination);
    t != u && t in d.topics && e.frame.id !in d.users[u].subs && t in d.users[u].subs.Values
  }

  lemma JoinedExact(d: Directory, u: string, id: string, t: string)
    requires Exact(d) && u in d.users && t in d.topics && id !in d.users[u].subs
    ensures Exact(Joined(d, u, id, t)) <==> t !in d.users[u].subs.Values
  {
    var e := Joined(d, u, id, t);
    if t in d.users[u].subs.Values {
      var old_id :| old_id in d.users[u].subs && d.users[u].subs[old_id] == t;
      assert !Listed(e, u, old_id);
    } else {
      forall x, i | x in e.users && i in e.users[x].subs ensures Listed(e, x, i) {
        assert (x, i) != (u, id) ==> Listed(d, x, i);
      }
    }
  }

  lemma LeftExact(d: Directory, u: string, id: string)
    requires Exact(d) && u in d.users && id in d.users[u].subs && d.users[u].subs[id] in d.topics
    ensures Exact(Left(d, u, id))
  {
    var e := Left(d, u, id);
    forall x, i | x in e.users && i in e.users[x].subs ensures Listed(e, x, i) {
      assert Listed(d, x, i) && Listed(d, u, id);
    }
  }

  lemma ClearedExact(d: Directory, u: string)
    requires Indexes(d) && Exact(d) && u in d.users
    ensures Exact(Cleared(d, u))
  {
    var e := Cleared(d, u);
    assert UserIndex(d, u);
    forall x, i | x in e.users && i in e.users[x].subs ensures Listed(e, x, i) {
      assert Listed(d, x, i);
    }
  }

  lemma ExactIgnoresSessions(d: Directory, e: Directory)
    requires e.topics == d.topics && e.users.Keys == d.users.Keys
    requires forall u :: u in d.users ==> e.users[u].subs == d.users[u].subs
    ensures Exact(d) <==> Exact(e)
  {
    assert forall u, id :: u in d.users && id in d.users[u].subs ==> (Listed(d, u, id) <==> Listed(e, u, id));
  }

  /** From a state whose indexes are exact inverses, a step leaves them so if
      and only if it is not an accepted second subscription to a held topic. */
  lemma ExactStep(w: World, e: Event)
    requires Inv(w) && Allowed(w, e) && Exact(DirectoryOf(w))
    ensures Exact(DirectoryOf(Step(w, e))) <==> !Doubles(DirectoryOf(w), e)
  {
    StepDirectory(w, e);
    ExactDirectoryStep(DirectoryOf(w), e);
  }

  lemma ExactDirectoryStep(d: Directory, e: Event)
    requires Indexes(d) && Exact(d) && (e.Receive? && e.frame.Connect? ==> e.frame.login != SERVER)
    ensures Exact(DirectoryStep(d, e)) <==> !Doubles(d, e)
  {
    var x := DirectoryStep(d, e);
    if e.Receive? && e.session in d.sessions {
      var k := e.session;
      match e.frame
      case Connect(u, passcode) =>
        if u !in d.users {
          assert u in d.topics ==> TopicIndex(d, u);
          forall y, i | y in x.users && i in x.users[y].subs ensures Listed(x, y, i) {
            assert y != u ==> Listed(d, y, i);
          }
        } else if d.users[u].session.None? && passcode == d.users[u].password {
          var d1 := At(d, u, Some(k));
          IndexesIgnoreSessions(d, d1);
          ExactIgnoresSessions(d, d1);
          ClearedExact(d1, u);
          ExactIgnoresSessions(Cleared(d1, u), x);
        } else {
          ExactIgnoresSessions(d, x);
        }
      case Subscribe(dest, id) =>
        if d.sessions[k].Some? && d.sessions[k].value in d.users {
          var u, t := d.sessions[k].value, StripTopics(dest);
          if t != u && t in d.topics && id !in d.users[u].subs {
            JoinedExact(d, u, id, t);
          }
        }
      case Unsubscribe(id) =>
        if d.sessions[k].Some? && d.sessions[k].value in d.users {
          var u := d.sessions[k].value;
          if id in d.users[u].subs && d.users[u].subs[id] in d.topics {
            LeftExact(d, u, id);
          }
        }
      case _ => ExactIgnoresSessions(d, x);
    } else {
      ExactIgnoresSessions(d, x);
    }
  }

  ghost predicate NeverDoubles(w: World, es: seq<Event>)
  {
    es == [] || (NeverDoubles(w, es[..|es| - 1]) && !Doubles(DirectoryOf(Run(w, es[..|es| - 1])), es[|es| - 1]))
  }

  /** In runs where nobody subscribes to a topic already held, the two indexes
      are exact inverses throughout. */
  lemma {:induction false} ExactRun(w0: World, es: seq<Event>)
    requires Inv(w0) && Exact(DirectoryOf(w0)) && AllowedRun(w0, es) && NeverDoubles(w0, es)
    ensures Exact(DirectoryOf(Run(w0, es)))
  {
    if es != [] {
      ExactRun(w0, es[..|es| - 1]);
      RunKeeps(w0, es[..|es| - 1]);
      ExactStep(Run(w0, es[..|es| - 1]), es[|es| - 1]);
    }
  }

  lemma InitialExact(w: World)
    requires Initial(w)
    ensures Inv(w) && Exact(DirectoryOf(w))
  {
    InitialInv(w);
  }

  /** The stronger claim fails: bob may hold alice's topic under two ids, and
      giving one up then leaves the other without deliveries. */
  lemma TwoIdsForOneTopic(d: Directory)
    requires Indexes(d) && "alice" in d.users && "bob" in d.users && d.users["bob"].subs == map[SELF_ID := "bob"]
    ensures "alice" in d.topics
    ensures var e := Joined(Joined(d, "bob", "1", "alice"), "bob", "2", "alice");
            "1" in e.users["bob"].subs && e.users["bob"].subs["1"] == "alice" == e.users["bob"].subs["2"] &&
            var f := Left(e, "bob", "1");
            Indexes(f) && f.users["bob"].subs["2"] == "alice" && "bob" !in f.topics["alice"].subscribers
  {
    assert UserIndex(d, "alice");
    JoinedIndexes(d, "bob", "1", "alice");
    var d1 := Joined(d, "bob", "1", "alice");
    JoinedIndexes(d1, "bob", "2", "alice");
    LeftIndexes(Joined(d1, "bob", "2", "alice"), "bob", "1");
  }

  // ------------------------------------------------------------- login reset

  /** v is w after u gave up some subscriptions other than "0". */
  ghost predicate Reduced(w: World, v: World, u: string)
  {
    u in w.users && v.users.Keys == w.users.Keys && v.topics.Keys == w.topics.Keys && v.sessions == w.sessions &&
    v.total == w.total &&
    (forall x {:trigger v.users[x]} :: x in w.users && x != u ==> v.users[x] == w.users[x]) &&
    v.users[u] == w.users[u].(subs := v.users[u].subs) && v.users[u].subs.Keys <= w.users[u].subs.Keys &&
    (forall id :: id in v.users[u].subs ==> v.users[u].subs[id] == w.users[u].subs[id]) &&
    (forall t {:trigger v.topics[t]} :: t in w.topics ==>
      v.topics[t] == w.topics[t] ||
      (t != u && v.topics[t] == w.topics[t].(subscribers := w.topics[t].subscribers - {u})))
  }

  lemma LeaveReduces(w: World, v: World, u: string, id: string)
    requires Reduced(w, v, u) && Leave(v, u, id).Done?
    ensures var x := Leave(v, u, id).value;
            Reduced(w, x, u) && x.users[u].subs == v.users[u].subs - {id}
  {
    var x := Leave(v, u, id).value;
    assert id !in v.users[u].subs ==> v.users[u].subs - {id} == v.users[u].subs;
    forall t | t in w.topics
      ensures x.topics[t] == w.topics[t] ||
              (t != u && x.topics[t] == w.topics[t].(subscribers := w.topics[t].subscribers - {u}))
    {
      assert w.topics[t].subscribers - {u} - {u} == w.topics[t].subscribers - {u};
    }
  }

  lemma ResetOne(v: World, u: string, id: string)
    requires Sound(v) && u in v.users && id != SELF_ID
    ensures Leave(v, u, id).Done? && Sound(Leave(v, u, id).value)
  {
    assert UserIndex(DirectoryOf(v), u) && DirectoryOf(v).users[u].subs == v.users[u].subs;
    LeaveKeeps(v, u, id);
  }

  lemma {:induction false} ResetProgress(w: World, u: string, ids: seq<string>)
    requires Sound(w) && u in w.users
    ensures Reset(w, u, ids).Done? && Sound(Reset(w, u, ids).value) && Reduced(w, Reset(w, u, ids).value, u)
  {
    if ids != [] {
      ResetProgress(w, u, ids[..|ids| - 1]);
      var v, id := Reset(w, u, ids[..|ids| - 1]).value, ids[|ids| - 1];
      if id != SELF_ID {
        ResetOne(v, u, id);
        LeaveReduces(w, v, u, id);
      }
    }
  }

  lemma {:induction false} ResetSubs(w: World, u: string, ids: seq<string>)
    requires u in w.users && Reset(w, u, ids).Done?
    ensures u in Reset(w, u, ids).value.users
    ensures var subs := Reset(w, u, ids).value.users[u].subs;
            forall id :: id in subs <==> id in w.users[u].subs && (id == SELF_ID || id !in ids)
  {
    if ids != [] {
      ResetSubs(w, u, ids[..|ids| - 1]);
      assert ids == ids[..|ids| - 1] + [ids[|ids| - 1]];
    }
  }

  /** In a reachable state the reset loop never throws, whatever order the map
      is iterated in, and comes to ResetTo. */
  lemma LoginReset(w: World, u: string, ids: seq<string>)
    requires Sound(w) && u in w.users && forall id :: id in w.users[u].subs ==> id in ids
    ensures Reset(w, u, ids) == Done(ResetTo(w, u))
  {
    ResetProgress(w, u, ids);
    ResetSubs(w, u, ids);
    OwnSubscription(w, u);
    hide Sound, Reset, ResetTo, Reduced;
    var v := Reset(w, u, ids).value;
    OwnSubscription(v, u);
    assert v.users[u].subs.Keys == {SELF_ID};
    forall t | t in v.topics && t != u ensures u !in v.topics[t].subscribers {
      ResetTopic(v, u, t);
    }
    ReducedFully(w, v, u);
  }

  lemma OwnSubscription(w: World, u: string)
    requires Sound(w) && u in w.users
    ensures SELF_ID in w.users[u].subs && w.users[u].subs[SELF_ID] == u
  {
    assert UserIndex(DirectoryOf(w), u) && DirectoryOf(w).users[u].subs == w.users[u].subs;
  }

  lemma ReducedFully(w: World, v: World, u: string)
    requires Reduced(w, v, u) && SELF_ID in w.users[u].subs && v.users[u].subs.Keys == {SELF_ID}
    requires forall t :: t in v.topics && t != u ==> u !in v.topics[t].subscribers
    ensures v == ResetTo(w, u)
  {
    var x := ResetTo(w, u);
    assert v.users[u].subs == x.users[u].subs;
    forall t | t in w.topics ensures v.topics[t] == x.topics[t] {
      assert t != u ==> v.topics[t].subscribers - {u} == v.topics[t].subscribers;
    }
    assert v.users == x.users;
    assert v.topics == x.topics;
  }

  /** Once u holds nothing but "0", no other topic lists u. */
  lemma ResetTopic(w: World, u: string, t: string)
    requires Sound(w) && u in w.users && w.users[u].subs.Keys == {SELF_ID} && t in w.topics && t != u
    ensures u !in w.topics[t].subscribers
  {
    var d := DirectoryOf(w);
    OwnSubscription(w, u);
    assert TopicIndex(d, t) && d.users[u].subs == w.users[u].subs && d.topics[t].subscribers == w.topics[t].subscribers;
  }

  /** A successful login of a known user leaves exactly the subscription "0",
      and no other topic lists the user any more. */
  lemma LoginLeavesSelf(w: World, k: nat, u: string)
    requires Inv(w) && u in w.users && w.users[u].session.None? && k in w.sessions
    ensures var (v, r) := EngineConnect(w, k, u, w.users[u].password);
            r == Done(u) && u in v.users && v.users[u].subs == map[SELF_ID := u] &&
            forall t :: t in v.topics && t != u ==> u !in v.topics[t].subscribers
  {
    OwnSubscription(w, u);
  }

  /** `getTotalSubscribers`: one less than the list, for the owner is on it. */
  function Followers(t: TopicState): int { |t.subscribers| - 1 }

  /** No user topic ever has a negative follower count; the server topic, which
      has no owner, starts at minus one. */
  /** A user is followed by everybody on the list but the user. */
  lemma FollowersAre(w: World, u: string)
    requires Reachable(w) && u in w.users
    ensures u in w.topics && Followers(w.topics[u]) == |set x | x in w.topics[u].subscribers && x != u|
  {
    SelfSubscription(w, u);
    var all := w.topics[u].subscribers.Keys;
    assert (set x | x in w.topics[u].subscribers && x != u) == all - {u};
  }

  lemma FollowersNonNegative(w: World, u: string)
    requires Reachable(w) && u in w.users
    ensures u in w.topics && Followers(w.topics[u]) >= 0
    ensures forall w0 :: Initial(w0) ==> Followers(w0.topics[SERVER]) == -1
  {
    SelfSubscription(w, u);
    assert u in w.topics[u].subscribers.Keys;
  }
}
