/** What the commands "follow" and "unfollow" come to, from the request the client
    queues to the two subscription maps after the confirmation. */
module Commands {
  import opened Text
  import opened World
  import opened Invariants
  import opened Subscriptions
  import opened Posting
  import opened Order
  import opened Client
  import opened Agreement

  /** At rest: reached from a start, with no request waiting and nothing in flight. */
  ghost predicate AtRest(s: System, actions: seq<Action>)
  {
    Started(s) && EnabledRun(s, actions) && RunAll(s, actions).requests == [] && InFlight(RunAll(s, actions)) == []
  }

  /** The system after the command, the server's turn and the client's. */
  ghost function AfterCommand(v: System, command: Action, report: string, order: map<string, seq<string>>): System
  {
    Next(Next(Next(v, command), Serve(report, order)), Handle)
  }

  /** The server's id -> name map for the client's user. */
  function HeldIds(s: System): map<string, string>
  {
    if s.c.user in s.w.users then s.w.users[s.c.user].subs else map[]
  }

  /** Client and server agree and nothing is on the way. */
  ghost predicate Settling(v: System)
  {
    Good(v) && v.requests == [] && InFlight(v) == [] && v.c.user in v.w.users &&
    Mirror(v.c.subs, HeldIds(v)) && TableOk(v.c) && v.c.user in DirectoryOf(v.w).users &&
    DirectoryOf(v.w).users[v.c.user].subs == HeldIds(v) && UserIndex(DirectoryOf(v.w), v.c.user)
  }

  lemma Settles(s: System, actions: seq<Action>)
    requires AtRest(s, actions)
    ensures Settling(RunAll(s, actions)) && RunAll(s, actions).c.user == s.c.user
  {
    hide Step, Started, Enabled, RequestsOk, OrderOk, AcceptedOk;
    StartedGood(s);
    RunAllOk(s, actions);
    var v := RunAll(s, actions);
    HeldSession(v.w, v.k, v.c.user);
    assert InFlight(v)[..0] == [] && VisitAll(v.c, InFlight(v)[..0]) == v.c;
    assert TableOk(VisitAll(v.c, InFlight(v)[..0]));
  }

  /** One request served and its reply handled: the reply is one frame, and nothing
      is left on the way. */
  lemma ServedAlone(v: System, f: ClientFrame, report: string, order: map<string, seq<string>>)
    requires Good(v) && v.requests == [f] && InFlight(v) == [] && (f.Subscribe? || f.Unsubscribe?)
    requires LegalOrder(v.w, order)
    ensures var e := Receive(v.k, f, report, order);
            var x, z := Next(v, Serve(report, order)), Next(Next(v, Serve(report, order)), Handle);
            |ReplyTo(v.w, e, v.k)| == 1 && z.c == Visit(v.c, ReplyTo(v.w, e, v.k)[0]) &&
            z.requests == [] && InFlight(z) == [] && z.w == Step(v.w, e) &&
            DirectoryOf(z.w) == DirectoryStep(DirectoryOf(v.w), e) && Held(DirectoryOf(z.w), v.k, v.c.user)
  {
    hide Step, DirectoryStep, Indexes, Exclusive, Queues, DirectoryOf, ToFrames, Protocol, TablesOk, AcceptedOk, Visit;
    var a, e := Serve(report, order), Receive(v.k, f, report, order);
    ServeEffect(v, a);
    OneReply(v.w, e, v.k, v.c.user);
    var x := Next(v, a);
    assert InFlight(v) + ToFrames(Pushed(v.w, e, v.k)) + ReplyTo(v.w, e, v.k) == ReplyTo(v.w, e, v.k);
    assert InFlight(x)[0] == OutOf(x)[x.read];
  }

  lemma OneReply(w: World, e: Event, k: nat, u: string)
    requires Held(DirectoryOf(w), k, u) && e.Receive? && e.session == k && (e.frame.Subscribe? || e.frame.Unsubscribe?)
    ensures |ReplyTo(w, e, k)| == 1 && ToFrames(Pushed(w, e, k)) == []
  {
    HeldSession(w, k, u);
    NothingPushed(w, e, k);
  }

  lemma UnfollowFrom(v: System, n: string, report: string, order: map<string, seq<string>>)
    requires Settling(v) && LegalOrder(v.w, order) && n in v.c.subs && n != v.c.user
    ensures var z, id := AfterCommand(v, Unfollow(n), report, order), v.c.subs[n];
            Next(v, Unfollow(n)).requests == [Unsubscribe(id)] && z.requests == [] && InFlight(z) == [] &&
            z.c == v.c.(subs := v.c.subs - {n}) &&
            id in HeldIds(v) && HeldIds(v)[id] == n && HeldIds(z) == HeldIds(v) - {id}
  {
    hide Step, DirectoryOf, Good, Held, LegalOrder, Inv, InFlight, Protocol, TablesOk, AcceptedOk, ReplyTo, UserOf;
    hide SecondWord, StripTopics;
    var id, u, d := v.c.subs[n], v.c.user, DirectoryOf(v.w);
    assert UpTo(id, v.c.uid);
    var x := Next(v, Unfollow(n));
    assert x == v.(requests := [Unsubscribe(id)]);
    SameFlight(v, x);
    NextOk(v, Unfollow(n));
    ServedAlone(x, Unsubscribe(id), report, order);
    var e := Receive(v.k, Unsubscribe(id), report, order);
    GoodServed(v, e);
    assert ReplyTo(v.w, e, v.k)[0] == Confirm(u, id, "unfollowing " + n);
    OnlyUserOf(v.c, n);
    OwnId(v, n);
    HeldAfter(v, e);
  }

  lemma SameFlight(v: System, x: System)
    requires x.w == v.w && x.k == v.k && x.read == v.read
    ensures InFlight(x) == InFlight(v)
  {
  }

  lemma GoodServed(v: System, e: Event)
    requires Good(v) && e.Receive? && e.session == v.k && LegalOrder(v.w, e.order)
    requires e.frame.Subscribe? || e.frame.Unsubscribe?
    ensures v.c.user in DirectoryOf(v.w).users && v.c.user in DirectoryStep(DirectoryOf(v.w), e).users
    ensures var d, f, u := DirectoryOf(v.w), e.frame, v.c.user;
            var ids := d.users[u].subs;
            var after, reply := DirectoryStep(d, e).users[u].subs, ReplyTo(v.w, e, v.k);
            if Accepts(d, u, f) then
              reply == [Confirm(u, f.id, "following " + StripTopics(f.destination))] &&
              after == ids[f.id := StripTopics(f.destination)]
            else if f.Unsubscribe? && f.id in ids && ids[f.id] != u then
              reply == [Confirm(u, f.id, "unfollowing " + ids[f.id])] && after == ids - {f.id}
            else after == ids && (forall g :: g in reply ==> g.Error?)
  {
    hide Step, DirectoryStep, ReplyTo, DirectoryOf, Inv, TablesOk, AcceptedOk, Protocol;
    HeldSession(v.w, v.k, v.c.user);
    Served(v.w, e, v.k, v.c.user);
  }

  /** The own id is "0" and nobody else's. */
  lemma OwnId(v: System, n: string)
    requires TableOk(v.c) && n in v.c.subs && n != v.c.user
    ensures v.c.subs[n] != SELF_ID
  {
  }

  lemma HeldAfter(v: System, e: Event)
    requires Held(DirectoryOf(Step(v.w, e)), v.k, v.c.user)
    requires DirectoryOf(Step(v.w, e)) == DirectoryStep(DirectoryOf(v.w), e)
    ensures v.c.user in DirectoryStep(DirectoryOf(v.w), e).users
    ensures HeldIds(v.(w := Step(v.w, e))) == DirectoryStep(DirectoryOf(v.w), e).users[v.c.user].subs
  {
    hide Step, DirectoryStep, DirectoryOf;
    HeldSession(Step(v.w, e), v.k, v.c.user);
  }

  /** "unfollow n" for a recorded user other than the own: the request names the id
      recorded for n, and when it is served and its confirmation handled, the
      client's table has lost n and the server's map that id, and nothing else. */
  lemma UnfollowDone(s: System, actions: seq<Action>, n: string, report: string, order: map<string, seq<string>>)
    requires AtRest(s, actions) && LegalOrder(RunAll(s, actions).w, order)
    requires n in RunAll(s, actions).c.subs && n != s.c.user
    ensures var v := RunAll(s, actions);
            var z, id := AfterCommand(v, Unfollow(n), report, order), v.c.subs[n];
            Next(v, Unfollow(n)).requests == [Unsubscribe(id)] && z.requests == [] && InFlight(z) == [] &&
            z.c == v.c.(subs := v.c.subs - {n}) &&
            id in HeldIds(v) && HeldIds(v)[id] == n && HeldIds(z) == HeldIds(v) - {id}
  {
    hide Started, EnabledRun, RunAll, Settling, LegalOrder, Next, InFlight, AtRest;
    Settles(s, actions);
    UnfollowFrom(RunAll(s, actions), n, report, order);
  }

  /** "unfollow" of a name that is not recorded sends nothing; of the own name, a
      request that is refused and changes neither map. */
  lemma UnfollowRefused(s: System, actions: seq<Action>, n: string, report: string, order: map<string, seq<string>>)
    requires AtRest(s, actions) && LegalOrder(RunAll(s, actions).w, order)
    requires n !in RunAll(s, actions).c.subs || n == s.c.user
    ensures var v := RunAll(s, actions);
            var z := AfterCommand(v, Unfollow(n), report, order);
            if n == s.c.user then
              Next(v, Unfollow(n)).requests == [Unsubscribe("0")] && z.requests == [] && InFlight(z) == [] &&
              z.c == v.c && HeldIds(z) == HeldIds(v)
            else Next(v, Unfollow(n)) == v
  {
    hide Started, EnabledRun, RunAll, Settling, LegalOrder, Next, InFlight, AtRest;
    Settles(s, actions);
    var v := RunAll(s, actions);
    if n == s.c.user { UnfollowSelf(v, report, order); } else { NotRecorded(v, n); }
  }

  lemma NotRecorded(v: System, n: string)
    requires n !in v.c.subs
    ensures Next(v, Unfollow(n)) == v
  {
  }

  lemma UnfollowSelf(v: System, report: string, order: map<string, seq<string>>)
    requires Settling(v) && LegalOrder(v.w, order)
    ensures var z := AfterCommand(v, Unfollow(v.c.user), report, order);
            Next(v, Unfollow(v.c.user)).requests == [Unsubscribe("0")] && z.requests == [] && InFlight(z) == [] &&
            z.c == v.c && HeldIds(z) == HeldIds(v)
  {
    hide Step, DirectoryOf, Good, Held, LegalOrder, Inv, InFlight, Protocol, TablesOk, AcceptedOk, ReplyTo, UserOf;
    hide SecondWord, StripTopics;
    var u := v.c.user;
    var x := Next(v, Unfollow(u));
    assert x == v.(requests := [Unsubscribe("0")]);
    SameFlight(v, x);
    NextOk(v, Unfollow(u));
    ServedAlone(x, Unsubscribe("0"), report, order);
    var e := Receive(v.k, Unsubscribe("0"), report, order);
    GoodServed(v, e);
    HeldAfter(v, e);
  }

  /** "follow n", n one word without "/topic/", for a user who is not recorded: the
      request names the topic of n and the next id, and when it is served and its
      answer handled, both maps have gained exactly n under that id if there is
      such a topic, and are as before if there is none. */
  lemma FollowDone(s: System, actions: seq<Action>, n: string, report: string, order: map<string, seq<string>>)
    requires AtRest(s, actions) && LegalOrder(RunAll(s, actions).w, order)
    requires n !in RunAll(s, actions).c.subs && n != "" && Word(n) && forall i: nat :: !TopicAt(n, i)
    ensures var v := RunAll(s, actions);
            var z, id := AfterCommand(v, Follow(n), report, order), Decimal(v.c.uid + 1);
            Next(v, Follow(n)).requests == [Subscribe("/topic/" + n, id)] && z.requests == [] && InFlight(z) == [] &&
            id !in HeldIds(v) &&
            if n in v.w.topics then
              z.c == v.c.(subs := v.c.subs[n := id], uid := v.c.uid + 1) && HeldIds(z) == HeldIds(v)[id := n]
            else z.c == v.c && HeldIds(z) == HeldIds(v)
  {
    hide Started, EnabledRun, RunAll, Settling, LegalOrder, Next, InFlight, AtRest, StripTopics, Word, TopicAt;
    Settles(s, actions);
    StripsLeftmost(n, |n|);
    FollowFrom(RunAll(s, actions), n, report, order);
  }

  lemma FollowFrom(v: System, n: string, report: string, order: map<string, seq<string>>)
    requires Settling(v) && LegalOrder(v.w, order) && n !in v.c.subs && n != "" && Word(n) && StripTopics(n) == n
    ensures var z, id := AfterCommand(v, Follow(n), report, order), Decimal(v.c.uid + 1);
            Next(v, Follow(n)).requests == [Subscribe("/topic/" + n, id)] && z.requests == [] && InFlight(z) == [] &&
            id !in HeldIds(v) &&
            if n in v.w.topics then
              z.c == v.c.(subs := v.c.subs[n := id], uid := v.c.uid + 1) && HeldIds(z) == HeldIds(v)[id := n]
            else z.c == v.c && HeldIds(z) == HeldIds(v)
  {
    hide Step, Good, Held, LegalOrder, Inv, InFlight, Protocol, TablesOk, AcceptedOk, ReplyTo, UserOf;
    hide SecondWord, StripTopics, DirectoryStep, TableOk;
    var id, u := Decimal(v.c.uid + 1), v.c.user;
    var f := Subscribe("/topic/" + n, id);
    StripMe(n);
    OwnRecorded(v);
    NewId(v.c, HeldIds(v));
    var x := Next(v, Follow(n));
    assert x == v.(requests := [f]);
    SameFlight(v, x);
    NextOk(v, Follow(n));
    ServedAlone(x, f, report, order);
    var e := Receive(v.k, f, report, order);
    GoodServed(v, e);
    HeldAfter(v, e);
    SameTopics(v.w);
    FollowConfirmed(v.c, HeldIds(v), n, id);
  }

  lemma OwnRecorded(v: System)
    requires Settling(v)
    ensures v.c.user in v.c.subs && SELF_ID in HeldIds(v)
  {
  }

  lemma SameTopics(w: World)
    ensures DirectoryOf(w).topics.Keys == w.topics.Keys
  {
  }

  /** "follow" of a recorded name sends nothing. */
  lemma FollowRefused(s: System, actions: seq<Action>, n: string)
    requires AtRest(s, actions) && n in RunAll(s, actions).c.subs
    ensures Next(RunAll(s, actions), Follow(n)) == RunAll(s, actions)
  {
    hide Started, EnabledRun, RunAll, LegalOrder, InFlight, AtRest, Good;
    Settles(s, actions);
    var v := RunAll(s, actions);
    assert UpTo(v.c.subs[n], v.c.uid);
  }
}
