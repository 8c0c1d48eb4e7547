/** The follow/unfollow protocol between one client and the server, over two FIFO
    channels, with any other sessions active at the same time. */
module Agreement {
  import opened Text
  import opened World
  import opened Invariants
  import opened Subscriptions
  import opened Posting
  import opened Order
  import opened Client

  /** The server, one client on session k, the client's unprocessed requests and
      how many frames of the session's output the client has handled. accepted
      records the ids under which the server has accepted follows. */
  datatype System = System(w: World, k: nat, c: ClientState, requests: seq<ClientFrame>, read: nat,
          accepted: seq<string>)

  datatype Action =
    | Follow(arg: string)
    | Unfollow(arg: string)
    | Post(destination: string, body: string)
    | Serve(report: string, order: map<string, seq<string>>)
    | Elsewhere(event: Event)
    | Handle

  function OutOf(s: System): seq<ServerFrame>
  {
    if s.k in s.w.sessions then s.w.sessions[s.k].out else []
  }

  /** The frames on their way to the client. */
  function InFlight(s: System): seq<ServerFrame>
  {
    if s.read <= |OutOf(s)| then OutOf(s)[s.read..] else []
  }

  /** The client once it has handled everything in flight. */
  ghost function Settled(s: System): ClientState { VisitAll(s.c, InFlight(s)) }

  function Sent(s: System, request: Option<ClientFrame>): System
  {
    match request
    case Some(f) => s.(requests := s.requests + [f])
    case None => s
  }

  function ServeEvent(s: System, a: Action): Event
    requires a.Serve? && s.requests != []
  {
    Receive(s.k, s.requests[0], a.report, a.order)
  }

  /** The server accepts the follow request e of user u. */
  predicate Accepts(d: Directory, u: string, f: ClientFrame)
  {
    u in d.users && f.Subscribe? && StripTopics(f.destination) != u && StripTopics(f.destination) in d.topics &&
    f.id !in d.users[u].subs
  }

  ghost function Next(s: System, a: Action): System
  {
    match a
    case Follow(arg) => Sent(s, FollowRequest(s.c, arg))
    case Unfollow(arg) => Sent(s, UnfollowRequest(s.c, arg))
    case Post(destination, body) => s.(requests := s.requests + [Send(destination, body)])
    case Serve(_, _) =>
      if s.requests == [] then s else
        var f := s.requests[0];
        s.(w := Step(s.w, ServeEvent(s, a)), requests := s.requests[1..],
           accepted := if Accepts(DirectoryOf(s.w), s.c.user, f) then s.accepted + [f.id] else s.accepted)
    case Elsewhere(e) => s.(w := Step(s.w, e))
    case Handle =>
      if s.read < |OutOf(s)| then s.(c := Visit(s.c, OutOf(s)[s.read]), read := s.read + 1) else s
  }

  /** What the environment may do. The argument of follow is one word, as the
      command line is split at spaces; it must not come to the empty name, nor
      reach a user already in the table under another spelling. */
  ghost predicate Enabled(s: System, a: Action)
  {
    match a
    case Follow(arg) =>
      Word(arg) && StripTopics(arg) != "" &&
      (StripTopics(arg) == s.c.user || StripTopics(arg) !in s.c.subs || IdOf(s.c, arg) != "")
    case Post(destination, body) => !(StripTopics(destination) == SERVER && ServerCommand(body) == "stop")
    case Serve(_, _) => s.requests != [] ==> Allowed(s.w, ServeEvent(s, a))
    case Elsewhere(e) => Allowed(s.w, e) && (e.Receive? ==> e.session != s.k)
    case _ => true
  }

  // --------------------------------------------------------------- invariant

  /** The client's map is the inverse of the server's. */
  ghost predicate Mirror(names: map<string, string>, ids: map<string, string>)
  {
    forall n, i :: (n in names && names[n] == i) <==> (i in ids && ids[i] == n)
  }

  ghost predicate UpTo(id: string, m: nat)
  {
    exists n: nat :: n <= m && id == Decimal(n)
  }

  /** A client table as it can come about: injective, own name under "0", ids
      counted up from there, no empty name beside the own. */
  ghost predicate TableOk(c: ClientState)
  {
    Injective(c.subs) && c.user in c.subs && c.subs[c.user] == SELF_ID && ("" in c.subs ==> c.user == "") &&
    forall n :: n in c.subs ==> UpTo(c.subs[n], c.uid)
  }

  ghost predicate TablesOk(c: ClientState, fs: seq<ServerFrame>)
  {
    forall i :: 0 <= i <= |fs| ==> TableOk(VisitAll(c, fs[..i]))
  }

  /** One request, where m is the settled client's count of registrations. */
  ghost predicate RequestOk(f: ClientFrame, c: ClientState, m: nat, names: map<string, string>,
          ids: map<string, string>)
  {
    match f
    case Subscribe(destination, id) =>
      var n := StripTopics(destination);
      Word(n) && n != "" &&
      ((id == Decimal(m) && id in ids) || (id == Decimal(m + 1) && c.uid == m && (n == c.user || n !in names)))
    case Unsubscribe(id) => UpTo(id, c.uid)
    case Send(destination, body) => !(StripTopics(destination) == SERVER && ServerCommand(body) == "stop")
    case _ => false
  }

  ghost predicate RequestsOk(fs: seq<ClientFrame>, c: ClientState, m: nat, names: map<string, string>,
          ids: map<string, string>)
  {
    forall i :: 0 <= i < |fs| ==> RequestOk(fs[i], c, m, names, ids)
  }

  /** A follow that is bound to be refused comes neither after one that may be
      accepted nor after the unfollow that would free its id. */
  ghost predicate OrderOk(fs: seq<ClientFrame>, m: nat)
  {
    forall i, j :: 0 <= i < j < |fs| && fs[j].Subscribe? && fs[j].id == Decimal(m) ==>
      !(fs[i].Subscribe? && fs[i].id == Decimal(m + 1)) && !(fs[i].Unsubscribe? && fs[i].id == Decimal(m))
  }

  ghost predicate AcceptedOk(accepted: seq<string>, m: nat)
  {
    m == |accepted| + 1 && forall j :: 0 <= j < |accepted| ==> accepted[j] == Decimal(j + 2)
  }

  ghost predicate Good(s: System)
  {
    var d, u := DirectoryOf(s.w), s.c.user;
    Inv(s.w) && Held(d, s.k, u) && s.read <= |OutOf(s)| &&
    TablesOk(s.c, InFlight(s)) && AcceptedOk(s.accepted, Settled(s).uid) &&
    Protocol(s.c, Settled(s), s.requests, d.users[u].subs)
  }

  /** The part about client, settled client x, requests and the server's ids. */
  ghost predicate Protocol(c: ClientState, x: ClientState, requests: seq<ClientFrame>, ids: map<string, string>)
  {
    x.user == c.user && x.uid >= 1 && c.uid <= x.uid <= c.uid + 1 &&
    (c.uid < x.uid ==> Decimal(x.uid) in ids) && (c.uid == x.uid ==> x.subs.Keys <= c.subs.Keys) &&
    TableOk(x) && Mirror(x.subs, ids) &&
    RequestsOk(requests, c, x.uid, x.subs, ids) && OrderOk(requests, x.uid)
  }

  // --------------------------------------------------- the protocol, abstractly

  lemma UpToDistinct(id: string, m: nat, n: nat)
    requires UpTo(id, m) && m < n
    ensures id != Decimal(n)
  {
    if id == Decimal(n) {
      var j: nat :| j <= m && id == Decimal(j);
      DecimalInjective(j, n);
    }
  }

  /** A request sent now keeps the order of requests. */
  lemma SendRequest(c: ClientState, x: ClientState, requests: seq<ClientFrame>, ids: map<string, string>,
          f: ClientFrame)
    requires Protocol(c, x, requests, ids) && RequestOk(f, c, x.uid, x.subs, ids)
    requires f.Subscribe? ==> f.id == Identifier(c)
    ensures Protocol(c, x, requests + [f], ids)
  {
    var m, fs := x.uid, requests + [f];
    if f.Subscribe? && f.id == Decimal(m) {
      if c.uid == m { DecimalInjective(m, m + 1); }
      forall i | 0 <= i < |requests|
        ensures !(fs[i].Subscribe? && fs[i].id == Decimal(m + 1)) && !(fs[i].Unsubscribe? && fs[i].id == Decimal(m))
      {
        assert RequestOk(requests[i], c, m, x.subs, ids);
        if fs[i].Subscribe? && fs[i].id == Decimal(m + 1) { DecimalInjective(m, m + 1); }
        if fs[i].Unsubscribe? { UpToDistinct(fs[i].id, c.uid, m); }
      }
    }
  }

  /** The next follow's id is either the latest one registered, with its
      confirmation still in flight, or a new one. */
  lemma FollowOk(c: ClientState, x: ClientState, requests: seq<ClientFrame>, ids: map<string, string>, arg: string)
    requires Protocol(c, x, requests, ids) && FollowRequest(c, arg).Some?
    requires Word(arg) && StripTopics(arg) != "" && (StripTopics(arg) == c.user || StripTopics(arg) !in c.subs)
    ensures Protocol(c, x, requests + [FollowRequest(c, arg).value], ids)
  {
    var f := FollowRequest(c, arg).value;
    StripMe(arg);
    assert RequestOk(f, c, x.uid, x.subs, ids);
    SendRequest(c, x, requests, ids, f);
  }

  lemma StripMe(arg: string)
    ensures StripTopics(Me(arg)) == StripTopics(arg)
  {
    assert Me(arg)[|TOPICS_LOCATION|..] == arg;
  }

  lemma UnfollowOk(c: ClientState, x: ClientState, requests: seq<ClientFrame>, ids: map<string, string>, arg: string)
    requires Protocol(c, x, requests, ids) && TableOk(c) && UnfollowRequest(c, arg).Some?
    ensures Protocol(c, x, requests + [UnfollowRequest(c, arg).value], ids)
  {
    SendRequest(c, x, requests, ids, UnfollowRequest(c, arg).value);
  }

  /** Dropping a request the server refuses, or a post. */
  lemma DropRequest(c: ClientState, x: ClientState, requests: seq<ClientFrame>, ids: map<string, string>)
    requires Protocol(c, x, requests, ids) && requests != []
    ensures Protocol(c, x, requests[1..], ids)
  {
    var fs := requests[1..];
    forall i | 0 <= i < |fs| ensures RequestOk(fs[i], c, x.uid, x.subs, ids) {
      assert RequestOk(requests[i + 1], c, x.uid, x.subs, ids);
    }
    forall i, j | 0 <= i < j < |fs| && fs[j].Subscribe? && fs[j].id == Decimal(x.uid)
      ensures !(fs[i].Subscribe? && fs[i].id == Decimal(x.uid + 1)) &&
              !(fs[i].Unsubscribe? && fs[i].id == Decimal(x.uid))
    {
      assert requests[i + 1] == fs[i] && requests[j + 1] == fs[j];
    }
  }

  /** The settled client has no entry under an id the server does not hold. */
  lemma NoUser(x: ClientState, ids: map<string, string>, id: string)
    requires Mirror(x.subs, ids) && id !in ids
    ensures UserOf(x, id) == ""
  {
  }

  /** An accepted follow carries a new id, its confirmation registers, and every
      follow still on its way is now bound to be refused. */
  lemma AcceptFollow(c: ClientState, x: ClientState, requests: seq<ClientFrame>, ids: map<string, string>, n: string,
          confirmation: ServerFrame)
    requires Protocol(c, x, requests, ids) && requests != [] && requests[0].Subscribe?
    requires n == StripTopics(requests[0].destination) && n != c.user && requests[0].id !in ids
    requires confirmation == Confirm(c.user, requests[0].id, "following " + n)
    requires SELF_ID in ids
    ensures requests[0].id == Decimal(x.uid + 1)
    ensures Visit(x, confirmation) == x.(subs := x.subs[n := requests[0].id], uid := x.uid + 1)
    ensures Protocol(c, Visit(x, confirmation), requests[1..], ids[requests[0].id := n])
  {
    hide TableOk, Mirror, UpTo, SecondWord, UserOf, StripTopics;
    var id, m := requests[0].id, x.uid;
    assert RequestOk(requests[0], c, m, x.subs, ids);
    assert id == Decimal(m + 1) && c.uid == m && n !in x.subs;
    NoUser(x, ids, id);
    ConfirmedName(n);
    var y := Visit(x, confirmation);
    assert y == x.(subs := x.subs[n := id], uid := m + 1);
    AcceptTable(x, n, y);
    AcceptMirror(x.subs, ids, n, id);
    AcceptRequests(c, x, requests, ids, n);
  }

  lemma AcceptTable(x: ClientState, n: string, y: ClientState)
    requires TableOk(x) && n !in x.subs && n != "" && y == x.(subs := x.subs[n := Decimal(x.uid + 1)], uid := x.uid + 1)
    ensures TableOk(y)
  {
    forall a | a in y.subs ensures UpTo(y.subs[a], y.uid) {
      if a == n {
        assert x.uid + 1 <= y.uid;
      } else {
        assert UpTo(x.subs[a], x.uid);
        var j: nat :| j <= x.uid && x.subs[a] == Decimal(j);
        UpToDistinct(x.subs[a], x.uid, x.uid + 1);
      }
    }
    forall a, b | a in y.subs && b in y.subs && y.subs[a] == y.subs[b] ensures a == b {
      if a in x.subs { UpToDistinct(x.subs[a], x.uid, x.uid + 1); }
      if b in x.subs { UpToDistinct(x.subs[b], x.uid, x.uid + 1); }
    }
  }

  lemma AcceptMirror(names: map<string, string>, ids: map<string, string>, n: string, id: string)
    requires Mirror(names, ids) && n !in names && id !in ids
    ensures Mirror(names[n := id], ids[id := n])
  {
    assert forall a :: a in names ==> names[a] in ids && ids[names[a]] == a;
    assert forall i :: i in ids ==> ids[i] in names && names[ids[i]] == i;
  }

  lemma AcceptRequests(c: ClientState, x: ClientState, requests: seq<ClientFrame>, ids: map<string, string>, n: string)
    requires Protocol(c, x, requests, ids) && requests != [] && requests[0].Subscribe? &&
             requests[0].id == Decimal(x.uid + 1)
    ensures RequestsOk(requests[1..], c, x.uid + 1, x.subs[n := requests[0].id], ids[requests[0].id := n])
    ensures OrderOk(requests[1..], x.uid + 1)
  {
    var fs, m := requests[1..], x.uid;
    DistinctNext(m);
    forall i | 0 <= i < |fs|
      ensures RequestOk(fs[i], c, m + 1, x.subs[n := requests[0].id], ids[requests[0].id := n])
      ensures fs[i].Subscribe? ==> fs[i].id == Decimal(m + 1)
      ensures fs[i].Unsubscribe? ==> fs[i].id != Decimal(m + 1)
    {
      assert RequestOk(requests[i + 1], c, m, x.subs, ids);
      if fs[i].Unsubscribe? { UpToDistinct(fs[i].id, c.uid, m + 1); }
    }
  }

  lemma DistinctNext(m: nat)
    ensures Decimal(m) != Decimal(m + 1) && Decimal(m + 1) != Decimal(m + 2) && Decimal(m) != Decimal(m + 2)
  {
    if Decimal(m) == Decimal(m + 1) { DecimalInjective(m, m + 1); }
    if Decimal(m + 1) == Decimal(m + 2) { DecimalInjective(m + 1, m + 2); }
    if Decimal(m) == Decimal(m + 2) { DecimalInjective(m, m + 2); }
  }

  /** A performed unfollow's confirmation removes exactly the entry given up. */
  lemma PerformUnfollow(c: ClientState, x: ClientState, requests: seq<ClientFrame>, ids: map<string, string>,
          confirmation: ServerFrame)
    requires Protocol(c, x, requests, ids) && requests != [] && requests[0].Unsubscribe?
    requires requests[0].id in ids && ids[requests[0].id] != c.user && SELF_ID in ids && ids[SELF_ID] == c.user
    requires confirmation == Confirm(c.user, requests[0].id, "unfollowing " + ids[requests[0].id])
    ensures Visit(x, confirmation) == x.(subs := x.subs - {ids[requests[0].id]})
    ensures Protocol(c, Visit(x, confirmation), requests[1..], ids - {requests[0].id})
  {
    var id := requests[0].id;
    var n := ids[id];
    assert n in x.subs && x.subs[n] == id && n != "";
    OnlyUserOf(x, n);
    var y := Visit(x, confirmation);
    assert y == x.(subs := x.subs - {n});
    assert TableOk(y);
    UnfollowMirror(x.subs, ids, n, id);
    DropRequest(c, x, requests, ids);
    UnfollowRequests(c, x, requests, ids);
  }

  lemma UnfollowMirror(names: map<string, string>, ids: map<string, string>, n: string, id: string)
    requires Mirror(names, ids) && id in ids && ids[id] == n
    ensures Mirror(names - {n}, ids - {id})
  {
    assert forall a :: a in names ==> names[a] in ids && ids[names[a]] == a;
    assert forall i :: i in ids ==> ids[i] in names && names[ids[i]] == i;
  }

  lemma UnfollowRequests(c: ClientState, x: ClientState, requests: seq<ClientFrame>, ids: map<string, string>)
    requires Protocol(c, x, requests, ids) && requests != [] && requests[0].Unsubscribe? && requests[0].id in ids
    ensures RequestsOk(requests[1..], c, x.uid, x.subs - {ids[requests[0].id]}, ids - {requests[0].id})
    ensures c.uid < x.uid ==> Decimal(x.uid) in ids - {requests[0].id}
  {
    var fs, id := requests[1..], requests[0].id;
    forall i | 0 <= i < |fs| ensures RequestOk(fs[i], c, x.uid, x.subs - {ids[id]}, ids - {id}) {
      assert RequestOk(requests[i + 1], c, x.uid, x.subs, ids) && requests[i + 1] == fs[i];
    }
    if c.uid < x.uid {
      assert RequestOk(requests[0], c, x.uid, x.subs, ids);
      UpToDistinct(id, c.uid, x.uid);
    }
  }

  /** Handling a frame changes the client, not what it will settle to. */
  lemma HandleOk(c: ClientState, f: ServerFrame, x: ClientState, requests: seq<ClientFrame>, ids: map<string, string>)
    requires Protocol(c, x, requests, ids)
    requires var v := Visit(c, f); v.uid <= x.uid && (v.uid == x.uid ==> x.subs.Keys <= v.subs.Keys)
    ensures Protocol(Visit(c, f), x, requests, ids)
  {
    var v := Visit(c, f);
    forall i | 0 <= i < |requests| ensures RequestOk(requests[i], v, x.uid, x.subs, ids) {
      assert RequestOk(requests[i], c, x.uid, x.subs, ids);
    }
  }

  // ------------------------------------------------------------ the whole system

  lemma HeldStep(d: Directory, e: Event, k: nat, u: string)
    requires Held(d, k, u) && Exclusive(d) && Calm(e, k)
    ensures Held(DirectoryStep(d, e), k, u)
  {
  }

  /** Nobody else's frames touch what u holds. */
  lemma ForeignSubs(d: Directory, e: Event, k: nat, u: string)
    requires Held(d, k, u) && Exclusive(d) && (e.Receive? ==> e.session != k)
    ensures u in DirectoryStep(d, e).users && DirectoryStep(d, e).users[u].subs == d.users[u].subs
  {
    hide RequestStep;
    if e.Receive? && e.session in d.sessions && d.sessions[e.session].Some? && d.sessions[e.session].value in d.users {
      RequestElsewhere(d, d.sessions[e.session].value, e.frame, u);
    }
  }

  lemma RequestElsewhere(d: Directory, x: string, f: ClientFrame, u: string)
    requires x in d.users && u in d.users && x != u
    ensures u in RequestStep(d, x, f).users && RequestStep(d, x, f).users[u].subs == d.users[u].subs
  {
  }

  /** Frames that are neither confirmations nor CONNECTED leave the client alone. */
  lemma {:induction false} IgnoredFrames(c: ClientState, fs: seq<ServerFrame>)
    requires forall f :: f in fs ==> !Confirmation(f, c.user) && !f.Connected?
    ensures VisitAll(c, fs) == c
  {
    if fs != [] {
      IgnoredFrames(c, fs[..|fs| - 1]);
      assert fs[|fs| - 1] in fs;
    }
  }

  lemma {:induction false} TablesGrow(c: ClientState, fs: seq<ServerFrame>, gs: seq<ServerFrame>)
    requires TablesOk(c, fs)
    requires forall i :: 0 <= i <= |gs| ==> TableOk(VisitAll(VisitAll(c, fs), gs[..i]))
    ensures TablesOk(c, fs + gs)
  {
    forall i | 0 <= i <= |fs + gs| ensures TableOk(VisitAll(c, (fs + gs)[..i])) {
      if i <= |fs| {
        assert (fs + gs)[..i] == fs[..i];
      } else {
        assert (fs + gs)[..i] == fs + gs[..i - |fs|];
        VisitAllConcat(c, fs, gs[..i - |fs|]);
      }
    }
  }

  lemma IgnoredTables(c: ClientState, fs: seq<ServerFrame>, gs: seq<ServerFrame>)
    requires TablesOk(c, fs) && forall g :: g in gs ==> !Confirmation(g, c.user) && !g.Connected?
    ensures TablesOk(c, fs + gs) && VisitAll(c, fs + gs) == VisitAll(c, fs)
  {
    var x := VisitAll(c, fs);
    VisitAllGrows(c, fs);
    assert fs[..|fs|] == fs;
    forall i | 0 <= i <= |gs| ensures TableOk(VisitAll(x, gs[..i])) {
      IgnoredFrames(x, gs[..i]);
    }
    TablesGrow(c, fs, gs);
    VisitAllConcat(c, fs, gs);
    IgnoredFrames(x, gs);
  }

  lemma OneMoreTable(c: ClientState, fs: seq<ServerFrame>, f: ServerFrame)
    requires TablesOk(c, fs) && TableOk(Visit(VisitAll(c, fs), f))
    ensures TablesOk(c, fs + [f]) && VisitAll(c, fs + [f]) == Visit(VisitAll(c, fs), f)
  {
    var x := VisitAll(c, fs);
    assert fs[..|fs|] == fs;
    assert [f][..1] == [f] && [f][..0] == [] && VisitAll(x, []) == x;
    assert VisitAll(x, [f]) == Visit(x, f);
    TablesGrow(c, fs, [f]);
    VisitAllConcat(c, fs, [f]);
  }

  lemma TablesTail(c: ClientState, fs: seq<ServerFrame>)
    requires TablesOk(c, fs) && fs != []
    ensures TablesOk(Visit(c, fs[0]), fs[1..]) && VisitAll(Visit(c, fs[0]), fs[1..]) == VisitAll(c, fs)
    ensures TableOk(c)
  {
    assert fs[..0] == [] && VisitAll(c, []) == c;
    assert TableOk(VisitAll(c, fs[..0]));
    assert [fs[0]][..0] == [] && VisitAll(c, [fs[0]]) == Visit(c, fs[0]);
    assert fs == [fs[0]] + fs[1..];
    VisitAllConcat(c, [fs[0]], fs[1..]);
    forall i | 0 <= i <= |fs[1..]| ensures TableOk(VisitAll(Visit(c, fs[0]), fs[1..][..i])) {
      assert fs[..i + 1] == [fs[0]] + fs[1..][..i];
      VisitAllConcat(c, [fs[0]], fs[1..][..i]);
      assert TableOk(VisitAll(c, fs[..i + 1]));
    }
  }

  /** What an event elsewhere does to the server and to what is in flight. */
  lemma ElsewhereEffect(s: System, e: Event)
    requires Inv(s.w) && Held(DirectoryOf(s.w), s.k, s.c.user) && s.read <= |OutOf(s)|
    requires Allowed(s.w, e) && (e.Receive? ==> e.session != s.k)
    ensures var v := Next(s, Elsewhere(e));
            Inv(v.w) && DirectoryOf(v.w) == DirectoryStep(DirectoryOf(s.w), e) &&
            Held(DirectoryOf(v.w), s.k, s.c.user) &&
            v.read <= |OutOf(v)| && InFlight(v) == InFlight(s) + ToFrames(Pushed(s.w, e, s.k))
  {
    hide Step, DirectoryStep, Held, Indexes, Exclusive, Queues, Pushed, ReplyTo, DirectoryOf, ToFrames, Calm, Allowed;
    var u, v := s.c.user, Next(s, Elsewhere(e));
    CalmElsewhere(e, s.k, s.w);
    StepKeeps(s.w, e);
    StepDirectory(s.w, e);
    HeldStep(DirectoryOf(s.w), e, s.k, u);
    HeldSession(s.w, s.k, u);
    SessionOutput(s.w, e, s.k);
    assert OutOf(v) == OutOf(s) + ToFrames(Pushed(s.w, e, s.k));
  }

  /** An event elsewhere only adds posts to what is in flight. */
  lemma ElsewhereOk(s: System, e: Event)
    requires Good(s) && Allowed(s.w, e) && (e.Receive? ==> e.session != s.k)
    ensures Good(Next(s, Elsewhere(e)))
  {
    hide Step, DirectoryStep, Protocol, Held, Indexes, Exclusive, Queues, Pushed, DirectoryOf, ToFrames, AcceptedOk;
    hide TablesOk, VisitAll, Allowed;
    ElsewhereEffect(s, e);
    ForeignSubs(DirectoryOf(s.w), e, s.k, s.c.user);
    PushedIgnored(s.w, e, s.k, s.c.user);
    HeldSession(s.w, s.k, s.c.user);
    IgnoredTables(s.c, InFlight(s), ToFrames(Pushed(s.w, e, s.k)));
  }

  lemma CalmElsewhere(e: Event, k: nat, w: World)
    requires e.Receive? ==> e.session != k
    ensures Calm(e, k) && ReplyTo(w, e, k) == []
  {
  }

  lemma HeldSession(w: World, k: nat, u: string)
    requires Held(DirectoryOf(w), k, u)
    ensures u in DirectoryOf(w).users
    ensures k in w.sessions && w.sessions[k].user == Some(u) && u in w.users &&
            w.users[u].subs == DirectoryOf(w).users[u].subs
  {
    assert DirectoryOf(w).sessions.Keys == w.sessions.Keys && DirectoryOf(w).sessions[k] == w.sessions[k].user;
    assert DirectoryOf(w).users.Keys == w.users.Keys;
  }

  /** The server serves one request: what its reply is, and what u holds then. */
  lemma Served(w: World, e: Event, k: nat, u: string)
    requires Inv(w) && Allowed(w, e) && Held(DirectoryOf(w), k, u) && e.Receive? && e.session == k
    requires e.frame.Subscribe? || e.frame.Unsubscribe? || e.frame.Send?
    ensures var d, f := DirectoryOf(w), e.frame;
            var ids := d.users[u].subs;
            var d', reply := DirectoryStep(d, e), ReplyTo(w, e, k);
            u in d'.users &&
            if Accepts(d, u, f) then
              reply == [Confirm(u, f.id, "following " + StripTopics(f.destination))] &&
              d'.users[u].subs == ids[f.id := StripTopics(f.destination)]
            else if f.Unsubscribe? && f.id in ids && ids[f.id] != u then
              reply == [Confirm(u, f.id, "unfollowing " + ids[f.id])] && d'.users[u].subs == ids - {f.id}
            else d'.users[u].subs == ids && (forall g :: g in reply ==> g.Error?)
  {
    hide EngineConnect, Logout, EngineSend, StripTopics, Exclusive, Queues, Allowed;
    HeldSession(w, k, u);
    var d, f := DirectoryOf(w), e.frame;
    assert d.topics.Keys == w.topics.Keys && UserIndex(d, u);
    if f.Send? { SendReply(w, u, e); }
  }

  /** What serving does to the protocol state: gs is what was posted to u on the
      way, reply what the request itself was answered with. */
  lemma ServeProtocol(s: System, f: ClientFrame, reply: seq<ServerFrame>, ids': map<string, string>)
    requires Good(s) && s.requests != [] && f == s.requests[0]
    requires var d, u := DirectoryOf(s.w), s.c.user;
             var ids := d.users[u].subs;
             if Accepts(d, u, f) then
               reply == [Confirm(u, f.id, "following " + StripTopics(f.destination))] &&
               ids' == ids[f.id := StripTopics(f.destination)]
             else if f.Unsubscribe? && f.id in ids && ids[f.id] != u then
               reply == [Confirm(u, f.id, "unfollowing " + ids[f.id])] && ids' == ids - {f.id}
             else ids' == ids && (forall g :: g in reply ==> g.Error?)
    ensures var x := VisitAll(Settled(s), reply);
            Protocol(s.c, x, s.requests[1..], ids') && TableOk(x) &&
            x.uid == Settled(s).uid + (if Accepts(DirectoryOf(s.w), s.c.user, f) then 1 else 0) &&
            (Accepts(DirectoryOf(s.w), s.c.user, f) ==>
              f.id == Decimal(Settled(s).uid + 1) && x.subs == Settled(s).subs[StripTopics(f.destination) := f.id])
    ensures |reply| <= 1 || VisitAll(Settled(s), reply) == Settled(s)
  {
    hide DirectoryStep, Exclusive, Queues;
    var d, u, x := DirectoryOf(s.w), s.c.user, Settled(s);
    var ids := d.users[u].subs;
    VisitAllGrows(s.c, InFlight(s));
    assert UserIndex(d, u);
    if reply != [] { VisitOne(x, reply[0]); }
    if Accepts(d, u, f) {
      AcceptFollow(s.c, x, s.requests, ids, StripTopics(f.destination), reply[0]);
    } else if f.Unsubscribe? && f.id in ids && ids[f.id] != u {
      PerformUnfollow(s.c, x, s.requests, ids, reply[0]);
    } else {
      IgnoredFrames(x, reply);
      DropRequest(s.c, x, s.requests, ids);
    }
  }

  lemma VisitOne(c: ClientState, f: ServerFrame)
    ensures VisitAll(c, [f]) == Visit(c, f)
  {
    assert [f][..0] == [] && VisitAll(c, []) == c;
  }

  lemma ServeTables(s: System, pushed: seq<ServerFrame>, reply: seq<ServerFrame>)
    requires TablesOk(s.c, InFlight(s)) && |reply| <= 1 && TableOk(VisitAll(Settled(s), reply))
    requires forall f :: f in pushed ==> !Confirmation(f, s.c.user) && !f.Connected?
    ensures TablesOk(s.c, InFlight(s) + pushed + reply)
    ensures VisitAll(s.c, InFlight(s) + pushed + reply) == VisitAll(Settled(s), reply)
  {
    IgnoredTables(s.c, InFlight(s), pushed);
    var fs := InFlight(s) + pushed;
    if reply == [] {
      assert fs + reply == fs;
    } else {
      assert reply == [reply[0]];
      VisitOne(Settled(s), reply[0]);
      OneMoreTable(s.c, fs, reply[0]);
    }
  }

  lemma AcceptedGrows(accepted: seq<string>, m: nat, id: string)
    requires AcceptedOk(accepted, m) && id == Decimal(m + 1)
    ensures AcceptedOk(accepted + [id], m + 1)
  {
  }

  /** What serving does to the server and to what is in flight. */
  lemma ServeEffect(s: System, a: Action)
    requires Inv(s.w) && Held(DirectoryOf(s.w), s.k, s.c.user) && s.read <= |OutOf(s)|
    requires a.Serve? && s.requests != [] && Allowed(s.w, ServeEvent(s, a)) && Calm(ServeEvent(s, a), s.k)
    ensures var v, e := Next(s, a), ServeEvent(s, a);
            Inv(v.w) && DirectoryOf(v.w) == DirectoryStep(DirectoryOf(s.w), e) &&
            Held(DirectoryOf(v.w), s.k, s.c.user) &&
            v.read <= |OutOf(v)| && InFlight(v) == InFlight(s) + ToFrames(Pushed(s.w, e, s.k)) + ReplyTo(s.w, e, s.k)
  {
    hide Step, DirectoryStep, Indexes, Exclusive, Queues, Pushed, ReplyTo, DirectoryOf, ToFrames, Protocol, TablesOk;
    hide AcceptedOk, Allowed, Calm;
    var e, v := ServeEvent(s, a), Next(s, a);
    StepKeeps(s.w, e);
    StepDirectory(s.w, e);
    HeldStep(DirectoryOf(s.w), e, s.k, s.c.user);
    HeldSession(s.w, s.k, s.c.user);
    SessionOutput(s.w, e, s.k);
    assert OutOf(v) == OutOf(s) + ToFrames(Pushed(s.w, e, s.k)) + ReplyTo(s.w, e, s.k);
  }

  lemma ServeOk(s: System, a: Action)
    requires Good(s) && a.Serve? && s.requests != [] && Enabled(s, a)
    ensures Good(Next(s, a))
    ensures var f := s.requests[0];
            Accepts(DirectoryOf(s.w), s.c.user, f) ==>
              f.id == Decimal(Settled(s).uid + 1) &&
              Settled(Next(s, a)) ==
                Settled(s).(subs := Settled(s).subs[StripTopics(f.destination) := f.id], uid := Settled(s).uid + 1)
  {
    hide Step, DirectoryStep, Held, Inv, Pushed, ReplyTo, DirectoryOf, ToFrames, AcceptedOk, Allowed, Confirm, TableOk;
    hide TablesOk;
    var e, f, u := ServeEvent(s, a), s.requests[0], s.c.user;
    HeldSession(s.w, s.k, u);
    assert RequestOk(f, s.c, Settled(s).uid, Settled(s).subs, DirectoryOf(s.w).users[u].subs);
    Served(s.w, e, s.k, u);
    ServeEffect(s, a);
    hide Protocol, RequestOk;
    var reply := ReplyTo(s.w, e, s.k);
    ReplyShort(s.w, e, s.k);
    ServeProtocol(s, f, reply, DirectoryStep(DirectoryOf(s.w), e).users[u].subs);
    PushedIgnored(s.w, e, s.k, u);
    ServeTables(s, ToFrames(Pushed(s.w, e, s.k)), reply);
    VisitAllGrows(s.c, InFlight(s));
    VisitAllGrows(Settled(s), reply);
    if Accepts(DirectoryOf(s.w), u, f) { AcceptedGrows(s.accepted, Settled(s).uid, f.id); }
  }

  lemma ReplyShort(w: World, e: Event, k: nat)
    ensures |ReplyTo(w, e, k)| <= 1
  {
  }

  lemma ClientOk(s: System, a: Action)
    requires Good(s) && Enabled(s, a) && (a.Follow? || a.Unfollow? || a.Post?)
    ensures Good(Next(s, a))
  {
    hide Held, Inv, AcceptedOk, DirectoryOf;
    HeldSession(s.w, s.k, s.c.user);
    var c, x, ids := s.c, Settled(s), DirectoryOf(s.w).users[s.c.user].subs;
    assert TableOk(VisitAll(c, InFlight(s)[..0])) && InFlight(s)[..0] == [] && VisitAll(c, []) == c;
    assert InFlight(Next(s, a)) == InFlight(s);
    match a
    case Follow(arg) => if FollowRequest(c, arg).Some? { FollowOk(c, x, s.requests, ids, arg); }
    case Unfollow(arg) => if UnfollowRequest(c, arg).Some? { UnfollowOk(c, x, s.requests, ids, arg); }
    case Post(destination, body) => SendRequest(c, x, s.requests, ids, Send(destination, body));
  }

  lemma HandlingOk(s: System)
    requires Good(s) && s.read < |OutOf(s)|
    ensures Good(Next(s, Handle))
  {
    hide Held, Inv, AcceptedOk, DirectoryOf, Protocol, Visit, TableOk;
    HeldSession(s.w, s.k, s.c.user);
    VisitKeepsUser(s.c, OutOf(s)[s.read]);
    SettledUser(s);
    var v, fs := Next(s, Handle), InFlight(s);
    assert fs[0] == OutOf(s)[s.read] && InFlight(v) == fs[1..];
    TablesTail(s.c, fs);
    VisitAllGrows(v.c, fs[1..]);
    HandleOk(s.c, fs[0], Settled(s), s.requests, DirectoryOf(s.w).users[s.c.user].subs);
  }

  lemma SettledUser(s: System)
    requires Good(s)
    ensures Settled(s).user == s.c.user
  {
  }

  lemma NextOk(s: System, a: Action)
    requires Good(s) && Enabled(s, a)
    ensures Good(Next(s, a))
  {
    match a
    case Serve(_, _) => if s.requests != [] { ServeOk(s, a); }
    case Elsewhere(e) => ElsewhereOk(s, e);
    case Handle => if s.read < |OutOf(s)| { HandlingOk(s); }
    case _ => ClientOk(s, a);
  }

  ghost function RunAll(s: System, actions: seq<Action>): System
  {
    if actions == [] then s else Next(RunAll(s, actions[..|actions| - 1]), actions[|actions| - 1])
  }

  ghost predicate EnabledRun(s: System, actions: seq<Action>)
  {
    actions == [] ||
    (EnabledRun(s, actions[..|actions| - 1]) && Enabled(RunAll(s, actions[..|actions| - 1]), actions[|actions| - 1]))
  }

  lemma {:induction false} RunAllOk(s: System, actions: seq<Action>)
    requires Good(s) && EnabledRun(s, actions)
    ensures Good(RunAll(s, actions)) && RunAll(s, actions).c.user == s.c.user && RunAll(s, actions).k == s.k
  {
    hide Good, Enabled;
    if actions != [] {
      RunAllOk(s, actions[..|actions| - 1]);
      NextOk(RunAll(s, actions[..|actions| - 1]), actions[|actions| - 1]);
    }
  }

  // --------------------------------------------------------------- the theorems

  /** The client right after it has handled CONNECTED of its only login: its own
      name under "0", no request sent, only posts in flight. */
  ghost predicate Started(s: System)
  {
    var d, u := DirectoryOf(s.w), s.c.user;
    Inv(s.w) && Held(d, s.k, u) && d.users[u].subs.Keys == {SELF_ID} &&
    s.c.subs.Keys == {u} && s.c.subs[u] == SELF_ID && s.c.uid == 1 &&
    s.requests == [] && s.accepted == [] && s.read <= |OutOf(s)| &&
    forall f :: f in InFlight(s) ==> !Confirmation(f, u) && !f.Connected?
  }

  lemma StartedGood(s: System)
    requires Started(s)
    ensures Good(s)
  {
    hide Exclusive, Queues;
    var ids := DirectoryOf(s.w).users[s.c.user].subs;
    assert UserIndex(DirectoryOf(s.w), s.c.user);
    IgnoredFrames(s.c, InFlight(s));
    assert Decimal(0) == SELF_ID;
    assert UpTo(SELF_ID, 1);
    forall i | 0 <= i <= |InFlight(s)| ensures TableOk(VisitAll(s.c, InFlight(s)[..i])) {
      IgnoredFrames(s.c, InFlight(s)[..i]);
    }
  }

  /** Client and server agree: at every step of every run, handling what is in
      flight would make the client's map the inverse of the server's; so the two
      agree whenever nothing is in flight, however follows, unfollows and posts
      are pipelined and whatever other sessions do. */
  lemma ClientServerAgreement(s: System, actions: seq<Action>)
    requires Started(s) && EnabledRun(s, actions)
    ensures var v := RunAll(s, actions);
            s.c.user in v.w.users && Mirror(Settled(v).subs, v.w.users[s.c.user].subs) &&
            (InFlight(v) == [] ==> Mirror(v.c.subs, v.w.users[s.c.user].subs))
  {
    hide Step, Started, Enabled, TableOk, RequestsOk, OrderOk, Inv, AcceptedOk;
    StartedGood(s);
    RunAllOk(s, actions);
    var v := RunAll(s, actions);
    HeldSession(v.w, v.k, s.c.user);
    assert InFlight(v) == [] ==> Settled(v) == v.c;
  }

  /** Id discipline: although pipelined follows may carry the same id, the server
      accepts "2", "3", "4" and so on, each once and in this order, and the
      client's map never has two users under one id. */
  lemma IdDiscipline(s: System, actions: seq<Action>)
    requires Started(s) && EnabledRun(s, actions)
    ensures var v := RunAll(s, actions);
            (forall j :: 0 <= j < |v.accepted| ==> v.accepted[j] == Decimal(j + 2)) &&
            (forall i, j :: 0 <= i < j < |v.accepted| ==> v.accepted[i] != v.accepted[j]) &&
            Injective(v.c.subs)
  {
    hide Step, Started, Enabled, RequestsOk, OrderOk, Inv, Protocol, Held;
    StartedGood(s);
    RunAllOk(s, actions);
    var v := RunAll(s, actions);
    forall i, j | 0 <= i < j < |v.accepted| ensures v.accepted[i] != v.accepted[j] {
      if v.accepted[i] == v.accepted[j] { DecimalInjective(i + 2, j + 2); }
    }
    assert InFlight(v)[..0] == [] && VisitAll(v.c, InFlight(v)[..0]) == v.c;
    assert TableOk(VisitAll(v.c, InFlight(v)[..0]));
  }

  /** Every accepted follow's confirmation registers when it is handled: the
      settled table gains exactly that user under that id. */
  lemma ConfirmedFollowRegisters(s: System, actions: seq<Action>, a: Action)
    requires Started(s) && EnabledRun(s, actions) && a.Serve? && Enabled(RunAll(s, actions), a)
    ensures var v := RunAll(s, actions);
            v.requests != [] && Accepts(DirectoryOf(v.w), s.c.user, v.requests[0]) ==>
              var n, id := StripTopics(v.requests[0].destination), v.requests[0].id;
              n !in Settled(v).subs &&
              Settled(Next(v, a)) == Settled(v).(subs := Settled(v).subs[n := id], uid := Settled(v).uid + 1)
  {
    hide Step, Started, Enabled, TableOk, Held, Inv, AcceptedOk;
    StartedGood(s);
    RunAllOk(s, actions);
    var v := RunAll(s, actions);
    if v.requests != [] && Accepts(DirectoryOf(v.w), s.c.user, v.requests[0]) {
      ServeOk(v, a);
      HeldSession(v.w, v.k, s.c.user);
      assert RequestOk(v.requests[0], v.c, Settled(v).uid, Settled(v).subs, DirectoryOf(v.w).users[s.c.user].subs);
      DistinctNext(Settled(v).uid);
    }
  }

  /** e is a CONNECT as u that succeeds: a registration, or a login of a user who is
      offline with the right password. */
  ghost predicate Enters(w: World, e: Event, u: string)
  {
    e.Receive? && e.frame.Connect? && e.frame.login == u && (u !in w.users || (Offline(w, u) && LogsIn(w, e, u)))
  }

  /** The first login of a client leads to such a start, whether or not the server
      knows the user: the client, its map still empty, handles CONNECTED, and the
      backlog, if any, is what remains in flight. */
  lemma LoginStarts(w: World, k: nat, u: string, e: Event, c: ClientState)
    requires Reachable(w) && Allowed(w, e) && Fresh(w, k) && Enters(w, e, u) && e.session == k
    requires c.user == u && c.subs.Keys == {} && c.uid == 0
    ensures Started(System(Step(w, e), k, Visit(c, Connected), [], |w.sessions[k].out| + 1, []))
  {
    hide Step, DirectoryStep, Indexes, Exclusive, Queues, Allowed;
    ReachableInv(w);
    StepKeeps(w, e);
    StepDirectory(w, e);
    var v, read := Step(w, e), |w.sessions[k].out| + 1;
    if u in w.users {
      LoginOutput(w, k, u, e);
      LoginSubs(w, k, u, e);
      BacklogIgnored(w, u);
      assert v.sessions[k].out[read..] == ToFrames(w.users[u].messages);
    } else {
      FirstLoginOutput(w, k, u, e);
      RegisteredSubs(w, k, u, e);
      assert v.sessions[k].out[read..] == [];
    }
    assert DirectoryOf(v).users[u].session.Some?;
  }

  lemma RegisteredSubs(w: World, k: nat, u: string, e: Event)
    requires Allowed(w, e) && Fresh(w, k) && Enters(w, e, u) && e.session == k && u !in w.users
    ensures u in DirectoryStep(DirectoryOf(w), e).users &&
            DirectoryStep(DirectoryOf(w), e).users[u].subs.Keys == {SELF_ID}
  {
    assert k in DirectoryOf(w).sessions && u !in DirectoryOf(w).users;
  }

  /** A later login of the same client does not start from agreement: the call meant
      to clear the client's map only asks whether it is empty, while the server
      has reset the user. The two agree exactly when there was nothing to clear. */
  lemma LaterLogin(w: World, k: nat, u: string, e: Event, c: ClientState)
    requires Reachable(w) && Allowed(w, e) && Fresh(w, k) && Offline(w, u) && LogsIn(w, e, u) && e.session == k
    requires c.user == u && TableOk(c)
    ensures u in Step(w, e).users
    ensures Mirror(Visit(c, Connected).subs, Step(w, e).users[u].subs) <==> c.subs.Keys == {u}
  {
    hide Step, DirectoryStep, Indexes, Exclusive, Queues, Allowed;
    ReachableInv(w);
    StepKeeps(w, e);
    StepDirectory(w, e);
    LoginSubs(w, k, u, e);
    var v := Step(w, e);
    assert DirectoryOf(v).users[u].subs == v.users[u].subs;
    OwnSubscription(v, u);
    var names, ids := c.subs, v.users[u].subs;
    assert ids.Keys == {SELF_ID} && ids[SELF_ID] == u;
    if Mirror(names, ids) {
      forall n | n in names ensures n == u { assert names[n] in ids; }
    }
  }

  lemma LoginSubs(w: World, k: nat, u: string, e: Event)
    requires Inv(w) && Allowed(w, e) && Fresh(w, k) && Offline(w, u) && LogsIn(w, e, u) && e.session == k
    ensures u in DirectoryStep(DirectoryOf(w), e).users &&
            DirectoryStep(DirectoryOf(w), e).users[u].subs.Keys == {SELF_ID}
  {
    var d := DirectoryOf(w);
    assert d.users[u].session == w.users[u].session && d.users[u].password == w.users[u].password && UserIndex(d, u);
    assert k in d.sessions;
  }

  lemma BacklogIgnored(w: World, u: string)
    requires Inv(w) && u in w.users
    ensures forall f :: f in ToFrames(w.users[u].messages) ==> f.MessageFrame? && !Confirmation(f, u)
  {
    assert UserQueue(u, w.users[u]);
    PostsOfMessages(w.users[u].messages, u);
  }

  // ------------------------------------------------- where agreement would fail

  /** The name in a follow confirmation is the second word of its text. */
  lemma ConfirmedName(n: string)
    requires Word(n)
    ensures SecondWord("following " + n) == n && SecondWord("unfollowing " + n) == n
  {
    hide SecondWord;
    SecondOfTwo("following", n, "");
    SecondOfTwo("unfollowing", n, "");
    assert "following" + " " + n + "" == "following " + n;
    assert "unfollowing" + " " + n + "" == "unfollowing " + n;
  }

  /** An id the client has not used yet is not in the inverse map either. */
  lemma NewId(c: ClientState, ids: map<string, string>)
    requires TableOk(c) && Mirror(c.subs, ids)
    ensures Identifier(c) !in ids
  {
    var id := Identifier(c);
    if id in ids {
      assert ids[id] in c.subs && c.subs[ids[id]] == id;
      UpToDistinct(id, c.uid, c.uid + 1);
    }
  }

  lemma FollowConfirmed(c: ClientState, ids: map<string, string>, n: string, id: string)
    requires TableOk(c) && Mirror(c.subs, ids) && SELF_ID in ids && id !in ids && Word(n)
    ensures Visit(c, Confirm(c.user, id, "following " + n)) == Register(c, id, n)
  {
    hide SecondWord;
    NoUser(c, ids, id);
    ConfirmedName(n);
  }

  /** The follow guard compares the argument as typed, but the server removes
      every "/topic/" from it. From agreement with nothing in flight, following
      an existing other user n that way and handling the confirmation keeps the
      maps inverse if and only if n was not in the client's map already. */
  lemma FollowUnderAnotherSpelling(c: ClientState, ids: map<string, string>, arg: string)
    requires TableOk(c) && Mirror(c.subs, ids) && SELF_ID in ids && FollowRequest(c, arg).Some?
    requires Word(StripTopics(arg)) && StripTopics(arg) != c.user
    ensures var n, id := StripTopics(arg), Identifier(c);
            id !in ids &&
            (Mirror(Visit(c, Confirm(c.user, id, "following " + n)).subs, ids[id := n]) <==> n !in c.subs)
  {
    hide SecondWord, TableOk, Visit, Confirm;
    var n, id := StripTopics(arg), Identifier(c);
    NewId(c, ids);
    FollowConfirmed(c, ids, n, id);
    if n in c.subs {
      assert c.subs[n] != id;
      assert ids[id := n][id] == n;
    } else {
      AcceptMirror(c.subs, ids, n, id);
    }
  }

  /** The empty string stands for "no such user": an unfollow confirmation
      removes the entry given up if and only if its name is not empty. */
  lemma UnfollowOfTheEmptyName(c: ClientState, n: string)
    requires Injective(c.subs) && n in c.subs && n != c.user && c.subs[n] != SELF_ID
    ensures Visit(c, Confirm(c.user, c.subs[n], "unfollowing " + n)).subs == c.subs - {n} <==> n != ""
  {
    if n == "" { ConfirmedName(n); }
    hide SecondWord;
    OnlyUserOf(c, n);
    assert n !in c.subs - {n};
  }
}
