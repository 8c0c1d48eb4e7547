/** The server's state as a value, and one protocol step as a function of it.
    Users, topics and sessions refer to each other by name or number; the
    classes in Engine.dfy hold the references and are proved against this. */
module World {
  import opened Text
  import opened Mentions

  const SELF_ID := "0"
  const SERVER := "server"
  const TOPICS_LOCATION := "/topic/"

  const NO_TOPIC_TEXT := "FATAL Error! Please contact " + "server administator ASAP"
  const ON_BEHALF_TEXT :=
    "You cannot post on behalf " + "other user.\nThis action was " + "reported to the server " + "administator."

  datatype Message = Message(topic: string, id: string, text: string)

  /** What a session reads: a parsed frame, or the error the parser reports. */
  datatype ClientFrame =
    | Connect(login: string, passcode: string)
    | Disconnect(receipt: string)
    | Subscribe(destination: string, id: string)
    | Unsubscribe(id: string)
    | Send(destination: string, body: string)
    | Invalid(message: string, body: string)

  datatype ServerFrame =
    | Connected
    | Error(message: string, body: string)
    | Receipt(receiptId: string)
    | MessageFrame(destination: string, subscription: string, body: string)

  datatype Reply<+T> = Done(value: T) | Thrown(error: ServerFrame)

  datatype UserState = UserState(password: string, session: Option<nat>, messages: seq<Message>,
          subs: map<string, string>)

  datatype TopicState = TopicState(subscribers: map<string, string>, owner: Option<string>, posted: nat, mentions: nat,
          mentioned: nat)

  /** out is everything handed to the connection's output buffer so far. */
  datatype Session = Session(user: Option<string>, closing: bool, queue: seq<ServerFrame>, out: seq<ServerFrame>)

  datatype World = World(users: map<string, UserState>, topics: map<string, TopicState>, sessions: map<nat, Session>,
          total: nat)

  /** Java iterates its hash maps in an order of their own: order[t] is the
      order in which topic t's subscribers are visited during this event.
      report is the text of the "clients" and "stats" answers. */
  datatype Event =
    | Open(session: nat)
    | Receive(session: nat, frame: ClientFrame, report: string, order: map<string, seq<string>>)

  /** The engine as its constructor leaves it: the server topic and nothing else. */
  ghost predicate Initial(w: World)
  {
    w.users.Keys == {} && w.sessions.Keys == {} && w.total == 0 && w.topics.Keys == {SERVER} &&
    w.topics[SERVER].subscribers.Keys == {} && w.topics[SERVER].owner == None &&
    w.topics[SERVER].posted == 0 && w.topics[SERVER].mentions == 0 && w.topics[SERVER].mentioned == 0
  }

  /** `destination.replace("/topic/", "")`: every occurrence goes. */
  function StripTopics(s: string): (r: string)
    ensures |r| <= |s|
    ensures forall c :: c in r ==> c in s
  {
    if s == "" then ""
    else if TOPICS_LOCATION <= s then StripTopics(s[|TOPICS_LOCATION|..])
    else [s[0]] + StripTopics(s[1..])
  }

  /** "/topic/" begins at position i of s. */
  predicate TopicAt(s: string, i: nat) { i + 7 <= |s| && s[i..i + 7] == "/topic/" }

  lemma TopicInFront(s: string)
    ensures TopicAt(s, 0) <==> TOPICS_LOCATION <= s
  {
  }

  lemma TopicFurther(s: string, j: nat)
    requires s != ""
    ensures TopicAt(s[1..], j) <==> TopicAt(s, j + 1)
  {
    if j + 8 <= |s| { assert s[1..][j..j + 7] == s[j + 1..j + 8]; }
  }

  /** The leftmost "/topic/" goes and the rest is searched from behind it; without
      one nothing goes. */
  lemma {:induction false} StripsLeftmost(s: string, i: nat)
    requires i <= |s| && forall j: nat :: j < i ==> !TopicAt(s, j)
    ensures if TopicAt(s, i) then i + 7 <= |s| && StripTopics(s) == s[..i] + StripTopics(s[i + 7..])
            else i == |s| ==> StripTopics(s) == s
  {
    if i > 0 {
      hide TopicAt;
      TopicInFront(s);
      var t := s[1..];
      forall j: nat | j < i - 1 ensures !TopicAt(t, j) { TopicFurther(s, j); }
      StripsLeftmost(t, i - 1);
      TopicFurther(s, i - 1);
      if TopicAt(t, i - 1) {
        assert t[i + 6..] == s[i + 7..];
        assert [s[0]] + t[..i - 1] == s[..i];
      }
    } else if TopicAt(s, 0) {
      TopicInFront(s);
      assert s[..0] == "";
    }
  }

  // ---------------------------------------------------------------- output

  function ToFrame(m: Message): ServerFrame
  {
    MessageFrame(TOPICS_LOCATION + m.topic, m.id, m.text)
  }

  function ToFrames(ms: seq<Message>): (fs: seq<ServerFrame>)
    ensures |fs| == |ms| && forall i :: 0 <= i < |ms| ==> fs[i] == ToFrame(ms[i])
  {
    seq(|ms|, i requires 0 <= i < |ms| => ToFrame(ms[i]))
  }

  /** The handler's send: queue the frames, and if the session is authorized
      pass the whole queue on. */
  function Hand(s: Session, fs: seq<ServerFrame>): Session
  {
    if s.user.Some? then s.(queue := [], out := s.out + s.queue + fs) else s.(queue := s.queue + fs)
  }

  function SendTo(s: Session, f: ServerFrame): Session { s.(out := s.out + [f]) }

  function HandTo(w: World, k: nat, fs: seq<ServerFrame>): World
  {
    if k in w.sessions then w.(sessions := w.sessions[k := Hand(w.sessions[k], fs)]) else w
  }

  /** User.flushMessages: a connected user's queue moves to the session. */
  function Flush(w: World, u: string): World
  {
    if u in w.users && w.users[u].session.Some? then
      HandTo(w, w.users[u].session.value, ToFrames(w.users[u].messages))
        .(users := w.users[u := w.users[u].(messages := [])])
    else w
  }

  /** User.send */
  function Deliver(w: World, u: string, m: Message): World
  {
    if u in w.users then
      Flush(w.(users := w.users[u := w.users[u].(messages := w.users[u].messages + [m])]), u)
    else w
  }

  type Delivery = (string, Message)

  function DeliverAll(w: World, ds: seq<Delivery>): World
  {
    if ds == [] then w else
      var d := ds[|ds| - 1];
      Deliver(DeliverAll(w, ds[..|ds| - 1]), d.0, d.1)
  }

  // ------------------------------------------------------------------ login

  function SetSession(w: World, u: string, k: Option<nat>): World
  {
    if u in w.users then w.(users := w.users[u := w.users[u].(session := k)]) else w
  }

  /** Topic.removeSubscriber where it does not throw. */
  function DropSubscriber(topics: map<string, TopicState>, t: string, u: string): map<string, TopicState>
  {
    if t in topics then topics[t := topics[t].(subscribers := topics[t].subscribers - {u})] else topics
  }

  /** User.unsubscribe */
  function Leave(w: World, u: string, id: string): Reply<World>
  {
    if u !in w.users || id !in w.users[u].subs then Done(w) else
      var t := w.users[u].subs[id];
      if t == u then Thrown(Error("Cannot unsubscribe", "You cannot unsubscribe from yourself."))
      else Done(w.(users := w.users[u := w.users[u].(subs := w.users[u].subs - {id})],
                   topics := DropSubscriber(w.topics, t, u)))
  }

  /** The loop of User.resetSubscriptionsInfo over ids in the map's own order;
      an exception ends it silently. */
  function Reset(w: World, u: string, ids: seq<string>): Reply<World>
  {
    if ids == [] then Done(w) else
      match Reset(w, u, ids[..|ids| - 1])
      case Thrown(e) => Thrown(e)
      case Done(v) =>
        var id := ids[|ids| - 1];
        if id == SELF_ID then Done(v) else Leave(v, u, id)
  }

  /** What the reset loop comes to: only the subscription under "0" is left,
      and no topic but the user's own lists the user. */
  function ResetTo(w: World, u: string): World
  {
    if u !in w.users then w else
      var subs := w.users[u].subs;
      w.(users := w.users[u := w.users[u].(subs := map id | id in subs && id == SELF_ID :: subs[id])],
         topics := map t | t in w.topics ::
           if t == u then w.topics[t] else w.topics[t].(subscribers := w.topics[t].subscribers - {u}))
  }

  function NewUser(w: World, k: nat, login: string, passcode: string): World
  {
    w.(users := w.users[login := UserState(passcode, Some(k), [], map[SELF_ID := login])],
       topics := w.topics[login := TopicState(map[login := SELF_ID], Some(login), 0, 0, 0)])
  }

  /** TwitterEngine.connect */
  function EngineConnect(w: World, k: nat, login: string, passcode: string): (World, Reply<string>)
  {
    if login in w.users then
      if w.users[login].session.Some? then
        (SetSession(w, login, Some(k)), Thrown(Error("Already logged in", "")))
      else if passcode == w.users[login].password then
        (ResetTo(Flush(SetSession(w, login, Some(k)), login), login), Done(login))
      else (w, Thrown(Error("Login Error", "Password is wrong")))
    else (NewUser(w, k, login, passcode), Done(login))
  }

  // ----------------------------------------------------------- subscriptions

  function EngineSubscribe(w: World, u: string, id: string, name: string): Reply<World>
    requires u in w.users
  {
    if name == u then Thrown(Error("Subscribe", "You cannot following on yourself."))
    else if name !in w.topics then Thrown(Error("Subscribe", "Topic was not found."))
    else if id in w.users[u].subs then Thrown(Error("Subscribe", "Already Following"))
    else Done(w.(users := w.users[u := w.users[u].(subs := w.users[u].subs[id := name])],
                 topics := w.topics[name := w.topics[name].(subscribers := w.topics[name].subscribers[u := id])]))
  }

  function EngineUnsubscribe(w: World, u: string, id: string): Reply<(World, string)>
    requires u in w.users
  {
    if id in w.users[u].subs then
      match Leave(w, u, id)
      case Thrown(e) => Thrown(e)
      case Done(v) => Done((v, w.users[u].subs[id]))
    else Thrown(Error("Unsubscription error", "User does not have subscription id #" + id))
  }

  // ----------------------------------------------------------------- posting

  /** One call of User.send for each subscriber in turn who is not excepted. */
  function DeliverList(subs: map<string, string>, t: string, text: string, order: seq<string>,
          except: set<string>): seq<Delivery>
  {
    if order == [] then [] else
      var u := order[|order| - 1];
      var before := DeliverList(subs, t, text, order[..|order| - 1], except);
      if u in subs && u !in except then before + [(u, Message(t, subs[u], text))] else before
  }

  function OrderOf(order: map<string, seq<string>>, t: string): seq<string>
  {
    if t in order then order[t] else []
  }

  function CountPost(w: World, t: string): World
  {
    if t in w.topics then w.(topics := w.topics[t := w.topics[t].(posted := w.topics[t].posted + 1)]) else w
  }

  /** Topic.send */
  function TopicSend(w: World, t: string, text: string, order: seq<string>, except: set<string>): World
  {
    if t in w.topics then
      CountPost(DeliverAll(w, DeliverList(w.topics[t].subscribers, t, text, order, except)), t)
    else w
  }

  function CountMention(w: World, p: string): World
  {
    if p in w.topics then w.(topics := w.topics[p := w.topics[p].(mentions := w.topics[p].mentions + 1)]) else w
  }

  function CountMentioned(w: World, t: string): World
  {
    if t in w.topics then w.(topics := w.topics[t := w.topics[t].(mentioned := w.topics[t].mentioned + 1)]) else w
  }

  /** One turn of the loop over the mentions found in a tweet by p. */
  function SendMention(w: World, p: string, t: string, text: string, order: seq<string>, except: set<string>): World
  {
    var v := CountMention(w, p);
    if t in v.topics then CountMentioned(TopicSend(v, t, text, order, except), t) else v
  }

  function SendMentions(w: World, p: string, text: string, names: seq<string>, order: map<string, seq<string>>,
          except: set<string>): World
  {
    if names == [] then w else
      var t := names[|names| - 1];
      SendMention(SendMentions(w, p, text, names[..|names| - 1], order, except), p, t, text, OrderOf(order, t), except)
  }

  function Tweet(w: World, p: string, text: string, order: map<string, seq<string>>): World
  {
    var except := if p in w.topics then w.topics[p].subscribers.Keys else {};
    var v := SendMentions(TopicSend(w, p, text, OrderOf(order, p), {}), p, text, FindMentions(text), order, except);
    v.(total := v.total + 1)
  }

  function WithoutReturns(s: string): string
  {
    if s == "" then "" else if s[0] == '\r' then WithoutReturns(s[1..]) else [s[0]] + WithoutReturns(s[1..])
  }

  function ServerCommand(text: string): string { WithoutReturns(Trim(text)) }

  function Answer(text: string, report: string): string
  {
    if "clients" <= ServerCommand(text) || ServerCommand(text) == "stats" then report else ""
  }

  function LogoutAll(w: World): World
  {
    w.(users := map u | u in w.users :: w.users[u].(session := None))
  }

  /** TwitterEngine.processServerMessage */
  function ServerMessage(w: World, text: string, report: string, order: map<string, seq<string>>): World
  {
    if ServerCommand(text) == "stop" then LogoutAll(w)
    else TopicSend(w, SERVER, Answer(text, report), OrderOf(order, SERVER), {})
  }

  /** TwitterEngine.send */
  function EngineSend(w: World, p: string, dest: string, text: string, report: string,
          order: map<string, seq<string>>): Reply<World>
  {
    if dest !in w.topics then Thrown(Error("No topic found", NO_TOPIC_TEXT))
    else if dest == SERVER then Done(ServerMessage(w, text, report, order))
    else if p != dest then Thrown(Error("Oops.", ON_BEHALF_TEXT))
    else Done(Tweet(w, p, text, order))
  }

  // ---------------------------------------------------------------- protocol

  function SetUser(w: World, k: nat, u: Option<string>): World
  {
    if k in w.sessions then w.(sessions := w.sessions[k := w.sessions[k].(user := u)]) else w
  }

  function Logout(w: World, k: nat): World
    requires k in w.sessions
  {
    var s := w.sessions[k];
    var v := if s.user.Some? then SetSession(w, s.user.value, None) else w;
    v.(sessions := v.sessions[k := s.(user := None, closing := true)])
  }

  function Confirm(u: string, id: string, text: string): ServerFrame
  {
    MessageFrame(TOPICS_LOCATION + u, id, text)
  }

  /** The requests of a logged-in user u: the new state and the reply, if any. */
  function Request(w: World, u: string, f: ClientFrame, report: string,
          order: map<string, seq<string>>): (World, Option<ServerFrame>)
    requires u in w.users
  {
    match f
    case Subscribe(destination, id) =>
      (match EngineSubscribe(w, u, id, StripTopics(destination))
      case Thrown(e) => (w, Some(e))
      case Done(v) => (v, Some(Confirm(u, id, "following " + StripTopics(destination)))))
    case Unsubscribe(id) =>
      (match EngineUnsubscribe(w, u, id)
      case Thrown(e) => (w, Some(e))
      case Done(r) => (r.0, Some(Confirm(u, id, "unfollowing " + r.1))))
    case Send(destination, body) =>
      (match EngineSend(w, u, StripTopics(destination), body, report, order)
      case Thrown(e) => (w, Some(e))
      case Done(v) => (v, None))
    case _ => (w, None)
  }

  /** StompProtocol.processMessage */
  function Process(w: World, k: nat, f: ClientFrame, report: string,
          order: map<string, seq<string>>): (World, Option<ServerFrame>)
    requires k in w.sessions
  {
    match f
    case Invalid(message, body) => (w, Some(Error(message, body)))
    case Disconnect(receipt) => (Logout(w, k), Some(Receipt(receipt)))
    case Connect(login, passcode) =>
      (var (v, r) := EngineConnect(w, k, login, passcode);
      match r
      case Thrown(e) => (v, Some(e))
      case Done(u) => (SetUser(v, k, Some(u)), Some(Connected)))
    case _ =>
      if w.sessions[k].user.None? || w.sessions[k].user.value !in w.users then
        (w, Some(Error("Action cannot be completed. Please login.", "")))
      else
        Request(w, w.sessions[k].user.value, f, report, order)
  }

  /** The rest of ProtocolTask.run's loop body: hand the reply to the output
      buffer, and after CONNECTED flush what waited in the handler. */
  function Respond(w: World, k: nat, reply: Option<ServerFrame>): World
  {
    if k !in w.sessions || reply.None? then w else
      var v := w.(sessions := w.sessions[k := SendTo(w.sessions[k], reply.value)]);
      if reply.value.Connected? then HandTo(v, k, []) else v
  }

  function Step(w: World, e: Event): World
  {
    match e
    case Open(k) => if k in w.sessions then w else w.(sessions := w.sessions[k := Session(None, false, [], [])])
    case Receive(k, f, report, order) =>
      if k !in w.sessions then w else
        var (v, reply) := Process(w, k, f, report, order);
        Respond(v, k, reply)
  }

  function Run(w: World, es: seq<Event>): World
  {
    if es == [] then w else Step(Run(w, es[..|es| - 1]), es[|es| - 1])
  }
}
