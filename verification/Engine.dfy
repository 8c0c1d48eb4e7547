/** The server's objects as they are: users, topics, sessions and the engine,
    referring to each other and updated in place. Every method is proved against
    the state functions of World.dfy. */
module Engine {
  import opened Text
  import opened World
  import opened Mentions
  import opened Invariants
  import Subscriptions
  import Tokenizers

  // ------------------------------------------------------------ the connection

  /** The reactor's ConnectionHandler: the queue of frames that wait for the
      session to be authorized, and the buffers that wait for the socket. */
  class ConnectionHandler {
    var protocol: StompProtocol?
    var messagesQueue: seq<ServerFrame>
    var outData: seq<string>
    var open: bool
    var readInterest: bool
    var writeInterest: bool
    /** The tokenizer's getBytesForMessage. */
    const encode: ServerFrame -> string
    /** Frames handed to addOutData, and bytes the socket has taken. */
    ghost var handed: seq<ServerFrame>
    ghost var wire: string

    /** Output conservation: the bytes written and those still pending are, in
        order, the bytes of all frames handed over; and while the connection is
        open, pending data means that write interest is set. */
    ghost predicate OutputOk()
      reads this
    {
      wire + Tokenizers.Concat(outData) == Encoded(encode, handed) && (open && outData != [] ==> writeInterest)
    }

    constructor (encode: ServerFrame -> string)
      ensures OutputOk() && protocol == null && messagesQueue == [] && handed == [] && wire == "" && open
    {
      this.encode := encode;
      protocol, messagesQueue, outData, open, readInterest, writeInterest := null, [], [], true, true, false;
      handed, wire := [], "";
    }

    method AddOutData(f: ServerFrame)
      requires OutputOk()
      modifies this`outData, this`readInterest, this`writeInterest, this`handed
      ensures OutputOk() && handed == old(handed) + [f] && outData == old(outData) + [encode(f)]
    {
      EncodedSnoc(encode, handed, f);
      Tokenizers.ConcatSnoc(outData, encode(f));
      outData := outData + [encode(f)];
      handed := handed + [f];
      assert wire + (Tokenizers.Concat(old(outData)) + encode(f)) == wire + Tokenizers.Concat(old(outData)) + encode(f);
      readInterest, writeInterest := true, true;
    }

    /** One attempt to write, where the socket has room for so many bytes, and for
        none when it is closed. In closing state the connection is closed as soon
        as one buffer has gone out, whatever is pending behind it: everything has
        then been written exactly when that was the last one with bytes in it. */
    method Write(room: nat)
      requires OutputOk() && protocol != null
      modifies this`outData, this`open, this`readInterest, this`writeInterest, this`wire
      ensures OutputOk()
      ensures old(outData) == [] ==> unchanged(`outData, `open, `wire) && readInterest && !writeInterest
      ensures old(outData) != [] ==>
                var buf := old(outData)[0];
                var taken := if room < |buf| then room else |buf|;
                if !old(open) && buf != "" then
                  unchanged(`outData, `open, `wire)
                else
                  wire == old(wire) + buf[..taken] &&
                  outData == (if taken < |buf| then [buf[taken..]] else []) + old(outData)[1..] &&
                  open == (old(open) && !(protocol.shouldClose && taken == |buf|))
      ensures old(open) && !open ==> (wire == Encoded(encode, handed) <==> Tokenizers.Concat(old(outData)[1..]) == "")
      ensures old(outData) != [] ==>
                if protocol.shouldClose then !readInterest && writeInterest
                else unchanged(`readInterest, `writeInterest)
    {
      if |outData| == 0 {
        readInterest, writeInterest := true, false;
        return;
      }
      var buf := outData[0];
      outData := outData[1..];
      if buf != "" {
        var taken := if !open then 0 else if room < |buf| then room else |buf|;
        wire := wire + buf[..taken];
        buf := buf[taken..];
        if buf != "" {
          outData := [buf] + outData;
        }
        PartlyTaken(old(wire), old(outData), taken, outData);
        assert taken == 0 ==> wire == old(wire) && outData == old(outData);
      } else {
        assert old(wire) + ("" + Tokenizers.Concat(outData)) == old(wire) + Tokenizers.Concat(outData);
      }
      if protocol.shouldClose {
        readInterest, writeInterest := false, true;
        if buf == "" {
          open := false;
        }
      }
    }

    /** Queue a frame and pass the queue on if the session is authorized. */
    method Send(frame: ServerFrame)
      requires OutputOk() && protocol != null
      modifies this`messagesQueue, this`outData, this`open, this`readInterest, this`writeInterest, this`handed
      modifies this`wire
      ensures OutputOk()
      ensures if protocol.currentUser != null
              then messagesQueue == [] && handed == old(handed) + old(messagesQueue) + [frame]
              else messagesQueue == old(messagesQueue) + [frame] && handed == old(handed)
    {
      messagesQueue := messagesQueue + [frame];
      FlushMessages();
    }

    method FlushMessages()
      requires OutputOk() && protocol != null
      modifies this`messagesQueue, this`outData, this`open, this`readInterest, this`writeInterest, this`handed
      modifies this`wire
      ensures OutputOk()
      ensures if protocol.currentUser != null
              then messagesQueue == [] && handed == old(handed) + old(messagesQueue)
              else messagesQueue == old(messagesQueue) && handed == old(handed)
    {
      if protocol.currentUser != null {
        while |messagesQueue| > 0
          invariant OutputOk() && handed + messagesQueue == old(handed) + old(messagesQueue)
          decreases |messagesQueue|
        {
          var frame := messagesQueue[0];
          messagesQueue := messagesQueue[1..];
          AddOutData(frame);
          var room: nat := *;
          Write(room);
        }
        assert handed + [] == handed;
      }
    }
  }

  /** A message is pending when the client disconnects: the connection closes behind
      the message, and the receipt is never written. */
  method LostReceipt(protocol: StompProtocol, message: ServerFrame, receipt: string)
    requires protocol.connection.protocol == protocol && protocol.connection.OutputOk()
    requires protocol.connection.open && protocol.connection.outData == []
    requires protocol.connection.encode(message) != "" && protocol.connection.encode(Receipt(receipt)) != ""
    modifies protocol`shouldClose, protocol.connection
    ensures var c := protocol.connection;
            !c.open && c.handed == old(c.handed) + [message, Receipt(receipt)] &&
            c.wire == old(c.wire) + c.encode(message) && c.outData == [c.encode(Receipt(receipt))] &&
            c.wire != Encoded(c.encode, c.handed)
  {
    var c := protocol.connection;
    c.AddOutData(message);
    protocol.shouldClose := true;
    c.AddOutData(Receipt(receipt));
    c.Write(|c.outData[0]|);
    assert Tokenizers.Concat([c.encode(Receipt(receipt))]) == c.encode(Receipt(receipt)) + "";
  }

  function Encoded(encode: ServerFrame -> string, fs: seq<ServerFrame>): string
  {
    if fs == [] then "" else Encoded(encode, fs[..|fs| - 1]) + encode(fs[|fs| - 1])
  }

  lemma EncodedSnoc(encode: ServerFrame -> string, fs: seq<ServerFrame>, f: ServerFrame)
    ensures Encoded(encode, fs + [f]) == Encoded(encode, fs) + encode(f)
  {
    assert (fs + [f])[..|fs|] == fs;
  }

  lemma PartlyTaken(wire: string, outData: seq<string>, taken: nat, rest: seq<string>)
    requires outData != [] && taken <= |outData[0]|
    requires rest == if outData[0][taken..] == "" then outData[1..] else [outData[0][taken..]] + outData[1..]
    ensures wire + outData[0][..taken] + Tokenizers.Concat(rest) == wire + Tokenizers.Concat(outData)
  {
    var b, more := outData[0], Tokenizers.Concat(outData[1..]);
    assert b == b[..taken] + b[taken..];
    assert Tokenizers.Concat(rest) == b[taken..] + more by {
      if b[taken..] != "" { assert rest[1..] == outData[1..]; } else { assert "" + more == more; }
    }
    assert wire + b[..taken] + (b[taken..] + more) == wire + (b[..taken] + b[taken..] + more);
  }

  // ------------------------------------------------------------------- sessions

  class StompProtocol {
    /** Which session this is. */
    const id: nat
    const connection: ConnectionHandler
    var currentUser: User?
    var shouldClose: bool

    constructor (id: nat, connection: ConnectionHandler)
      ensures this.id == id && this.connection == connection && currentUser == null && !shouldClose
    {
      this.id, this.connection, currentUser, shouldClose := id, connection, null, false;
    }

    ghost function State(): Session
      reads this, connection
    {
      Session(if currentUser == null then None else Some(currentUser.username), shouldClose,
              connection.messagesQueue, connection.handed)
    }

    method SendMessage(from: string, subscriptionId: string, msg: string)
      requires connection.OutputOk() && connection.protocol == this
      modifies connection`messagesQueue, connection`outData, connection`open, connection`readInterest,
               connection`writeInterest, connection`handed, connection`wire
      ensures connection.OutputOk()
      ensures State() == Hand(old(State()), [ToFrame(Message(from, subscriptionId, msg))])
    {
      connection.Send(MessageFrame(TOPICS_LOCATION + from, subscriptionId, msg));
    }

    /** Logs in: the session takes the user the engine lets in. */
    method Connect(login: string, passcode: string, engine: TwitterEngine, ids: seq<string>)
      returns (resultFrame: ServerFrame)
      requires engine.Linked() && engine.SessionKnown(this) && Sound(engine.State())
      requires login in engine.users ==> Enumerates(ids, engine.users[login].subscribedTopics.Keys)
      modifies this`currentUser, this`shouldClose, engine`users, engine`topics
      modifies engine.users.Values`protocol, engine.users.Values`subscribedTopics, engine.topics.Values`subscribers
      modifies engine.users.Values`messages, engine.Connections()
      ensures engine.SessionsLinked() && engine.SessionKnown(this) && engine.OnlyAdded()
      ensures engine.Linked() <==> !(login == SERVER && old(engine.Held(SERVER)))
      ensures var (v, r) := EngineConnect(old(engine.State()), id, login, passcode);
              match r
              case Done(u) => resultFrame == Connected && engine.State() == SetUser(v, id, Some(u))
              case Thrown(e) => resultFrame == e && engine.State() == v
    {
      hide TwitterEngine.Linked, TwitterEngine.SessionsLinked, TwitterEngine.State, TwitterEngine.Held, Sound;
      hide EngineConnect;
      var connResult := engine.Connect(login, passcode, this, ids);
      match connResult {
        case Done(user) =>
          engine.SessionByName(this);
          engine.SetCurrentUser(this, user, shouldClose);
          resultFrame := Connected;
        case Thrown(e) => resultFrame := e;
      }
    }

    method Subscribe(destination: string, subscriptionId: string, engine: TwitterEngine)
      returns (resultFrame: ServerFrame)
      requires engine.Linked() && engine.SessionKnown(this) && currentUser != null && engine.UserKnown(currentUser)
      modifies currentUser`subscribedTopics, engine.topics.Values`subscribers
      ensures engine.Linked()
      ensures match EngineSubscribe(old(engine.State()), currentUser.username, subscriptionId, StripTopics(destination))
              case Done(v) =>
                engine.State() == v &&
                resultFrame == Confirm(currentUser.username, subscriptionId, "following " + StripTopics(destination))
              case Thrown(e) => engine.State() == old(engine.State()) && resultFrame == e
    {
      hide TwitterEngine.Linked, TwitterEngine.State, EngineSubscribe;
      engine.UsersByName(currentUser.username);
      var r := engine.Subscribe(subscriptionId, StripTopics(destination), currentUser);
      match r {
        case Done(_) =>
          resultFrame := MessageFrame(TOPICS_LOCATION + currentUser.username, subscriptionId,
            "following " + StripTopics(destination));
        case Thrown(e) => resultFrame := e;
      }
    }

    method Unsubscribe(subscriptionId: string, engine: TwitterEngine) returns (resultFrame: ServerFrame)
      requires engine.Linked() && engine.SessionKnown(this) && currentUser != null && engine.UserKnown(currentUser)
      modifies currentUser`subscribedTopics, engine.topics.Values`subscribers
      ensures engine.Linked()
      ensures match EngineUnsubscribe(old(engine.State()), currentUser.username, subscriptionId)
              case Done(x) =>
                engine.State() == x.0 &&
                resultFrame == Confirm(currentUser.username, subscriptionId, "unfollowing " + x.1)
              case Thrown(e) => engine.State() == old(engine.State()) && resultFrame == e
    {
      hide TwitterEngine.Linked, TwitterEngine.State, EngineUnsubscribe;
      engine.UsersByName(currentUser.username);
      var r := engine.Unsubscribe(subscriptionId, currentUser);
      match r {
        case Done(unfollowedUser) =>
          resultFrame := MessageFrame(TOPICS_LOCATION + currentUser.username, subscriptionId,
            "unfollowing " + unfollowedUser);
        case Thrown(e) => resultFrame := e;
      }
    }

    method Disconnect(receipt: string, engine: TwitterEngine) returns (resultFrame: ServerFrame)
      requires engine.Linked() && engine.SessionKnown(this)
      modifies this`currentUser, this`shouldClose, engine.users.Values`protocol
      ensures engine.Linked() && id in old(engine.State()).sessions
      ensures engine.State() == Logout(old(engine.State()), id) && resultFrame == Receipt(receipt)
      ensures shouldClose && currentUser == null
    {
      hide TwitterEngine.Linked, TwitterEngine.State;
      engine.SessionsOfLinked();
      engine.SessionByName(this);
      if currentUser != null {
        engine.Attach(currentUser, null);
        engine.SessionsOfLinked();
        engine.SessionByName(this);
      }
      engine.SetCurrentUser(this, null, true);
      resultFrame := Receipt(receipt);
    }

    /** The three requests, which need a user. */
    method ProcessRequest(frame: ClientFrame, engine: TwitterEngine, report: string, order: map<string, seq<User>>)
      returns (resultFrame: Option<ServerFrame>)
      requires engine.Linked() && engine.SessionKnown(this) && engine.OrderKnown(order)
      requires frame.Subscribe? || frame.Unsubscribe? || frame.Send?
      modifies engine`totalMessagesPosted, engine.users.Values, engine.topics.Values, engine.Connections()
      ensures engine.Linked() && id in old(engine.State()).sessions
      ensures (engine.State(), resultFrame) == Process(old(engine.State()), id, frame, report, NamesOf(order))
    {
      hide TwitterEngine.Linked, TwitterEngine.SessionsLinked, TwitterEngine.State, TwitterEngine.OrderKnown;
      hide EngineSubscribe, EngineUnsubscribe, EngineSend, Process;
      engine.SessionsOfLinked();
      engine.SessionByName(this);
      if currentUser == null {
        ProcessIsRefusal(engine.State(), id, frame, report, NamesOf(order));
        return Some(Error("Action cannot be completed. Please login.", ""));
      }
      engine.UsersByName(currentUser.username);
      ProcessIsRequest(engine.State(), id, currentUser.username, frame, report, NamesOf(order));
      match frame {
        case Subscribe(destination, subscriptionId) =>
          var confirmation := Subscribe(destination, subscriptionId, engine);
          resultFrame := Some(confirmation);
        case Unsubscribe(subscriptionId) =>
          var confirmation := Unsubscribe(subscriptionId, engine);
          resultFrame := Some(confirmation);
        case Send(destination, body) =>
          var r := engine.Send(currentUser, StripTopics(destination), body, report, order);
          resultFrame := if r.Thrown? then Some(r.error) else None;
      }
    }

    /** One frame, processed to the end. */
    method ProcessMessage(frame: ClientFrame, engine: TwitterEngine, report: string, order: map<string, seq<User>>,
            ids: seq<string>)
      returns (reply: Option<ServerFrame>)
      requires engine.Linked() && engine.SessionKnown(this) && Sound(engine.State()) && engine.OrderKnown(order)
      requires frame.Connect? && frame.login in engine.users ==>
                 Enumerates(ids, engine.users[frame.login].subscribedTopics.Keys)
      modifies this`currentUser, this`shouldClose, engine`users, engine`topics, engine`totalMessagesPosted
      modifies engine.users.Values, engine.topics.Values, engine.Connections()
      ensures engine.SessionsLinked() && engine.SessionKnown(this) && engine.OnlyAdded() &&
              id in old(engine.State()).sessions
      ensures engine.Linked() <==> !(frame.Connect? && frame.login == SERVER && old(engine.Held(SERVER)))
      ensures (engine.State(), reply) == Process(old(engine.State()), id, frame, report, NamesOf(order))
    {
      hide TwitterEngine.Linked, TwitterEngine.SessionsLinked, TwitterEngine.State, TwitterEngine.OrderKnown;
      hide TwitterEngine.Held;
      hide TwitterEngine.Connections, Sound, EngineConnect, Logout, Process;
      engine.SessionsOfLinked();
      engine.SessionByName(this);
      match frame {
        case Invalid(message, body) =>
          ProcessIsError(engine.State(), id, message, body, report, NamesOf(order));
          reply := Some(Error(message, body));
        case Disconnect(receipt) =>
          ProcessIsLogout(engine.State(), id, receipt, report, NamesOf(order));
          var resultFrame := Disconnect(receipt, engine);
          engine.SessionsOfLinked();
          reply := Some(resultFrame);
        case Connect(login, passcode) =>
          ProcessIsConnect(engine.State(), id, login, passcode, report, NamesOf(order));
          var resultFrame := Connect(login, passcode, engine, ids);
          reply := Some(resultFrame);
        case _ =>
          reply := ProcessRequest(frame, engine, report, order);
          engine.SessionsOfLinked();
      }
    }
  }

  // what processing comes to, branch by branch

  lemma ProcessIsError(w: World, k: nat, message: string, body: string, report: string, order: map<string, seq<string>>)
    requires k in w.sessions
    ensures Process(w, k, Invalid(message, body), report, order) == (w, Some(Error(message, body)))
  {
  }

  lemma ProcessIsLogout(w: World, k: nat, receipt: string, report: string, order: map<string, seq<string>>)
    requires k in w.sessions
    ensures Process(w, k, Disconnect(receipt), report, order) == (Logout(w, k), Some(Receipt(receipt)))
  {
  }

  lemma ProcessIsConnect(w: World, k: nat, login: string, passcode: string, report: string,
          order: map<string, seq<string>>)
    requires k in w.sessions
    ensures var (v, r) := EngineConnect(w, k, login, passcode);
            Process(w, k, ClientFrame.Connect(login, passcode), report, order) ==
              match r
              case Done(u) => (SetUser(v, k, Some(u)), Some(Connected))
              case Thrown(e) => (v, Some(e))
  {
    hide EngineConnect;
  }

  lemma ProcessIsRefusal(w: World, k: nat, f: ClientFrame, report: string, order: map<string, seq<string>>)
    requires k in w.sessions && w.sessions[k].user.None? && (f.Subscribe? || f.Unsubscribe? || f.Send?)
    ensures Process(w, k, f, report, order) == (w, Some(Error("Action cannot be completed. Please login.", "")))
  {
  }

  lemma ProcessIsRequest(w: World, k: nat, u: string, f: ClientFrame, report: string, order: map<string, seq<string>>)
    requires k in w.sessions && w.sessions[k].user == Some(u) && u in w.users &&
             (f.Subscribe? || f.Unsubscribe? || f.Send?)
    ensures Process(w, k, f, report, order) == Request(w, u, f, report, order)
  {
    hide Request;
  }

  // ---------------------------------------------------------------------- users

  class User {
    const username: string
    const password: string
    var protocol: StompProtocol?
    var messages: seq<Message>
    var subscribedTopics: map<string, Topic>

    constructor (username: string, password: string, protocol: StompProtocol)
      ensures this.username == username && this.password == password && this.protocol == protocol
      ensures messages == [] && subscribedTopics.Keys == {}
    {
      this.username, this.password, this.protocol, messages, subscribedTopics := username, password, protocol, [],
        map[];
    }

    ghost function State(): UserState
      reads this
    {
      UserState(password, if protocol == null then None else Some(protocol.id), messages, TopicNames(subscribedTopics))
    }

    predicate IsConnected()
      reads this
    {
      protocol != null
    }

    ghost predicate ConnectionOk()
      reads this, protocol, if protocol == null then {} else {protocol.connection}
    {
      protocol != null ==> protocol.connection.OutputOk() && protocol.connection.protocol == protocol
    }

    method Send(message: Message)
      requires ConnectionOk()
      modifies this`messages, if protocol == null then {} else {protocol.connection}
      ensures ConnectionOk() && messages == (if protocol == null then old(messages) + [message] else [])
      ensures protocol != null ==>
                protocol.connection.protocol == old(protocol.connection.protocol) &&
                protocol.State() == Hand(old(protocol.State()), ToFrames(old(messages) + [message]))
    {
      messages := messages + [message];
      FlushMessages();
    }

    /** Everything in the queue goes to the session, oldest first. */
    method FlushMessages()
      requires ConnectionOk()
      modifies this`messages, if protocol == null then {} else {protocol.connection}
      ensures ConnectionOk() && messages == (if protocol == null then old(messages) else [])
      ensures protocol != null ==>
                protocol.connection.protocol == old(protocol.connection.protocol) &&
                protocol.State() == if old(messages) == [] then old(protocol.State())
                else Hand(old(protocol.State()), ToFrames(old(messages)))
    {
      if protocol != null {
        var i := 0;
        ghost var all := messages;
        while |messages| > 0
          invariant ConnectionOk() && 0 <= i <= |all| && messages == all[i..]
          invariant protocol.connection.protocol == old(protocol.connection.protocol)
          invariant protocol.State() == if i == 0 then old(protocol.State())
                    else Hand(old(protocol.State()), ToFrames(all[..i]))
          decreases |messages|
        {
          var msg := messages[0];
          messages := messages[1..];
          protocol.SendMessage(msg.topic, msg.id, msg.text);
          HandSnoc(old(protocol.State()), all, i);
          i := i + 1;
        }
        assert all[..i] == all;
      }
    }

    method Logout()
      modifies this`protocol
      ensures protocol == null
    {
      protocol := null;
    }

    predicate IsApproved(password: string) { password == this.password }

    method SetProtocol(protocol: StompProtocol?)
      modifies this`protocol
      ensures this.protocol == protocol
    {
      this.protocol := protocol;
    }

    /** Leaves every topic but the user's own, the ids in the map's own order; an
        exception would end the loop, and none comes. */
    method ResetSubscriptionsInfo(ids: seq<string>, engine: TwitterEngine)
      requires engine.Linked() && engine.UserKnown(this) && Sound(engine.State())
      requires Enumerates(ids, subscribedTopics.Keys)
      modifies this`subscribedTopics, engine.topics.Values`subscribers
      ensures engine.Linked() && engine.State() == ResetTo(old(engine.State()), username)
    {
      hide TwitterEngine.Linked, TwitterEngine.State, State, Sound, Reset, Leave, ResetTo;
      engine.SubscriptionsByName(this);
      ghost var w := engine.State();
      Subscriptions.LoginReset(w, username, ids);
      ResetNone(w, username, ids);
      var i, failed := 0, false;
      while i < |ids| && !failed
        invariant 0 <= i <= |ids| && !failed && engine.Linked()
        invariant Reset(w, username, ids[..i]) == Done(engine.State())
        invariant forall j :: i <= j < |ids| ==> ids[j] in subscribedTopics
        decreases |ids| - i
      {
        ResetNext(w, username, ids, i);
        if ids[i] != SELF_ID {
          var r := engine.LeaveTopic(this, ids[i]);
          failed := r.Thrown?;
        }
        i := i + 1;
      }
      assert ids[..i] == ids;
    }

    /** Lets the user in if the password is right: what waited is passed on, and
        the subscriptions are reset. */
    method Login(password: string, protocol: StompProtocol, ids: seq<string>, engine: TwitterEngine)
      returns (isApproved: bool)
      requires engine.Linked() && engine.UserKnown(this) && Sound(engine.State()) && engine.SessionKnown(protocol)
      requires Enumerates(ids, subscribedTopics.Keys)
      modifies this`protocol, this`subscribedTopics, engine.topics.Values`subscribers, engine.users.Values`messages
      modifies engine.Connections()
      ensures engine.Linked() && isApproved == (password == this.password)
      ensures engine.State() ==
                if !isApproved then old(engine.State())
                else ResetTo(Flush(SetSession(old(engine.State()), username, Some(protocol.id)), username), username)
    {
      hide TwitterEngine.Linked, TwitterEngine.State, State, Sound, ResetTo, Flush, SetSession;
      isApproved := IsApproved(password);
      if isApproved {
        engine.NothingQueued(protocol);
        engine.UsersByName(username);
        LoginFlushKeeps(engine.State(), protocol.id, username);
        engine.Attach(this, protocol);
        engine.FlushUser(this);
        ResetSubscriptionsInfo(ids, engine);
      }
    }

    method SubscribeTo(topic: Topic, subscriptionId: string)
      modifies this`subscribedTopics, topic`subscribers
      ensures subscribedTopics == old(subscribedTopics)[subscriptionId := topic]
      ensures topic.subscribers == old(topic.subscribers)[this := subscriptionId]
    {
      subscribedTopics := subscribedTopics[subscriptionId := topic];
      topic.AddSubscriber(this, subscriptionId);
    }

    function Subscription(id: string): Topic
      requires id in subscribedTopics
      reads this
    {
      subscribedTopics[id]
    }

    /** Leaves the topic held under id; one's own topic stays. */
    method Unsubscribe(id: string) returns (r: Reply<()>)
      requires id in subscribedTopics
      modifies this`subscribedTopics, Subscription(id)`subscribers
      ensures var t := old(subscribedTopics)[id];
              if t.topicName == username then
                r == Thrown(Error("Cannot unsubscribe", "You cannot unsubscribe from yourself.")) &&
                subscribedTopics == old(subscribedTopics) && t.subscribers == old(t.subscribers)
              else
                subscribedTopics == old(subscribedTopics) - {id} &&
                (t.topicUser != this ==> r == Done(()) && t.subscribers == old(t.subscribers) - {this})
    {
      var topic := subscribedTopics[id];
      if topic.topicName == username {
        return Thrown(Error("Cannot unsubscribe", "You cannot unsubscribe from yourself."));
      }
      subscribedTopics := subscribedTopics - {id};
      r := topic.RemoveSubscriber(this);
    }
  }

  lemma HandNone(s: Session)
    ensures Hand(s, []) == if s.user.Some? then s.(queue := [], out := s.out + s.queue) else s
  {
    assert s.out + s.queue + [] == s.out + s.queue && s.queue + [] == s.queue;
  }

  lemma HandSnoc(s: Session, all: seq<Message>, i: nat)
    requires i < |all|
    ensures Hand(s, ToFrames(all[..i + 1])) ==
              Hand(if i == 0 then s else Hand(s, ToFrames(all[..i])), [ToFrame(all[i])])
  {
    assert all[..i + 1] == all[..i] + [all[i]];
    assert ToFrames(all[..i + 1]) == ToFrames(all[..i]) + [ToFrame(all[i])];
    assert s.out + s.queue + ToFrames(all[..i]) + [] + [ToFrame(all[i])] == s.out + s.queue + ToFrames(all[..i + 1]);
    assert s.queue + ToFrames(all[..i]) + [ToFrame(all[i])] == s.queue + ToFrames(all[..i + 1]);
  }

  /** Between the flush and the reset of a login the state is sound as well. */
  lemma LoginFlushKeeps(w: World, k: nat, u: string)
    requires Sound(w) && u in w.users && k in w.sessions
    ensures Sound(Flush(SetSession(w, u, Some(k)), u))
  {
    SetSessionKeeps(w, u, k);
    assert UserQueue(u, w.users[u]);
    FlushKeeps(SetSession(w, u, Some(k)), u);
  }

  /** The users of ns are logged out, the others are not. */
  function LogoutSome(w: World, ns: set<string>): World
  {
    w.(users := map u | u in w.users :: if u in ns then w.users[u].(session := None) else w.users[u])
  }

  lemma LogoutNone(w: World)
    ensures LogoutSome(w, {}) == w
  {
    assert LogoutSome(w, {}).users == w.users;
  }

  lemma LogoutOne(w: World, ns: set<string>, n: string)
    requires n in w.users
    ensures LogoutSome(w, ns + {n}) == SetSession(LogoutSome(w, ns), n, None)
  {
    assert LogoutSome(w, ns + {n}).users == SetSession(LogoutSome(w, ns), n, None).users;
  }

  lemma LogoutEvery(w: World)
    ensures LogoutSome(w, w.users.Keys) == LogoutAll(w)
  {
    assert LogoutSome(w, w.users.Keys).users == LogoutAll(w).users;
  }

  lemma ResetNone(w: World, u: string, ids: seq<string>)
    ensures Reset(w, u, ids[..0]) == Done(w)
  {
  }

  /** Where the whole reset succeeds, so does every turn of its loop. */
  lemma {:induction false} ResetNext(w: World, u: string, ids: seq<string>, i: nat)
    requires i < |ids| && Reset(w, u, ids).Done?
    ensures Reset(w, u, ids[..i]).Done? && Reset(w, u, ids[..i + 1]).Done?
    ensures Reset(w, u, ids[..i + 1]) ==
              if ids[i] == SELF_ID then Reset(w, u, ids[..i]) else Leave(Reset(w, u, ids[..i]).value, u, ids[i])
  {
    var n := |ids| - 1;
    if i == n {
      assert ids[..i + 1] == ids;
    } else {
      ResetNext(w, u, ids[..n], i);
      assert ids[..n][..i] == ids[..i] && ids[..n][..i + 1] == ids[..i + 1];
    }
  }

  /** A user's subscriptions with the topics' names for the topics. */
  function TopicNames(subs: map<string, Topic>): map<string, string>
  {
    map id | id in subs :: subs[id].topicName
  }

  /** A subscriber list with the users' names for the users. */
  function ByName(subscribers: map<User, string>, users: map<string, User>): map<string, string>
  {
    map n | n in users && users[n] in subscribers :: subscribers[users[n]]
  }

  lemma NamesPut(subs: map<string, Topic>, id: string, t: Topic)
    ensures TopicNames(subs[id := t]) == TopicNames(subs)[id := t.topicName]
  {
  }

  lemma NamesDrop(subs: map<string, Topic>, id: string)
    ensures TopicNames(subs - {id}) == TopicNames(subs) - {id}
  {
  }

  lemma ByNamePut(subscribers: map<User, string>, users: map<string, User>, n: string, id: string)
    requires n in users && forall m :: m in users && users[m] == users[n] ==> m == n
    ensures ByName(subscribers[users[n] := id], users) == ByName(subscribers, users)[n := id]
  {
  }

  lemma ByNameDrop(subscribers: map<User, string>, users: map<string, User>, n: string)
    requires n in users && forall m :: m in users && users[m] == users[n] ==> m == n
    ensures ByName(subscribers - {users[n]}, users) == ByName(subscribers, users) - {n}
  {
  }

  lemma ByNameNew(subscribers: map<User, string>, users: map<string, User>, n: string, user: User)
    requires n !in users && user !in subscribers
    ensures ByName(subscribers, users[n := user]) == ByName(subscribers, users)
  {
  }

  lemma SelfOnly(subs: map<string, Topic>, subscribers: map<User, string>, user: User, t: Topic,
          users: map<string, User>)
    requires subs.Keys == {SELF_ID} && subs[SELF_ID] == t && subscribers.Keys == {user} && subscribers[user] == SELF_ID
    requires forall n :: n in users && users[n] == user <==> n == user.username
    ensures TopicNames(subs) == map[SELF_ID := t.topicName]
    ensures ByName(subscribers, users) == map[user.username := SELF_ID]
  {
  }

  // --------------------------------------------------------------------- topics

  class Topic {
    const topicName: string
    var subscribers: map<User, string>
    var topicUser: User?
    var totalMessagesPosted: nat
    var totalMentions: nat
    var totalMentioned: nat

    constructor (topicName: string)
      ensures this.topicName == topicName && subscribers.Keys == {} && topicUser == null
      ensures totalMessagesPosted == totalMentions == totalMentioned == 0
    {
      this.topicName, subscribers, topicUser := topicName, map[], null;
      totalMessagesPosted, totalMentions, totalMentioned := 0, 0, 0;
    }

    /** The subscriber list by name, for the users of an engine. */
    ghost function State(users: map<string, User>): TopicState
      reads this
    {
      TopicState(ByName(subscribers, users),
                 if topicUser == null then None else Some(topicUser.username),
                 totalMessagesPosted, totalMentions, totalMentioned)
    }

    method SetTopicUser(user: User)
      modifies this`topicUser, this`subscribers, user`subscribedTopics
      ensures topicUser == user && subscribers == old(subscribers)[user := SELF_ID]
      ensures user.subscribedTopics == old(user.subscribedTopics)[SELF_ID := this]
    {
      topicUser := user;
      subscribers := subscribers[user := SELF_ID];
      user.SubscribeTo(this, SELF_ID);
    }

    method AddSubscriber(user: User, subscriptionId: string)
      modifies this`subscribers
      ensures subscribers == old(subscribers)[user := subscriptionId]
    {
      subscribers := subscribers[user := subscriptionId];
    }

    method RemoveSubscriber(user: User) returns (r: Reply<()>)
      modifies this`subscribers
      ensures topicUser != user ==> r == Done(()) && subscribers == old(subscribers) - {user}
      ensures topicUser == user ==> subscribers == old(subscribers) && r.Thrown? == (user in subscribers)
    {
      r := Done(());
      if user in subscribers {
        if topicUser != user {
          subscribers := subscribers - {user};
        } else {
          r := Thrown(Error("Cannot unsubscribe", "You cannot unsubscribe from yourself."));
        }
      } else {
        assert subscribers - {user} == subscribers;
      }
    }

    /** Sends to every subscriber, in the order the map yields them, who is not
        excepted; returns the names of those it sent to. */
    method Send(message: string, except: seq<string>, order: seq<User>, engine: TwitterEngine)
      returns (delivered: seq<string>)
      requires engine.Linked() && engine.TopicKnown(this)
      requires Visits(order, subscribers.Keys)
      modifies this`totalMessagesPosted, engine.users.Values`messages, engine.Connections()
      ensures engine.Linked() &&
              engine.State() == TopicSend(old(engine.State()), topicName, message, Names(order), set n | n in except)
      ensures forall n :: n in delivered <==> n !in except && n in Names(order)
    {
      hide DeliverAll, DeliverList, Deliver, TwitterEngine.Linked, TwitterEngine.State;
      ghost var w, names := engine.State(), Names(order);
      engine.ListedByName(this);
      ghost var subs := w.topics[topicName].subscribers;
      ghost var excepted := set n | n in except;
      delivered := [];
      DeliverNone(w, subs, topicName, message, names, excepted);
      for i := 0 to |order|
        invariant engine.Linked() && subscribers == old(subscribers) && totalMessagesPosted == old(totalMessagesPosted)
        invariant engine.State() == DeliverAll(w, DeliverList(subs, topicName, message, names[..i], excepted))
        invariant forall n :: n in delivered <==> n !in except && n in names[..i]
      {
        var user := order[i];
        DeliverStep(w, subs, topicName, message, names, i, excepted);
        if user.username !in except {
          engine.SendTo(user, Message(topicName, subscribers[user], message));
          delivered := delivered + [user.username];
        }
        assert names[..i + 1] == names[..i] + [user.username];
      }
      assert names[..|order|] == names;
      IncrementPosted(engine);
      TopicSendIs(w, topicName, message, names, excepted);
    }

    method IncrementPosted(engine: TwitterEngine)
      requires engine.Linked() && engine.TopicKnown(this)
      modifies this`totalMessagesPosted
      ensures engine.Linked() && engine.State() == CountPost(old(engine.State()), topicName)
    {
      totalMessagesPosted := totalMessagesPosted + 1;
      engine.CountersKeepLinks(this);
      engine.OneTopicState(this);
    }

    method IncrementMentions(engine: TwitterEngine)
      requires engine.Linked() && engine.TopicKnown(this)
      modifies this`totalMentions
      ensures engine.Linked() && engine.State() == CountMention(old(engine.State()), topicName)
    {
      totalMentions := totalMentions + 1;
      engine.CountersKeepLinks(this);
      engine.OneTopicState(this);
    }

    method IncrementMentioned(engine: TwitterEngine)
      requires engine.Linked() && engine.TopicKnown(this)
      modifies this`totalMentioned
      ensures engine.Linked() && engine.State() == CountMentioned(old(engine.State()), topicName)
    {
      totalMentioned := totalMentioned + 1;
      engine.CountersKeepLinks(this);
      engine.OneTopicState(this);
    }
  }

  lemma DeliverNone(w: World, subs: map<string, string>, t: string, text: string, names: seq<string>,
          except: set<string>)
    ensures DeliverAll(w, DeliverList(subs, t, text, names[..0], except)) == w
  {
  }

  /** One turn of the delivery loop. */
  lemma DeliverStep(w: World, subs: map<string, string>, t: string, text: string, names: seq<string>, i: nat,
          except: set<string>)
    requires i < |names| && names[i] in subs
    ensures var v := DeliverAll(w, DeliverList(subs, t, text, names[..i], except));
            DeliverAll(w, DeliverList(subs, t, text, names[..i + 1], except)) ==
              if names[i] in except then v else Deliver(v, names[i], Message(t, subs[names[i]], text))
  {
    assert names[..i + 1][..i] == names[..i];
    var ds := DeliverList(subs, t, text, names[..i], except);
    var d := (names[i], Message(t, subs[names[i]], text));
    assert (ds + [d])[..|ds|] == ds;
  }

  lemma TopicSendIs(w: World, t: string, text: string, names: seq<string>, except: set<string>)
    requires t in w.topics
    ensures TopicSend(w, t, text, names, except) ==
              CountPost(DeliverAll(w, DeliverList(w.topics[t].subscribers, t, text, names, except)), t)
  {
  }

  lemma NoMentionsYet(w: World, p: string, text: string, names: seq<string>, order: map<string, seq<string>>,
          except: set<string>)
    ensures SendMentions(w, p, text, names[..0], order, except) == w
  {
  }

  lemma NextMention(w: World, p: string, text: string, names: seq<string>, k: nat, order: map<string, seq<string>>,
          except: set<string>)
    requires k < |names|
    ensures SendMentions(w, p, text, names[..k + 1], order, except) ==
              SendMention(SendMentions(w, p, text, names[..k], order, except), p, names[k], text,
                OrderOf(order, names[k]), except)
  {
    assert names[..k + 1][..k] == names[..k];
  }

  /** A request of the engine either did what it should or threw and changed nothing. */
  ghost predicate Outcome(w: World, expected: Reply<World>, v: World, r: Reply<()>)
  {
    match expected
    case Done(x) => r == Done(()) && v == x
    case Thrown(e) => r == Thrown(e) && v == w
  }

  /** order yields each of keys and nothing else. */
  ghost predicate Visits(order: seq<User>, keys: set<User>)
  {
    (forall i :: 0 <= i < |order| ==> order[i] in keys) && forall u :: u in keys ==> u in order
  }

  function NamesOf(order: map<string, seq<User>>): map<string, seq<string>>
  {
    map t | t in order :: Names(order[t])
  }

  function Names(users: seq<User>): (ns: seq<string>)
    ensures |ns| == |users| && forall i :: 0 <= i < |ns| ==> ns[i] == users[i].username
  {
    seq(|users|, i requires 0 <= i < |users| => users[i].username)
  }

  // --------------------------------------------------------------------- engine

  class TwitterEngine {
    var topics: map<string, Topic>
    var users: map<string, User>
    var totalMessagesPosted: nat
    /** The sessions that have been opened. */
    ghost var sessions: map<nat, StompProtocol>

    ghost function Objects(): set<object>
      reads this
    {
      {this} + users.Values + topics.Values + sessions.Values + set k | k in sessions :: sessions[k].connection
    }

    ghost predicate UserLinked(n: string)
      requires n in users
      reads this, Objects()
    {
      var u := users[n];
      u.username == n && (u.protocol != null ==> u.protocol.id in sessions && sessions[u.protocol.id] == u.protocol) &&
      forall id :: id in u.subscribedTopics ==> TopicKnown(u.subscribedTopics[id])
    }

    ghost predicate TopicKnown(t: Topic)
      reads this
    {
      t.topicName in topics && topics[t.topicName] == t
    }

    ghost predicate UserKnown(u: User)
      reads this
    {
      u.username in users && users[u.username] == u
    }

    ghost predicate TopicLinked(n: string)
      requires n in topics
      reads this, Objects()
    {
      var t := topics[n];
      t.topicName == n && t.topicUser == (if n in users then users[n] else null) &&
      forall u :: u in t.subscribers ==> UserKnown(u)
    }

    ghost predicate SessionLinked(k: nat)
      requires k in sessions
      reads this, Objects()
    {
      var p := sessions[k];
      p.id == k && p.connection.protocol == p && p.connection.OutputOk() &&
      (p.currentUser != null ==> UserKnown(p.currentUser))
    }

    /** The objects refer to each other the way the state by name takes for granted. */
    ghost predicate Linked()
      reads Objects()
    {
      (forall n {:trigger UserLinked(n)} :: n in users ==> UserLinked(n)) &&
      (forall n {:trigger TopicLinked(n)} :: n in topics ==> TopicLinked(n)) &&
      SessionsLinked()
    }

    ghost predicate SessionsLinked()
      reads Objects()
    {
      forall k {:trigger SessionLinked(k)} :: k in sessions ==> SessionLinked(k)
    }

    lemma SessionsOfLinked()
      requires Linked()
      ensures SessionsLinked()
    {
    }

    ghost function State(): World
      reads Objects()
    {
      World(map n | n in users :: users[n].State(),
            map n | n in topics :: topics[n].State(users),
            map k | k in sessions :: sessions[k].State(),
            totalMessagesPosted)
    }

    ghost function Connections(): set<ConnectionHandler>
      reads this`sessions
    {
      set k | k in sessions :: sessions[k].connection
    }

    /** Nothing changed but u's queue and its session's output. */
    twostate predicate OnlyOutput(u: User)
      reads this, Objects(), u, u.protocol, if u.protocol == null then {} else {u.protocol.connection}
    {
      unchanged(this) && u.protocol == old(u.protocol) && u.subscribedTopics == old(u.subscribedTopics) &&
      (forall n :: n in users && users[n] != u ==> unchanged(users[n])) &&
      (forall n :: n in topics ==> unchanged(topics[n])) &&
      (forall k :: k in sessions ==>
        unchanged(sessions[k]) && (sessions[k] != u.protocol ==> unchanged(sessions[k].connection))) &&
      (u.protocol != null ==>
        u.protocol.connection.protocol == old(u.protocol.connection.protocol) && u.protocol.connection.OutputOk())
    }

    twostate lemma KeepsLinks(u: User)
      requires old(Linked()) && old(UserKnown(u)) && OnlyOutput(u)
      ensures Linked() && State().topics == old(State()).topics && State().total == old(State()).total
    {
      forall n | n in users ensures UserLinked(n) { assert old(UserLinked(n)); }
      forall n | n in topics ensures TopicLinked(n) { assert old(TopicLinked(n)); }
      forall k | k in sessions ensures SessionLinked(k) { assert old(SessionLinked(k)); }
      SameTopicStates();
    }

    twostate lemma SameTopicStates()
      requires users == old(users) && topics == old(topics) && forall n :: n in topics ==> unchanged(topics[n])
      ensures State().topics == old(State()).topics
    {
      forall n | n in topics ensures topics[n].State(users) == old(topics[n].State(users)) {}
    }

    /** Only topic t changed, and only its counters. */
    twostate predicate OnlyCounters(t: Topic)
      reads this, Objects(), t
    {
      unchanged(this) && (forall n :: n in users ==> unchanged(users[n])) &&
      (forall n :: n in topics && topics[n] != t ==> unchanged(topics[n])) &&
      (forall k :: k in sessions ==> unchanged(sessions[k]) && unchanged(sessions[k].connection)) &&
      t.subscribers == old(t.subscribers) && t.topicUser == old(t.topicUser)
    }

    twostate lemma CountersKeepLinks(t: Topic)
      requires old(Linked()) && OnlyCounters(t)
      ensures Linked()
    {
      forall n | n in users ensures UserLinked(n) { assert old(UserLinked(n)); }
      forall k | k in sessions ensures SessionLinked(k) { assert old(SessionLinked(k)); }
      forall n | n in topics ensures TopicLinked(n) { assert old(TopicLinked(n)); }
    }

    twostate lemma SameUserStates()
      requires users == old(users) && forall n :: n in users ==> unchanged(users[n])
      ensures State().users == old(State()).users
    {
      forall n | n in users ensures users[n].State() == old(users[n].State()) {}
    }

    twostate lemma SameSessionStates()
      requires sessions == old(sessions) &&
               forall k :: k in sessions ==> unchanged(sessions[k]) && unchanged(sessions[k].connection)
      ensures State().sessions == old(State()).sessions
    {
      forall k | k in sessions ensures sessions[k].State() == old(sessions[k].State()) {}
    }

    twostate lemma OneTopicStates(t: Topic)
      requires old(Linked()) && old(TopicKnown(t)) && users == old(users) && topics == old(topics)
      requires forall n :: n in topics && topics[n] != t ==> unchanged(topics[n])
      ensures State().topics == old(State()).topics[t.topicName := t.State(users)]
    {
      forall n | n in topics
        ensures if topics[n] == t then n == t.topicName
                else n != t.topicName && topics[n].State(users) == old(topics[n].State(users))
      {
        assert old(TopicLinked(n));
      }
    }

    twostate lemma OneTopicState(t: Topic)
      requires old(Linked()) && old(TopicKnown(t)) && OnlyCounters(t)
      ensures State() == old(State()).(topics := old(State()).topics[t.topicName := t.State(users)])
    {
      hide Linked;
      SameUserStates();
      SameSessionStates();
      OneTopicStates(t);
    }

    /** A topic's list by name is its list. */
    lemma ListedByName(t: Topic)
      requires Linked() && TopicKnown(t)
      ensures t.topicName in State().topics && State().topics[t.topicName] == t.State(users)
      ensures forall u :: u in t.subscribers ==> UserKnown(u)
      ensures forall u :: u in t.subscribers ==>
                u.username in State().topics[t.topicName].subscribers &&
                State().topics[t.topicName].subscribers[u.username] == t.subscribers[u]
    {
      assert TopicLinked(t.topicName);
    }

    twostate lemma OneUserState(u: User)
      requires old(Linked()) && old(UserKnown(u)) && users == old(users)
      requires forall n :: n in users && users[n] != u ==> unchanged(users[n])
      ensures State().users == old(State()).users[u.username := u.State()]
    {
      forall n | n in users
        ensures if users[n] == u then n == u.username else n != u.username && users[n].State() == old(users[n].State())
      {
        assert old(UserLinked(n));
      }
    }

    twostate lemma OneSessionState(p: StompProtocol?)
      requires old(SessionsLinked()) && sessions == old(sessions) &&
               (p != null ==> p.id in sessions && sessions[p.id] == p)
      requires forall k :: k in sessions && sessions[k] != p ==>
                 unchanged(sessions[k]) && unchanged(sessions[k].connection)
      ensures State().sessions == if p == null then old(State()).sessions else old(State()).sessions[p.id := p.State()]
    {
      forall k | k in sessions
        ensures if sessions[k] == p then k == p.id
                else sessions[k].State() == old(sessions[k].State()) && (p != null ==> k != p.id)
      {
        assert old(SessionLinked(k));
      }
    }

    /** One call of User.send. */
    method SendTo(u: User, m: Message)
      requires Linked() && UserKnown(u)
      modifies users.Values`messages, Connections()
      ensures Linked() && State() == Deliver(old(State()), u.username, m)
    {
      hide Linked, State;
      SessionsOfLinked();
      Distinct(u);
      SubscriptionsByName(u);
      ghost var w, us := State(), u.State();
      ghost var s :=
        if u.protocol == null then w.sessions
        else w.sessions[u.protocol.id := Hand(u.protocol.State(), ToFrames(u.messages + [m]))];
      u.Send(m);
      KeepsLinks(u);
      OneUserState(u);
      OneSessionState(u.protocol);
      assert State().sessions == s;
      assert u.State() == us.(messages := u.messages);
    }

    /** Sessions have connections of their own, and users, topics and connections
        are different objects. */
    lemma Distinct(u: User)
      requires Linked() && UserKnown(u)
      ensures u.ConnectionOk()
      ensures u.protocol != null ==>
                SessionKnown(u.protocol) && u.protocol.id in State().sessions &&
                State().sessions[u.protocol.id] == u.protocol.State() &&
                forall k :: k in sessions && sessions[k] != u.protocol ==>
                  sessions[k].connection != u.protocol.connection
    {
      assert UserLinked(u.username);
      if u.protocol != null {
        assert SessionLinked(u.protocol.id);
        forall k | k in sessions && sessions[k] != u.protocol ensures sessions[k].connection != u.protocol.connection {
          assert SessionLinked(k);
        }
      }
    }

    // posting

    /** order gives, for every topic, its subscribers as the map yields them. */
    ghost predicate OrderKnown(order: map<string, seq<User>>)
      reads this, topics.Values
    {
      forall n :: n in topics ==> n in order && Visits(order[n], topics[n].subscribers.Keys)
    }

    lemma OrderAt(order: map<string, seq<User>>, n: string)
      requires OrderKnown(order) && n in topics
      ensures n in order && OrderOf(NamesOf(order), n) == Names(order[n]) &&
              Visits(order[n], topics[n].subscribers.Keys)
    {
    }

    twostate lemma OrderStays(order: map<string, seq<User>>)
      requires old(OrderKnown(order)) && topics == old(topics) &&
               forall n :: n in topics ==> topics[n].subscribers == old(topics[n].subscribers)
      ensures OrderKnown(order)
    {
    }

    lemma TopicsByName(n: string)
      requires Linked()
      ensures n in topics <==> n in State().topics
      ensures n in topics ==> TopicKnown(topics[n]) && topics[n].topicName == n
    {
      if n in topics { assert TopicLinked(n); }
    }

    /** The names in an order of the list are the list's names. */
    lemma KeysAreNames(t: Topic, order: seq<User>)
      requires Linked() && TopicKnown(t) && Visits(order, t.subscribers.Keys)
      ensures t.topicName in State().topics && State().topics[t.topicName].subscribers.Keys == set n | n in Names(order)
    {
      assert TopicLinked(t.topicName);
      var keys := State().topics[t.topicName].subscribers.Keys;
      forall n | n in keys ensures n in Names(order) {
        assert users[n] in order && UserLinked(n);
        var i :| 0 <= i < |order| && order[i] == users[n];
        assert Names(order)[i] == n;
      }
      forall n | n in Names(order) ensures n in keys {
        var i :| 0 <= i < |order| && Names(order)[i] == n;
        assert UserKnown(order[i]);
      }
    }

    /** One mention found in a tweet posted to destination. */
    method SendMentionTo(destination: Topic, mentionedUser: string, message: string, delivered: seq<string>,
            order: map<string, seq<User>>)
      requires Linked() && TopicKnown(destination) && OrderKnown(order)
      modifies topics.Values`totalMessagesPosted, topics.Values`totalMentions, topics.Values`totalMentioned
      modifies users.Values`messages, Connections()
      ensures Linked() && OrderKnown(order)
      ensures State() == SendMention(old(State()), destination.topicName, mentionedUser, message,
                                     OrderOf(NamesOf(order), mentionedUser), set n | n in delivered)
    {
      hide Linked, State, TopicSend, CountMention, CountMentioned, Names, OrderKnown;
      if mentionedUser in topics { OrderAt(order, mentionedUser); }
      destination.IncrementMentions(this);
      TopicsByName(mentionedUser);
      if mentionedUser in topics {
        var t := topics[mentionedUser];
        var _ := t.Send(message, delivered, order[mentionedUser], this);
        t.IncrementMentioned(this);
      }
      OrderStays(order);
    }

    /** The loop over the mentions found in a tweet. */
    method SendMentionsTo(destination: Topic, message: string, delivered: seq<string>, order: map<string, seq<User>>)
      requires Linked() && TopicKnown(destination) && OrderKnown(order)
      modifies topics.Values`totalMessagesPosted, topics.Values`totalMentions, topics.Values`totalMentioned
      modifies users.Values`messages, Connections()
      ensures Linked()
      ensures State() ==
                SendMentions(old(State()), destination.topicName, message, FindMentions(message), NamesOf(order),
                  set n | n in delivered)
    {
      hide Linked, State, SendMention, SendMentions, Names, MentionsFrom, OrderKnown;
      ghost var w, p, o := State(), destination.topicName, NamesOf(order);
      ghost var names, k, except := FindMentions(message), 0, set n | n in delivered;
      NoMentionsYet(w, p, message, names, o, except);
      var m: (bool, string, nat) := Find(message, 0);
      while m.0
        invariant Linked() && OrderKnown(order) && m.2 <= |message| && 0 <= k <= |names|
        invariant State() == SendMentions(w, p, message, names[..k], o, except)
        invariant names[k..] == if m.0 then [m.1] + MentionsFrom(message, m.2) else []
        decreases |names| - k
      {
        NextMention(w, p, message, names, k, o, except);
        assert names[k] == names[k..][0];
        SendMentionTo(destination, m.1, message, delivered, order);
        assert names[k + 1..] == names[k..][1..];
        k := k + 1;
        m := Find(message, m.2);
      }
      assert names[..k] == names;
    }

    /** The tweet itself: to the topic's list, then to the lists of the mentioned. */
    method PostTweet(destination: Topic, message: string, order: map<string, seq<User>>)
      requires Linked() && TopicKnown(destination) && OrderKnown(order)
      modifies this`totalMessagesPosted
      modifies topics.Values`totalMessagesPosted, topics.Values`totalMentions, topics.Values`totalMentioned
      modifies users.Values`messages, Connections()
      ensures Linked() && State() == Tweet(old(State()), destination.topicName, message, NamesOf(order))
    {
      hide Linked, State, TopicSend, SendMentions, Names, MentionsFrom, OrderKnown;
      ghost var w, p := State(), destination.topicName;
      OrderAt(order, p);
      KeysAreNames(destination, order[p]);
      var delivered := destination.Send(message, [], order[destination.topicName], this);
      OrderStays(order);
      assert (set n | n in delivered) == w.topics[p].subscribers.Keys;
      assert (set n: string | n in []) == {};
      SendMentionsTo(destination, message, delivered, order);
      IncrementTotal();
    }

    method IncrementTotal()
      requires Linked()
      modifies this`totalMessagesPosted
      ensures Linked() && State() == old(State()).(total := old(State()).total + 1)
    {
      totalMessagesPosted := totalMessagesPosted + 1;
      TotalOnly();
    }

    /** Only the engine's total changed. */
    twostate lemma TotalOnly()
      requires old(Linked()) && users == old(users) && topics == old(topics) && sessions == old(sessions)
      requires forall n :: n in users ==> unchanged(users[n])
      requires forall n :: n in topics ==> unchanged(topics[n])
      requires forall k :: k in sessions ==> unchanged(sessions[k]) && unchanged(sessions[k].connection)
      ensures Linked() && State() == old(State()).(total := totalMessagesPosted)
    {
      forall n | n in users ensures UserLinked(n) { assert old(UserLinked(n)); }
      forall k | k in sessions ensures SessionLinked(k) { assert old(SessionLinked(k)); }
      forall n | n in topics ensures TopicLinked(n) { assert old(TopicLinked(n)); }
      SameUserStates();
      SameSessionStates();
      SameTopicStates();
    }

    // subscriptions

    /** Nothing changed but u's subscriptions and the list of t. */
    twostate predicate OnlySubscription(u: User, t: Topic)
      reads this, Objects(), u, t
    {
      unchanged(this) && u.protocol == old(u.protocol) && u.messages == old(u.messages) &&
      (forall n :: n in users && users[n] != u ==> unchanged(users[n])) &&
      (forall n :: n in topics && topics[n] != t ==> unchanged(topics[n])) &&
      (forall k :: k in sessions ==> unchanged(sessions[k]) && unchanged(sessions[k].connection)) &&
      t.topicUser == old(t.topicUser) && t.totalMessagesPosted == old(t.totalMessagesPosted) &&
      t.totalMentions == old(t.totalMentions) && t.totalMentioned == old(t.totalMentioned)
    }

    twostate lemma SubscriptionKeepsLinks(u: User, new n: string)
      requires old(Linked()) && old(UserKnown(u)) && n in old(topics) && OnlySubscription(u, old(topics[n]))
      requires forall id :: id in u.subscribedTopics ==> TopicKnown(u.subscribedTopics[id])
      requires forall v :: v in topics[n].subscribers ==> UserKnown(v)
      ensures Linked()
      ensures State() == old(State()).(users := old(State()).users[u.username := u.State()],
                                       topics := old(State()).topics[n := topics[n].State(users)])
    {
      forall n | n in users ensures UserLinked(n) { assert old(UserLinked(n)); }
      forall k | k in sessions ensures SessionLinked(k) { assert old(SessionLinked(k)); }
      forall n | n in topics ensures TopicLinked(n) { assert old(TopicLinked(n)); }
      assert old(TopicLinked(n));
      SameSessionStates();
      OneUserState(u);
      OneTopicStates(topics[n]);
    }

    /** What one user's subscriptions look like by name. */
    lemma SubscriptionsByName(u: User)
      requires Linked() && UserKnown(u)
      ensures u.username in State().users && State().users[u.username] == u.State()
      ensures forall id :: id in u.subscribedTopics <==> id in u.State().subs
      ensures forall id :: id in u.subscribedTopics ==> u.State().subs[id] == u.subscribedTopics[id].topicName
      ensures forall id :: id in u.subscribedTopics ==>
                TopicKnown(u.subscribedTopics[id]) &&
                (u.subscribedTopics[id].topicUser == u ==> u.subscribedTopics[id].topicName == u.username)
    {
      assert UserLinked(u.username);
      forall id | id in u.subscribedTopics
        ensures u.subscribedTopics[id].topicUser == u ==> u.subscribedTopics[id].topicName == u.username
      {
        assert TopicLinked(u.subscribedTopics[id].topicName);
        assert u.subscribedTopics[id].topicName in users ==> UserLinked(u.subscribedTopics[id].topicName);
      }
    }

    lemma OnlyName(u: User)
      requires Linked() && UserKnown(u)
      ensures forall n :: n in users && users[n] == u ==> n == u.username
    {
      forall n | n in users && users[n] == u ensures n == u.username { assert UserLinked(n); }
    }

    method Subscribe(subscriptionId: string, name: string, user: User) returns (r: Reply<()>)
      requires Linked() && UserKnown(user)
      modifies user`subscribedTopics, topics.Values`subscribers
      ensures Linked()
      ensures Outcome(old(State()), EngineSubscribe(old(State()), user.username, subscriptionId, name), State(), r)
    {
      TopicsByName(name);
      SubscriptionsByName(user);
      if name == user.username {
        return Thrown(Error("Subscribe", "You cannot following on yourself."));
      }
      if name in topics {
        if subscriptionId !in user.subscribedTopics {
          EnterTopic(user, topics[name], subscriptionId);
          r := Done(());
        } else {
          r := Thrown(Error("Subscribe", "Already Following"));
        }
      } else {
        r := Thrown(Error("Subscribe", "Topic was not found."));
      }
    }

    /** One call of User.subscribeTo. */
    method EnterTopic(user: User, topic: Topic, id: string)
      requires Linked() && UserKnown(user) && TopicKnown(topic)
      modifies user`subscribedTopics, topic`subscribers
      ensures Linked() && user.username in old(State()).users && topic.topicName in old(State()).topics
      ensures var w, u, t := old(State()), user.username, topic.topicName;
              State() == w.(users := w.users[u := w.users[u].(subs := w.users[u].subs[id := t])],
                            topics := w.topics[t := w.topics[t].(subscribers := w.topics[t].subscribers[u := id])])
    {
      hide Linked, State, TopicNames, ByName;
      ListedByName(topic);
      SubscriptionsByName(user);
      OnlyName(user);
      NamesPut(user.subscribedTopics, id, topic);
      ByNamePut(topic.subscribers, users, user.username, id);
      ghost var w, was, listed := State(), user.State(), topic.State(users);
      user.SubscribeTo(topic, id);
      SubscriptionKeepsLinks(user, topic.topicName);
      assert user.State() == was.(subs := was.subs[id := topic.topicName]) &&
             topic.State(users) == listed.(subscribers := listed.subscribers[user.username := id]);
    }

    /** One call of User.unsubscribe. */
    method LeaveTopic(user: User, id: string) returns (r: Reply<()>)
      requires Linked() && UserKnown(user) && id in user.subscribedTopics
      modifies user`subscribedTopics, topics.Values`subscribers
      ensures Linked() && Outcome(old(State()), Leave(old(State()), user.username, id), State(), r)
      ensures r.Done? ==> user.subscribedTopics == old(user.subscribedTopics) - {id}
      ensures r.Thrown? ==> user.subscribedTopics == old(user.subscribedTopics)
    {
      hide Linked, State, TopicNames, ByName;
      SubscriptionsByName(user);
      OnlyName(user);
      var topic := user.subscribedTopics[id];
      ListedByName(topic);
      NamesDrop(user.subscribedTopics, id);
      ByNameDrop(topic.subscribers, users, user.username);
      ghost var w, was, listed := State(), user.State(), topic.State(users);
      r := user.Unsubscribe(id);
      SubscriptionKeepsLinks(user, topic.topicName);
      if r.Done? {
        assert user.State() == was.(subs := was.subs - {id});
        assert topic.State(users) == listed.(subscribers := listed.subscribers - {user.username});
      } else {
        assert user.State() == was && topic.State(users) == listed;
        assert State().users == w.users && State().topics == w.topics;
      }
    }

    method Unsubscribe(subscriptionId: string, user: User) returns (r: Reply<string>)
      requires Linked() && UserKnown(user)
      modifies user`subscribedTopics, topics.Values`subscribers
      ensures Linked()
      ensures match EngineUnsubscribe(old(State()), user.username, subscriptionId)
              case Done(x) => r == Done(x.1) && State() == x.0
              case Thrown(e) => r == Thrown(e) && State() == old(State())
    {
      hide Linked, State, ByName;
      SubscriptionsByName(user);
      if subscriptionId in user.subscribedTopics {
        var unsubscribedTopic := user.Subscription(subscriptionId).topicName;
        var left := LeaveTopic(user, subscriptionId);
        match left {
          case Done(_) => r := Done(unsubscribedTopic);
          case Thrown(e) => r := Thrown(e);
        }
      } else {
        r := Thrown(Error("Unsubscription error", "User does not have subscription id #" + subscriptionId));
      }
    }

    // login and sessions

    ghost predicate SessionKnown(p: StompProtocol)
      reads this
    {
      p.id in sessions && sessions[p.id] == p
    }

    /** Nothing changed but which session u is attached to. */
    twostate predicate OnlyAttachment(u: User)
      reads this, Objects(), u
    {
      unchanged(this) && u.messages == old(u.messages) && u.subscribedTopics == old(u.subscribedTopics) &&
      (forall n :: n in users && users[n] != u ==> unchanged(users[n])) &&
      (forall n :: n in topics ==> unchanged(topics[n])) &&
      (forall k :: k in sessions ==> unchanged(sessions[k]) && unchanged(sessions[k].connection))
    }

    twostate lemma AttachmentKeepsLinks(u: User)
      requires old(Linked()) && old(UserKnown(u)) && OnlyAttachment(u)
      requires u.protocol != null ==> SessionKnown(u.protocol)
      ensures Linked() && u.username in old(State()).users
      ensures State() == SetSession(old(State()), u.username, if u.protocol == null then None else Some(u.protocol.id))
    {
      forall n | n in users ensures UserLinked(n) { assert old(UserLinked(n)); }
      forall k | k in sessions ensures SessionLinked(k) { assert old(SessionLinked(k)); }
      forall n | n in topics ensures TopicLinked(n) { assert old(TopicLinked(n)); }
      SameSessionStates();
      SameTopicStates();
      OneUserState(u);
    }

    /** User.setProtocol, which is also User.logout. */
    method Attach(user: User, protocol: StompProtocol?)
      requires Linked() && UserKnown(user) && (protocol != null ==> SessionKnown(protocol))
      modifies user`protocol
      ensures Linked() && user.protocol == protocol
      ensures State() == SetSession(old(State()), user.username, if protocol == null then None else Some(protocol.id))
    {
      hide Linked, State;
      user.SetProtocol(protocol);
      AttachmentKeepsLinks(user);
    }

    /** One call of User.flushMessages. */
    method FlushUser(u: User)
      requires Linked() && UserKnown(u)
      requires u.protocol != null && u.protocol.currentUser != null ==> u.protocol.connection.messagesQueue == []
      modifies users.Values`messages, Connections()
      ensures Linked() && State() == Flush(old(State()), u.username)
    {
      hide Linked, State;
      SessionsOfLinked();
      Distinct(u);
      SubscriptionsByName(u);
      ghost var w, us := State(), u.State();
      ghost var s :=
        if u.protocol == null then w.sessions
        else w.sessions[u.protocol.id := Hand(u.protocol.State(), ToFrames(u.messages))];
      if u.protocol != null { HandNothing(u.protocol.State()); }
      u.FlushMessages();
      KeepsLinks(u);
      OneUserState(u);
      OneSessionState(u.protocol);
      assert State().sessions == s;
      assert u.State() == us.(messages := u.messages);
    }

    /** Nothing changed but session p and its connection. */
    twostate predicate OnlySession(p: StompProtocol)
      reads this, Objects(), p, p.connection
    {
      unchanged(this) &&
      (forall n :: n in users ==> unchanged(users[n])) && (forall n :: n in topics ==> unchanged(topics[n])) &&
      (forall k :: k in sessions && sessions[k] != p ==> unchanged(sessions[k]) && unchanged(sessions[k].connection)) &&
      p.connection.protocol == p && p.connection.OutputOk()
    }

    twostate lemma SessionKeepsLinks(p: StompProtocol)
      requires old(SessionsLinked()) && old(SessionKnown(p)) && OnlySession(p)
      requires p.currentUser != null ==> UserKnown(p.currentUser)
      ensures SessionsLinked() && (Linked() <==> old(Linked()))
      ensures State() == old(State()).(sessions := old(State()).sessions[p.id := p.State()])
    {
      forall k | k in sessions ensures SessionLinked(k) { assert old(SessionLinked(k)); }
      if old(Linked()) {
        forall n | n in users ensures UserLinked(n) { assert old(UserLinked(n)); }
        forall n | n in topics ensures TopicLinked(n) { assert old(TopicLinked(n)); }
      }
      if Linked() {
        forall n | n in old(users) ensures old(UserLinked(n)) {
          assert UserLinked(n) && unchanged(users[n]);
          forall id | id in old(users[n].subscribedTopics) ensures old(TopicKnown(users[n].subscribedTopics[id])) {
            assert TopicKnown(users[n].subscribedTopics[id]);
          }
        }
        forall n | n in old(topics) ensures old(TopicLinked(n)) {
          assert TopicLinked(n) && unchanged(topics[n]);
          forall u | u in old(topics[n].subscribers) ensures old(UserKnown(u)) { assert u in topics[n].subscribers; }
        }
      }
      SameUserStates();
      SameTopicStates();
      OneSessionState(p);
    }

    /** Who is logged in on session p, and whether it is closing. */
    method SetCurrentUser(p: StompProtocol, user: User?, closing: bool)
      requires SessionsLinked() && SessionKnown(p) && (user != null ==> UserKnown(user))
      modifies p`currentUser, p`shouldClose
      ensures SessionsLinked() && (Linked() <==> old(Linked())) && p.currentUser == user &&
              p.shouldClose == closing && p.id in old(State()).sessions
      ensures var w, u := old(State()), if user == null then None else Some(user.username);
              State() == w.(sessions := w.sessions[p.id := w.sessions[p.id].(user := u, closing := closing)])
    {
      hide Linked, SessionsLinked, State;
      SessionByName(p);
      DistinctConnections(p);
      p.currentUser, p.shouldClose := user, closing;
      SessionKeepsLinks(p);
    }

    lemma SessionByName(p: StompProtocol)
      requires SessionsLinked() && SessionKnown(p)
      ensures p.id in State().sessions && State().sessions[p.id] == p.State()
      ensures p.currentUser != null ==> UserKnown(p.currentUser)
    {
      assert SessionLinked(p.id);
    }

    lemma OutputReady(p: StompProtocol)
      requires SessionsLinked() && SessionKnown(p)
      ensures p.connection.protocol == p && p.connection.OutputOk() && p.connection in Connections()
    {
      assert SessionLinked(p.id);
    }

    /** Before the step, an authorized session's queue is empty. */
    lemma NothingQueued(p: StompProtocol)
      requires Linked() && SessionKnown(p) && Sound(State())
      ensures p.id in State().sessions && State().sessions[p.id] == p.State()
      ensures p.currentUser != null ==> p.connection.messagesQueue == []
    {
      assert SessionLinked(p.id);
      assert State().sessions[p.id] == p.State();
    }

    /** Nobody is called "server", and the only topics are the users' and the server's. */
    lemma NotServer(n: string)
      requires Linked() && Sound(State())
      ensures SERVER !in users && (n in topics ==> n in users || n == SERVER)
    {
      assert SERVER in DirectoryOf(State()).users ==> UserIndex(DirectoryOf(State()), SERVER);
      if n in topics {
        assert TopicIndex(DirectoryOf(State()), n);
      }
    }

    /** Some user holds the topic that is called n. */
    ghost predicate Held(n: string)
      reads this, users.Values
    {
      n in topics &&
      exists m, id :: m in users && id in users[m].subscribedTopics && users[m].subscribedTopics[id] == topics[n]
    }

    /** Nothing changed but that user and its topic t were added; t may replace a
        topic of the same name. */
    twostate predicate Added(new user: User, new t: Topic)
      reads this, Objects(), user, t
    {
      var n := user.username;
      t.topicName == n && n !in old(users) && user !in old(users.Values) && t !in old(topics.Values) &&
      users == old(users)[n := user] && topics == old(topics)[n := t] &&
      sessions == old(sessions) && totalMessagesPosted == old(totalMessagesPosted) &&
      (forall m :: m in users && m != n ==> m in old(users) && users[m] == old(users[m]) && unchanged(users[m])) &&
      (forall m :: m in topics && m != n ==> m in old(topics) && topics[m] == old(topics[m]) && unchanged(topics[m])) &&
      (forall k :: k in sessions ==> unchanged(sessions[k]) && unchanged(sessions[k].connection)) &&
      user.protocol != null && SessionKnown(user.protocol) && t.topicUser == user &&
      t.subscribers.Keys == {user} && t.subscribers[user] == SELF_ID &&
      user.subscribedTopics.Keys == {SELF_ID} && user.subscribedTopics[SELF_ID] == t
    }

    /** The objects stay linked exactly where nobody held a topic that was replaced. */
    twostate lemma AddedLinks(new user: User, new t: Topic, new n: string)
      requires old(Linked()) && Added(user, t) && n == user.username
      ensures SessionsLinked() && (Linked() <==> !old(Held(n)))
    {
      forall k | k in sessions ensures SessionLinked(k) { assert old(SessionLinked(k)); }
      forall m | m in topics ensures TopicLinked(m) { assert m != n ==> old(TopicLinked(m)); }
      if old(Held(n)) {
        var m, id :| m in old(users) && id in old(users[m].subscribedTopics) &&
        old(users[m].subscribedTopics)[id] == old(topics)[n];
        assert m != n && old(TopicLinked(n));
        assert !TopicKnown(users[m].subscribedTopics[id]);
        assert !UserLinked(m);
      } else {
        forall m | m in users ensures UserLinked(m) { assert m != n ==> old(UserLinked(m)); }
      }
    }

    twostate lemma AddedUserState(new user: User)
      requires user.username !in old(users) && users == old(users)[user.username := user]
      requires forall n :: n in users && n != user.username ==> n in old(users) && unchanged(users[n])
      ensures State().users == old(State()).users[user.username := user.State()]
    {
      hide User.State;
      forall n | n in users && n != user.username ensures users[n].State() == old(users[n].State()) {}
    }

    twostate lemma AddedTopicState(new t: Topic)
      requires topics == old(topics)[t.topicName := t]
      requires forall n :: n in topics && n != t.topicName ==> n in old(topics) && unchanged(topics[n])
      requires forall n :: n in topics && n != t.topicName ==>
                 ByName(topics[n].subscribers, users) == ByName(topics[n].subscribers, old(users))
      ensures State().topics == old(State()).topics[t.topicName := t.State(users)]
    {
      hide Topic.State, ByName;
      forall n | n in topics && n != t.topicName
        ensures topics[n].State(users) == old(topics[n].State(users))
      {
        TopicStateStays(topics[n]);
      }
    }

    twostate lemma TopicStateStays(t: Topic)
      requires unchanged(t) && ByName(t.subscribers, users) == ByName(t.subscribers, old(users))
      ensures t.State(users) == old(t.State(users))
    {
    }

    twostate lemma SameLists(new user: User, new t: Topic)
      requires old(Linked()) && Added(user, t)
      ensures forall n :: n in topics && n != t.topicName ==>
                ByName(topics[n].subscribers, users) == ByName(topics[n].subscribers, old(users))
    {
      hide ByName;
      forall n | n in topics && n != t.topicName
        ensures ByName(topics[n].subscribers, users) == ByName(topics[n].subscribers, old(users))
      {
        assert old(TopicLinked(n));
        ByNameNew(topics[n].subscribers, old(users), user.username, user);
      }
    }

    twostate lemma AddedStates(new user: User, new t: Topic)
      requires old(Linked()) && Added(user, t)
      ensures State() == old(State()).(users := old(State()).users[user.username := user.State()],
                                       topics := old(State()).topics[user.username := t.State(users)])
    {
      hide Linked, ByName;
      SameSessionStates();
      AddedUserState(user);
      SameLists(user, t);
      AddedTopicState(t);
    }

    method NewAccount(login: string, password: string, protocol: StompProtocol) returns (user: User, userTopic: Topic)
      ensures fresh(user) && fresh(userTopic) && user.username == userTopic.topicName == login &&
              user.password == password
      ensures user.protocol == protocol && user.messages == [] && userTopic.topicUser == user
      ensures userTopic.subscribers.Keys == {user} && userTopic.subscribers[user] == SELF_ID
      ensures user.subscribedTopics.Keys == {SELF_ID} && user.subscribedTopics[SELF_ID] == userTopic
      ensures userTopic.totalMessagesPosted == userTopic.totalMentions == userTopic.totalMentioned == 0
    {
      user := new User(login, password, protocol);
      userTopic := new Topic(login);
      userTopic.SetTopicUser(user);
    }

    /** Users and topics that were not there before are new objects. */
    twostate predicate OnlyAdded()
      reads this
    {
      (forall u :: u in users.Values ==> u in old(users.Values) || fresh(u)) &&
      (forall t :: t in topics.Values ==> t in old(topics.Values) || fresh(t))
    }

    /** A new user and the user's own topic. */
    method Register(login: string, password: string, protocol: StompProtocol) returns (user: User)
      requires Linked() && SessionKnown(protocol) && login !in users
      modifies this`users, this`topics
      ensures SessionsLinked() && (Linked() <==> !old(Held(login))) && UserKnown(user) && user.username == login &&
              OnlyAdded()
      ensures State() == NewUser(old(State()), protocol.id, login, password)
    {
      hide Linked, SessionsLinked, State, TopicNames, ByName, Held;
      var userTopic: Topic;
      user, userTopic := NewAccount(login, password, protocol);
      users := users[login := user];
      topics := topics[login := userTopic];
      AddedLinks(user, userTopic, login);
      AddedStates(user, userTopic);
      SelfOnly(user.subscribedTopics, userTopic.subscribers, user, userTopic, users);
    }

    /** How a login or a registration turned out: the state and the user by name. */
    ghost predicate Authorized(w: World, expected: (World, Reply<string>), r: Reply<User>)
      reads Objects()
    {
      State() == expected.0 &&
      match expected.1
      case Done(name) => r.Done? && UserKnown(r.value) && r.value.username == name
      case Thrown(e) => r == Thrown(e)
    }

    /** Login and registration. A registration as "server" replaces the server's
        topic, and leaves the users who held that one with a topic unknown here. */
    method Connect(login: string, password: string, protocol: StompProtocol, ids: seq<string>) returns (r: Reply<User>)
      requires Linked() && SessionKnown(protocol) && Sound(State())
      requires login in users ==> Enumerates(ids, users[login].subscribedTopics.Keys)
      modifies this`users, this`topics, users.Values`protocol, users.Values`subscribedTopics, topics.Values`subscribers
      modifies users.Values`messages, Connections()
      ensures Authorized(old(State()), EngineConnect(old(State()), protocol.id, login, password), r) && OnlyAdded()
      ensures SessionsLinked() && (Linked() <==> !(login == SERVER && old(Held(SERVER))))
    {
      hide Linked, SessionsLinked, State, Sound, ResetTo, Flush, NewUser, SetSession;
      NotServer(login);
      UsersByName(login);
      if login in users {
        if users[login].IsConnected() {
          Attach(users[login], protocol);
          SessionsOfLinked();
          r := Thrown(Error("Already logged in", ""));
        } else {
          var ok := users[login].Login(password, protocol, ids, this);
          SessionsOfLinked();
          r := if ok then Done(users[login]) else Thrown(Error("Login Error", "Password is wrong"));
        }
      } else {
        var user := Register(login, password, protocol);
        r := Done(user);
      }
    }

    lemma UsersByName(n: string)
      requires Linked()
      ensures n in users <==> n in State().users
      ensures n in users ==>
                UserKnown(users[n]) && users[n].username == n && State().users[n].password == users[n].password &&
                State().users[n].session.Some? == (users[n].protocol != null)
    {
      if n in users { assert UserLinked(n); }
    }

    /** The "stop" command: everybody is logged out. */
    method LogoutUsers()
      requires Linked()
      modifies users.Values`protocol
      ensures Linked() && State() == LogoutAll(old(State()))
    {
      hide Linked, State;
      hide LogoutSome, SetSession, LogoutAll;
      ghost var w := State();
      var waiting := users.Keys;
      ghost var gone: set<string> := {};
      AllByName();
      LogoutNone(w);
      while waiting != {}
        invariant Linked() && gone + waiting == users.Keys && State() == LogoutSome(w, gone)
        decreases |waiting|
      {
        var n :| n in waiting;
        LogoutOne(w, gone, n);
        waiting, gone := waiting - {n}, gone + {n};
        UsersByName(n);
        Attach(users[n], null);
      }
      LogoutEvery(w);
    }

    lemma AllByName()
      ensures State().users.Keys == users.Keys && State().sessions.Keys == sessions.Keys
    {
    }

    method ProcessServerMessage(message: string, report: string, order: map<string, seq<User>>)
      requires Linked() && SERVER in topics && OrderKnown(order)
      modifies topics.Values`totalMessagesPosted, users.Values`messages, users.Values`protocol, Connections()
      ensures Linked() && State() == ServerMessage(old(State()), message, report, NamesOf(order))
    {
      hide Linked, State, TopicSend, LogoutAll, Names, OrderKnown;
      OrderAt(order, SERVER);
      TopicsByName(SERVER);
      var command := WithoutReturns(Trim(message));
      var result := "";
      if "clients" <= command {
        result := report;
      } else if command == "stats" {
        result := report;
      } else if command == "stop" {
        LogoutUsers();
        return;
      }
      assert (set n: string | n in []) == {};
      var _ := topics[SERVER].Send(result, [], order[SERVER], this);
    }

    method Send(postedUser: User, destinationTopic: string, message: string, report: string,
            order: map<string, seq<User>>)
      returns (r: Reply<()>)
      requires Linked() && UserKnown(postedUser) && OrderKnown(order)
      modifies this`totalMessagesPosted
      modifies topics.Values`totalMessagesPosted, topics.Values`totalMentions, topics.Values`totalMentioned
      modifies users.Values`messages, users.Values`protocol, Connections()
      ensures Linked()
      ensures Outcome(old(State()),
                EngineSend(old(State()), postedUser.username, destinationTopic, message, report, NamesOf(order)),
                  State(), r)
    {
      hide Linked, State, ServerMessage, Tweet, OrderKnown;
      TopicsByName(destinationTopic);
      if destinationTopic !in topics {
        return Thrown(Error("No topic found", NO_TOPIC_TEXT));
      }
      if destinationTopic == SERVER {
        ProcessServerMessage(message, report, order);
        return Done(());
      } else if postedUser.username != destinationTopic {
        return Thrown(Error("Oops.", ON_BEHALF_TEXT));
      }
      PostTweet(topics[destinationTopic], message, order);
      r := Done(());
    }

    constructor ()
      ensures Linked() && Initial(State())
    {
      var serverTopic := new Topic(SERVER);
      topics, users, totalMessagesPosted, sessions := map[SERVER := serverTopic], map[], 0, map[];
      new;
      assert TopicLinked(SERVER);
    }

    /** A connection is accepted: its handler and its protocol know each other. */
    method OpenSession(k: nat, encode: ServerFrame -> string) returns (p: StompProtocol)
      requires Linked() && k !in sessions
      modifies this`sessions
      ensures Linked() && SessionKnown(p) && p.id == k && State() == Step(old(State()), Open(k))
    {
      hide Linked, State;
      AllByName();
      var connection := new ConnectionHandler(encode);
      p := new StompProtocol(k, connection);
      connection.protocol := p;
      sessions := sessions[k := p];
      assert p.State() == Session(None, false, [], []);
      OpenedKeepsLinks(p);
      OpenedState(p);
    }

    /** Nothing changed but that session p was added. */
    twostate predicate Opened(new p: StompProtocol)
      reads this, Objects(), p, p.connection
    {
      users == old(users) && topics == old(topics) && totalMessagesPosted == old(totalMessagesPosted) &&
      p.id !in old(sessions) && sessions == old(sessions)[p.id := p] &&
      (forall n :: n in users ==> unchanged(users[n])) && (forall n :: n in topics ==> unchanged(topics[n])) &&
      (forall k :: k in sessions && k != p.id ==>
        k in old(sessions) && unchanged(sessions[k]) && unchanged(sessions[k].connection))
    }

    twostate lemma OpenedKeepsLinks(new p: StompProtocol)
      requires old(Linked()) && Opened(p)
      requires p.connection.protocol == p && p.connection.OutputOk() && p.currentUser == null
      ensures Linked()
    {
      forall n | n in users ensures UserLinked(n) { assert old(UserLinked(n)); }
      forall n | n in topics ensures TopicLinked(n) { assert old(TopicLinked(n)); }
      forall k | k in sessions ensures SessionLinked(k) { assert k != p.id ==> old(SessionLinked(k)); }
    }

    twostate lemma OpenedState(new p: StompProtocol)
      requires Opened(p)
      ensures State() == old(State()).(sessions := old(State()).sessions[p.id := p.State()])
    {
      hide StompProtocol.State;
      SameUserStates();
      SameTopicStates();
      forall k | k in sessions && k != p.id
        ensures sessions[k].State() == old(sessions[k].State())
      {
        SameSession(sessions[k]);
      }
      assert State().sessions == old(State()).sessions[p.id := p.State()];
    }

    twostate lemma SameSession(p: StompProtocol)
      requires unchanged(p) && unchanged(p.connection)
      ensures p.State() == old(p.State())
    {
    }

    /** Sessions have connections of their own. */
    lemma DistinctConnections(p: StompProtocol)
      requires SessionsLinked() && SessionKnown(p)
      ensures p.connection in Connections() && p.connection.protocol == p && p.connection.OutputOk()
      ensures forall k :: k in sessions && sessions[k] != p ==> sessions[k].connection != p.connection
    {
      assert SessionLinked(p.id);
      forall k | k in sessions && sessions[k] != p
        ensures sessions[k].connection != p.connection
      {
        assert SessionLinked(k);
      }
    }

    /** A reply goes to the output buffer. */
    method HandOver(p: StompProtocol, frame: ServerFrame)
      requires SessionsLinked() && SessionKnown(p)
      modifies p.connection
      ensures SessionsLinked() && (Linked() <==> old(Linked())) && p.id in old(State()).sessions
      ensures p.connection.outData != []
      ensures var w, s := old(State()), old(State()).sessions[p.id];
              State() == w.(sessions := w.sessions[p.id := s.(out := s.out + [frame])])
    {
      hide Linked, SessionsLinked, State;
      DistinctConnections(p);
      SessionByName(p);
      p.connection.AddOutData(frame);
      SessionKeepsLinks(p);
    }

    /** What waited in the handler goes to the output buffer. */
    method FlushHandler(p: StompProtocol)
      requires SessionsLinked() && SessionKnown(p)
      modifies p.connection
      ensures SessionsLinked() && (Linked() <==> old(Linked())) && State() == HandTo(old(State()), p.id, [])
    {
      hide Linked, SessionsLinked, State;
      DistinctConnections(p);
      SessionByName(p);
      ghost var s := p.State();
      HandNone(s);
      p.connection.FlushMessages();
      SessionKeepsLinks(p);
      assert p.State() == Hand(s, []);
    }

    twostate lemma NothingChanged()
      requires old(Linked()) && unchanged(this)
      requires forall n :: n in users ==> unchanged(users[n])
      requires forall n :: n in topics ==> unchanged(topics[n])
      requires forall k :: k in sessions ==> unchanged(sessions[k]) && unchanged(sessions[k].connection)
      ensures Linked() && State() == old(State())
    {
      TotalOnly();
    }
  }
}
