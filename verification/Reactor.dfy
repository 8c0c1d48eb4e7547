/** The reactor's ProtocolTask on the objects of Engine.dfy: buffers in, frames
    through the protocol, replies out. */
module Reactor {
  import opened Text
  import opened World
  import W = World
  import opened Invariants
  import opened Engine
  import opened Tokenizers
  import Effects
  import Frames
  import Wire

  /** The one frame that leaves the runs considered: a login as "server". */
  predicate AsServer(f: ClientFrame) { f.Connect? && f.login == SERVER }

  ghost predicate NoRepeats<T>(s: seq<T>)
  {
    forall i, j :: 0 <= i < j < |s| ==> s[i] != s[j]
  }

  /** The elements of a set in some order, as a hash map's iterator yields them. */
  method Arrange<T(==)>(keys: set<T>) returns (order: seq<T>)
    ensures NoRepeats(order) && forall x :: x in order <==> x in keys
  {
    order := [];
    var waiting := keys;
    while waiting != {}
      invariant NoRepeats(order) && waiting <= keys && forall x :: x in order <==> x in keys && x !in waiting
      decreases |waiting|
    {
      var x :| x in waiting;
      waiting := waiting - {x};
      order := order + [x];
    }
  }

  /** Every topic's list in such an order. */
  method Arrangements(engine: TwitterEngine) returns (order: map<string, seq<User>>)
    ensures engine.OrderKnown(order) && forall n :: n in engine.topics ==> n in order && NoRepeats(order[n])
  {
    order := map[];
    var waiting := engine.topics.Keys;
    while waiting != {}
      invariant waiting <= engine.topics.Keys
      invariant forall n :: n in engine.topics && n !in waiting ==>
                  n in order && Visits(order[n], engine.topics[n].subscribers.Keys) && NoRepeats(order[n])
      decreases |waiting|
    {
      var n :| n in waiting;
      waiting := waiting - {n};
      var users := Arrange(engine.topics[n].subscribers.Keys);
      order := order[n := users];
    }
  }

  lemma NamesEnumerate(engine: TwitterEngine, order: map<string, seq<User>>, n: string)
    requires engine.Linked() && engine.OrderKnown(order) && n in engine.topics && n in order && NoRepeats(order[n])
    ensures n in engine.State().topics && n in NamesOf(order)
    ensures Enumerates(NamesOf(order)[n], engine.State().topics[n].subscribers.Keys)
  {
    engine.TopicsByName(n);
    engine.KeysAreNames(engine.topics[n], order[n]);
    var us, ns := order[n], Names(order[n]);
    engine.ListedByName(engine.topics[n]);
    forall i, j | 0 <= i < j < |ns| ensures ns[i] != ns[j] {
      assert us[i] != us[j] && engine.UserKnown(us[i]) && engine.UserKnown(us[j]);
    }
  }

  class ProtocolTask {
    const protocol: StompProtocol
    const tokenizer: ReactorTokenizer
    const engine: TwitterEngine

    constructor (protocol: StompProtocol, tokenizer: ReactorTokenizer, engine: TwitterEngine)
      ensures this.protocol == protocol && this.tokenizer == tokenizer && this.engine == engine
    {
      this.protocol, this.tokenizer, this.engine := protocol, tokenizer, engine;
    }

    ghost predicate Ready()
      reads engine, engine.Objects()
    {
      engine.Linked() && engine.SessionKnown(protocol) && Sound(engine.State())
    }

    /** What a step takes from its surroundings: the orders in which the maps yield
        their keys, and the text of a report. Nothing changes. */
    method Surroundings(frame: ClientFrame) returns (order: map<string, seq<User>>, ids: seq<string>, report: string)
      requires Ready()
      ensures Ready() && engine.State() == old(engine.State()) && engine.OrderKnown(order)
      ensures frame.Connect? && frame.login in engine.users ==>
                Enumerates(ids, engine.users[frame.login].subscribedTopics.Keys)
      ensures !AsServer(frame) ==> Orderly(engine.State(), Receive(protocol.id, frame, report, NamesOf(order)))
    {
      hide TwitterEngine.Linked, TwitterEngine.State, Sound;
      order := Arrangements(engine);
      ids := [];
      if frame.Connect? {
        if frame.login in engine.users {
          ids := Arrange(engine.users[frame.login].subscribedTopics.Keys);
        }
      }
      report := *;
      engine.NothingChanged();
      forall n | n in engine.State().topics
        ensures n in NamesOf(order) && Enumerates(NamesOf(order)[n], engine.State().topics[n].subscribers.Keys)
      {
        engine.TopicsByName(n);
        NamesEnumerate(engine, order, n);
      }
    }

    /** The loop body: one frame processed to the end is one step of the model, from
        which the next can follow unless it was a login as "server". */
    method Handle(msg: Option<Frames.Frame>) returns (ghost event: Event)
      requires Ready()
      modifies protocol`currentUser, protocol`shouldClose, engine`users, engine`topics, engine`totalMessagesPosted
      modifies engine.users.Values, engine.topics.Values, engine.Connections()
      ensures engine.OnlyAdded() && engine.State() == Step(old(engine.State()), event)
      ensures event.Receive? && event.session == protocol.id && event.frame == Wire.ToRequest(msg)
      ensures !AsServer(event.frame) ==> Ready() && Orderly(old(engine.State()), event)
      ensures msg.Some? && msg.value.command == Frames.DISCONNECT ==>
                protocol.shouldClose && protocol.connection.outData != []
    {
      hide TwitterEngine.Linked, TwitterEngine.SessionsLinked, TwitterEngine.State, TwitterEngine.OrderKnown;
      hide TwitterEngine.Held;
      hide Sound, Process, Wire.ToRequest, Orderly, Enumerates;
      var frame := Wire.ToRequest(msg);
      var order, ids, report := Surroundings(frame);
      ghost var w := engine.State();
      event := Receive(protocol.id, frame, report, NamesOf(order));
      if !AsServer(frame) { StepSound(w, event); }
      var response := protocol.ProcessMessage(frame, engine, report, order, ids);
      if response.Some? {
        engine.HandOver(protocol, response.value);
        if response.value.Connected? {
          engine.FlushHandler(protocol);
        }
      }
      if msg.Some? && msg.value.command == Frames.DISCONNECT {
        DisconnectArrives(msg.value);
        DisconnectAnswered(w, protocol.id, frame, report, NamesOf(order));
        NowClosing(w, event);
      }
    }

    lemma NowClosing(w: World, event: Event)
      requires engine.SessionsLinked() && engine.SessionKnown(protocol) && engine.State() == Step(w, event)
      requires protocol.id in w.sessions && event.Receive? && event.session == protocol.id && event.frame.Disconnect?
      ensures protocol.shouldClose
    {
      hide TwitterEngine.State, Step, TwitterEngine.SessionsLinked;
      Effects.ClosingStep(w, event, protocol.id);
      engine.SessionByName(protocol);
    }

    /** A DISCONNECT handled, and a write for which the socket has room for the first
        pending buffer: the connection is closed. */
    method DisconnectCloses(msg: Frames.Frame, more: nat)
      requires Ready() && msg.command == Frames.DISCONNECT
      modifies protocol`currentUser, protocol`shouldClose, engine`users, engine`topics, engine`totalMessagesPosted
      modifies engine.users.Values, engine.topics.Values, engine.Connections()
      ensures !protocol.connection.open
    {
      hide TwitterEngine.Linked, TwitterEngine.SessionsLinked, TwitterEngine.State, Sound, Wire.ToRequest;
      var c := protocol.connection;
      engine.SessionsOfLinked();
      engine.OutputReady(protocol);
      DisconnectArrives(msg);
      var _ := Handle(Some(msg));
      engine.SessionsOfLinked();
      engine.OutputReady(protocol);
      c.Write(|c.outData[0]| + more);
    }

    /** The next complete frame; the engine is not touched. */
    method Take() returns (msg: Option<Frames.Frame>)
      requires Ready() && tokenizer.Valid() && NUL in tokenizer.stringBuf
      requires forall t :: t in Complete(tokenizer.input) ==> !AsServer(Wire.ToRequest(Frames.Parse(t)))
      modifies tokenizer
      ensures Ready() && engine.State() == old(engine.State()) && !AsServer(Wire.ToRequest(msg))
      ensures tokenizer.Valid() && tokenizer.input == old(tokenizer.input) &&
              tokenizer.buffers == old(tokenizer.buffers)
      ensures |tokenizer.stringBuf| < old(|tokenizer.stringBuf|)
      ensures tokenizer.taken != [] &&
              tokenizer.taken == old(tokenizer.taken) + [tokenizer.taken[|tokenizer.taken| - 1]]
      ensures msg == Frames.Parse(tokenizer.taken[|tokenizer.taken| - 1])
    {
      hide TwitterEngine.Linked, TwitterEngine.State, Sound, AsServer, Wire.ToRequest, Frames.Parse, Terminated, Concat;
      hide Complete;
      msg := tokenizer.NextMessage();
      TakenAreComplete(tokenizer.taken, tokenizer.stringBuf, Concat(tokenizer.buffers));
      engine.NothingChanged();
    }

    /** The next complete frame, taken and handled. */
    method HandleNext() returns (ghost event: Event)
      requires Ready() && tokenizer.Valid() && NUL in tokenizer.stringBuf
      requires forall t :: t in Complete(tokenizer.input) ==> !AsServer(Wire.ToRequest(Frames.Parse(t)))
      modifies tokenizer, protocol`currentUser, protocol`shouldClose, engine`users, engine`topics
      modifies engine`totalMessagesPosted
      modifies engine.users.Values, engine.topics.Values, engine.Connections()
      ensures Ready() && engine.OnlyAdded() && engine.State() == Step(old(engine.State()), event)
      ensures Orderly(old(engine.State()), event) && event.Receive? && event.session == protocol.id
      ensures tokenizer.Valid() && tokenizer.input == old(tokenizer.input) &&
              tokenizer.buffers == old(tokenizer.buffers)
      ensures |tokenizer.stringBuf| < old(|tokenizer.stringBuf|)
      ensures tokenizer.taken != [] &&
              tokenizer.taken == old(tokenizer.taken) + [tokenizer.taken[|tokenizer.taken| - 1]]
      ensures event.frame == Wire.ToRequest(Frames.Parse(tokenizer.taken[|tokenizer.taken| - 1]))
    {
      hide TwitterEngine.Linked, TwitterEngine.State, Sound, AsServer, Wire.ToRequest, Frames.Parse;
      hide Terminated, Concat, Complete, Step, Orderly;
      var msg := Take();
      event := Handle(msg);
    }

    /** The tokenizer decodes what has arrived; nothing else changes. */
    method HasMessage() returns (has: bool)
      requires Ready() && tokenizer.Valid()
      modifies tokenizer
      ensures Ready() && engine.State() == old(engine.State())
      ensures tokenizer.Valid() && tokenizer.input == old(tokenizer.input) && tokenizer.taken == old(tokenizer.taken)
      ensures tokenizer.buffers == [] && (has <==> NUL in tokenizer.stringBuf)
      ensures old(tokenizer.buffers) == [] ==> tokenizer.stringBuf == old(tokenizer.stringBuf)
    {
      hide TwitterEngine.Linked, TwitterEngine.State, Sound, Concat;
      if tokenizer.buffers == [] { NothingPending(tokenizer.buffers); }
      has := tokenizer.HasMessage();
      engine.NothingChanged();
    }

    /** ProtocolTask.run: every complete frame that has arrived is processed, in
        order, and none is left; together they are a run of the model. */
    method Run() returns (ghost events: seq<Event>)
      requires Ready() && tokenizer.Valid()
      requires forall t :: t in Complete(tokenizer.input) ==> !AsServer(Wire.ToRequest(Frames.Parse(t)))
      modifies tokenizer, protocol`currentUser, protocol`shouldClose, engine`users, engine`topics
      modifies engine`totalMessagesPosted
      modifies engine.users.Values, engine.topics.Values, engine.Connections()
      ensures Ready() && tokenizer.Valid() && tokenizer.input == old(tokenizer.input)
      ensures tokenizer.taken == Complete(tokenizer.input) && tokenizer.stringBuf == Remainder(tokenizer.input) &&
              tokenizer.buffers == []
      ensures old(tokenizer.taken) <= tokenizer.taken &&
              Carries(events, protocol.id, tokenizer.taken[|old(tokenizer.taken)|..])
      ensures OrderlyRun(old(engine.State()), events) && engine.State() == W.Run(old(engine.State()), events)
    {
      hide TwitterEngine.Linked, TwitterEngine.State, Sound, AsServer, Wire.ToRequest, Frames.Parse;
      hide Terminated, Concat, Complete, Remainder, Step, Orderly, W.Run, OrderlyRun, Carries;
      ghost var w := engine.State();
      ghost var got: seq<string> := [];
      events := [];
      RunNone(w, protocol.id);
      var has := HasMessage();
      while has
        invariant Ready() && engine.OnlyAdded()
        invariant tokenizer.Valid() && tokenizer.input == old(tokenizer.input)
        invariant tokenizer.buffers == [] && (has <==> NUL in tokenizer.stringBuf)
        invariant tokenizer.taken == old(tokenizer.taken) + got && Carries(events, protocol.id, got)
        invariant OrderlyRun(w, events) && engine.State() == W.Run(w, events)
        decreases |tokenizer.stringBuf|
      {
        var event := HandleNext();
        ghost var text := tokenizer.taken[|tokenizer.taken| - 1];
        RunSnoc(w, protocol.id, events, event, got, text);
        events, got := events + [event], got + [text];
        has := HasMessage();
      }
      assert tokenizer.taken[|old(tokenizer.taken)|..] == got;
      TakenIsComplete(tokenizer.taken, tokenizer.stringBuf);
      NothingPending(tokenizer.buffers);
      assert Terminated(tokenizer.taken) + tokenizer.stringBuf + "" ==
               Terminated(tokenizer.taken) + tokenizer.stringBuf;
    }
  }

  lemma DisconnectArrives(f: Frames.Frame)
    requires f.command == Frames.DISCONNECT
    ensures Wire.ToRequest(Some(f)).Disconnect?
  {
  }

  lemma DisconnectAnswered(w: World, k: nat, f: ClientFrame, report: string, order: map<string, seq<string>>)
    requires k in w.sessions && f.Disconnect?
    ensures Process(w, k, f, report, order).1 == Some(Receipt(f.receipt))
  {
  }

  /** The events are the session's, one for each text, with the request it parses to. */
  ghost predicate Carries(events: seq<Event>, k: nat, texts: seq<string>)
  {
    |events| == |texts| &&
    forall i :: 0 <= i < |events| ==>
      events[i].Receive? && events[i].session == k && events[i].frame == Wire.ToRequest(Frames.Parse(texts[i]))
  }

  lemma RunNone(w: World, k: nat)
    ensures W.Run(w, []) == w && OrderlyRun(w, []) && Carries([], k, [])
  {
  }

  lemma RunSnoc(w: World, k: nat, es: seq<Event>, e: Event, texts: seq<string>, text: string)
    requires Carries(es, k, texts)
    ensures W.Run(w, es + [e]) == Step(W.Run(w, es), e)
    ensures OrderlyRun(w, es + [e]) <==> OrderlyRun(w, es) && Orderly(W.Run(w, es), e)
    ensures Carries(es + [e], k, texts + [text]) <==>
              e.Receive? && e.session == k && e.frame == Wire.ToRequest(Frames.Parse(text))
  {
    hide Step, Orderly, Wire.ToRequest, Frames.Parse;
    assert (es + [e])[..|es|] == es;
    if Carries(es + [e], k, texts + [text]) { assert (es + [e])[|es|] == e && (texts + [text])[|es|] == text; }
  }

  lemma TakenAreComplete(ts: seq<string>, a: string, b: string)
    requires forall t :: t in ts ==> NUL !in t
    ensures forall t :: t in ts ==> t in Complete(Terminated(ts) + a + b)
  {
    var rest := a + b;
    assert Terminated(ts) + a + b == Terminated(ts) + rest;
    SplitTerminated(ts, rest);
    var parts := ts + Split(rest, NUL);
    forall t | t in ts ensures t in parts[..|parts| - 1] {
      var i :| 0 <= i < |ts| && ts[i] == t;
      assert parts[..|parts| - 1][i] == t;
    }
  }
}
