/** From the typed frames of the protocol to text and back, over whole streams:
    requests and replies mean the same on the other side. */
module Wire {
  import opened Text
  import W = World
  import opened Client
  import opened Frames
  import opened RoundTrip
  import opened Tokenizers
  import opened ClientFrames
  import Order

  // -------------------------------------------------------------------- requests

  /** The frame object behind a client's request; host is the address the client
      connects to. */
  function RequestFrame(r: W.ClientFrame, host: string): Frame
    requires !r.Invalid?
  {
    match r
    case Connect(login, passcode) =>
      Frame(CONNECT, map["accept-version" := "1.2", "host" := host, "login" := login, "passcode" := passcode], "\n")
    case Disconnect(receipt) => Frame(DISCONNECT, map["receipt" := receipt], "\n")
    case Subscribe(destination, id) => Frame(SUBSCRIBE, map["destination" := destination, "id" := id], "\n")
    case Unsubscribe(id) => Frame(UNSUBSCRIBE, map["id" := id], "\n")
    case Send(destination, body) => Frame(SEND, map["destination" := destination], body)
  }

  function Header(f: Frame, key: string): string
  {
    if key in f.headers then f.headers[key] else ""
  }

  /** What processMessage goes by: kind, headers and body of a parsed frame. */
  function ToRequest(f: Option<Frame>): W.ClientFrame
  {
    match f
    case None => W.Invalid("Frame error.", "")
    case Some(g) =>
      match g.command
      case CONNECT => W.Connect(Header(g, "login"), Header(g, "passcode"))
      case DISCONNECT => W.Disconnect(Header(g, "receipt"))
      case SUBSCRIBE => W.Subscribe(Header(g, "destination"), Header(g, "id"))
      case UNSUBSCRIBE => W.Unsubscribe(Header(g, "id"))
      case SEND => W.Send(Header(g, "destination"), g.body)
      case _ => W.Invalid(Header(g, "message"), g.body)
  }

  /** How a request reads once it has arrived: a post's body is normalized. */
  function Arrived(r: W.ClientFrame): W.ClientFrame
  {
    if r.Send? then W.Send(r.destination, Norm("\n" + r.body)) else r
  }

  /** A value that a header line carries unharmed. */
  predicate Plain(value: string)
  {
    '\n' !in value && '\r' !in value && NUL !in value && Trimmed(Blank, ":" + value)
  }

  predicate PlainRequest(r: W.ClientFrame)
  {
    match r
    case Connect(login, passcode) => Plain(login) && Plain(passcode)
    case Disconnect(receipt) => Plain(receipt)
    case Subscribe(destination, id) => Plain(destination) && Plain(id)
    case Unsubscribe(id) => Plain(id)
    case Send(destination, body) => Plain(destination) && NUL !in body && '\r' !in body
    case Invalid(_, _) => false
  }

  lemma PlainHeader(key: string, value: string)
    requires Plain(value) && key != "" && !Blank(key[0]) && ':' !in key && '\n' !in key && NUL !in key
    ensures WellFormedHeader(key, value)
  {
    var l := HeaderLine(key, value);
    assert l == key + (":" + value);
    assert l[|l| - 1] == (":" + value)[|value|] && l[0] == key[0];
  }

  lemma OneHeader(key: string, value: string)
    requires Plain(value) && key in ["message", "receipt-id", "receipt", "id", "destination"]
    ensures WellFormedHeaders(map[key := value])
  {
    hide WellFormedHeader, Plain;
    PlainHeader(key, value);
  }

  lemma ConnectHeaders(host: string, login: string, passcode: string)
    requires Plain(host) && Plain(login) && Plain(passcode)
    ensures WellFormedHeaders(map["accept-version" := "1.2", "host" := host, "login" := login, "passcode" := passcode])
  {
    hide WellFormedHeader;
    PlainHeader("accept-version", "1.2");
    PlainHeader("host", host);
    PlainHeader("login", login);
    PlainHeader("passcode", passcode);
  }

  lemma TwoHeaders(destination: string, id: string)
    requires Plain(destination) && Plain(id)
    ensures WellFormedHeaders(map["destination" := destination, "id" := id])
  {
    hide WellFormedHeader, Plain;
    PlainHeader("destination", destination);
    PlainHeader("id", id);
  }

  lemma RequestHeaders(r: W.ClientFrame, host: string)
    requires PlainRequest(r) && Plain(host)
    ensures WellFormedHeaders(RequestFrame(r, host).headers) && HasMandatory(RequestFrame(r, host))
    ensures forall k :: k in RequestFrame(r, host).headers ==> '\r' !in k && '\r' !in RequestFrame(r, host).headers[k]
  {
    hide Plain, WellFormedHeaders;
    match r
    case Connect(login, passcode) =>
      ConnectHeaders(host, login, passcode);
      NoReturn(host);
      NoReturn(login);
      NoReturn(passcode);
    case Disconnect(receipt) =>
      OneHeader("receipt", receipt);
      NoReturn(receipt);
    case Subscribe(destination, id) =>
      TwoHeaders(destination, id);
      NoReturn(destination);
      NoReturn(id);
    case Unsubscribe(id) =>
      OneHeader("id", id);
      NoReturn(id);
    case Send(destination, body) =>
      OneHeader("destination", destination);
      NoReturn(destination);
  }

  lemma NoReturn(value: string)
    requires Plain(value)
    ensures '\r' !in value
  {
  }

  /** One request survives printing on the client and parsing on the server. */
  lemma RequestArrives(r: W.ClientFrame, host: string, keys: seq<string>)
    requires PlainRequest(r) && Plain(host) && HeaderOrder(keys, RequestFrame(r, host).headers)
    ensures ToRequest(Parse(ClientText(RequestFrame(r, host), keys))) == Arrived(r)
  {
    hide Parse, ClientText, WellFormedHeaders, HasMandatory, Plain;
    assert forall k :: k in keys ==> k in RequestFrame(r, host).headers;
    RequestHeaders(r, host);
    ClientToServer(RequestFrame(r, host), keys);
  }

  function ToRequests(fs: seq<Option<Frame>>): (rs: seq<W.ClientFrame>)
    ensures |rs| == |fs| && forall i :: 0 <= i < |fs| ==> rs[i] == ToRequest(fs[i])
  {
    seq(|fs|, i requires 0 <= i < |fs| => ToRequest(fs[i]))
  }

  ghost predicate Sendable(rs: seq<W.ClientFrame>, host: string, keys: seq<seq<string>>)
  {
    Plain(host) && |keys| == |rs| &&
    forall i :: 0 <= i < |rs| ==> PlainRequest(rs[i]) && HeaderOrder(keys[i], RequestFrame(rs[i], host).headers)
  }

  /** The lines of each printed request. */
  ghost function RequestLines(rs: seq<W.ClientFrame>, host: string, keys: seq<seq<string>>): (frames: seq<seq<string>>)
    requires Sendable(rs, host, keys)
    ensures |frames| == |rs| &&
            forall i :: 0 <= i < |rs| ==> frames[i] == ClientLines(RequestFrame(rs[i], host), keys[i])
  {
    seq(|rs|, i requires 0 <= i < |rs| => ClientLines(RequestFrame(rs[i], host), keys[i]))
  }

  /** A whole stream of client-printed requests arrives, in order, at either
      server: cut at NULs or read by lines, and parsed, it is the same requests. */
  lemma RequestStream(rs: seq<W.ClientFrame>, host: string, keys: seq<seq<string>>)
    requires Sendable(rs, host, keys)
    ensures var stream := ClientStream(RequestLines(rs, host, keys));
            ToRequests(ParseAll(Complete(stream))) == ToRequests(LineFrames(stream)) &&
            |ToRequests(LineFrames(stream))| == |rs| &&
            forall i :: 0 <= i < |rs| ==> ToRequests(LineFrames(stream))[i] == Arrived(rs[i])
  {
    hide ClientText, ClientLines, Parse, Lines, PlainRequest, HeaderOrder, Printable, ClientStream;
    var frames := RequestLines(rs, host, keys);
    forall ls | ls in frames ensures Printable(ls) {
      var i :| 0 <= i < |rs| && ls == frames[i];
      PrintedLines(rs[i], host, keys[i]);
    }
    FrontEndsAgree(frames);
    LineFramesOf(frames);
    forall i | 0 <= i < |rs| ensures ToRequest(Parse(Lines(frames[i]))) == Arrived(rs[i]) {
      PrintedLines(rs[i], host, keys[i]);
      RequestArrives(rs[i], host, keys[i]);
    }
  }

  lemma PrintedLines(r: W.ClientFrame, host: string, keys: seq<string>)
    requires PlainRequest(r) && Plain(host) && HeaderOrder(keys, RequestFrame(r, host).headers)
    ensures Printable(ClientLines(RequestFrame(r, host), keys)) &&
            Lines(ClientLines(RequestFrame(r, host), keys)) == ClientText(RequestFrame(r, host), keys)
  {
    hide ClientText, ClientLines, Lines, WellFormedHeaders, HeaderOrder, Printable;
    RequestHeaders(r, host);
    ClientTextLines(RequestFrame(r, host), keys);
  }

  // --------------------------------------------------------------------- replies

  /** The frame object behind what the server sends; session id, timestamp and
      message id are the clock's and the id generator's. */
  function ReplyFrame(f: W.ServerFrame, stamp: string, unique: string): Frame
  {
    match f
    case Connected => Frame(CONNECTED, map["session" := unique, "version" := "1.2"], "")
    case Error(message, body) => Frame(ERROR, map["message" := message], body)
    case Receipt(id) => Frame(RECEIPT, map["receipt-id" := id], "")
    case MessageFrame(destination, subscription, body) =>
      Frame(MESSAGE,
            map["destination" := destination, "subscription" := subscription,
                "timestamp" := stamp, "message-id" := unique],
            body)
  }

  function Get(p: Parsed, key: string): string
  {
    if key in p.headers then p.headers[key] else ""
  }

  /** What the visitor goes by. */
  function View(p: Parsed): W.ServerFrame
  {
    match p.kind
    case CONNECTED => W.Connected
    case ERROR => W.Error(Get(p, "message"), p.body)
    case RECEIPT => W.Receipt(Get(p, "receipt-id"))
    case _ => W.MessageFrame(Get(p, "destination"), Get(p, "subscription"), p.body)
  }

  predicate PlainReply(f: W.ServerFrame)
  {
    match f
    case Connected => true
    case Error(message, body) => Plain(message) && NUL !in body
    case Receipt(id) => Plain(id)
    case MessageFrame(destination, subscription, body) => Plain(destination) && Plain(subscription) && NUL !in body
  }

  /** A confirmation's text names one user. */
  ghost predicate Readable(f: W.ServerFrame, user: string)
  {
    Order.Confirmation(f, user) ==>
      exists n :: n != "" && Word(n) && (f.body == "following " + n || f.body == "unfollowing " + n)
  }

  lemma MessageHeaders(destination: string, subscription: string, stamp: string, unique: string)
    requires Plain(destination) && Plain(subscription) && Plain(stamp) && Plain(unique)
    ensures WellFormedHeaders(map["destination" := destination, "subscription" := subscription, "timestamp" := stamp,
              "message-id" := unique])
  {
    hide WellFormedHeader, Plain;
    PlainHeader("destination", destination);
    PlainHeader("subscription", subscription);
    PlainHeader("timestamp", stamp);
    PlainHeader("message-id", unique);
  }

  lemma ConnectedHeaders(unique: string)
    requires Plain(unique)
    ensures WellFormedHeaders(map["session" := unique, "version" := "1.2"])
  {
    hide WellFormedHeader;
    PlainHeader("session", unique);
    PlainHeader("version", "1.2");
  }

  lemma ReplyHeaders(f: W.ServerFrame, stamp: string, unique: string)
    requires PlainReply(f) && Plain(stamp) && Plain(unique)
    ensures WellFormedHeaders(ReplyFrame(f, stamp, unique).headers)
    ensures KindOf(Name(ReplyFrame(f, stamp, unique).command)) == Some(ReplyFrame(f, stamp, unique).command)
  {
    hide WellFormedHeaders, Plain;
    match f
    case Connected => ConnectedHeaders(unique);
    case Error(message, body) => OneHeader("message", message);
    case Receipt(id) => OneHeader("receipt-id", id);
    case MessageFrame(destination, subscription, body) => MessageHeaders(destination, subscription, stamp, unique);
  }

  /** The name in a confirmation is still the second word of what the client got. */
  lemma ReceivedName(n: string, body: string)
    requires n != "" && Word(n) && (body == "following " + n || body == "unfollowing " + n)
    ensures SecondWord(Received(body)) == SecondWord(body) == n
  {
    var a := if body == "following " + n then "following" else "unfollowing";
    assert body == a + " " + n;
    var s := body + "\n" + [NUL];
    assert s[0] == a[0] && !Space(s[0]);
    assert TrimLeft(Space, s) == s;
    SecondOfTwo(a, n, "\n" + [NUL]);
    assert s == a + " " + n + ("\n" + [NUL]);
    SecondOfTwo(a, n, "");
    assert a + " " + n + "" == body;
  }

  /** One frame survives printing on the server and parsing on the client, as far
      as the client's table is concerned. */
  lemma ReplyArrives(c: ClientState, f: W.ServerFrame, stamp: string, unique: string, keys: seq<string>, lead: string)
    requires PlainReply(f) && Plain(stamp) && Plain(unique) && Readable(f, c.user)
    requires HeaderOrder(keys, ReplyFrame(f, stamp, unique).headers) && (lead == "" || lead == "\n")
    ensures var s := lead + PrintedText(ReplyFrame(f, stamp, unique), keys) + [NUL];
            TypeAndHeaders(s) != "" && ClientParse(s).Some? && Visit(c, View(ClientParse(s).value)) == Visit(c, f)
  {
    hide PrintedText, TypeAndHeaders, ClientParse, WellFormedHeaders, Plain, KindOf, Name, SecondWord, Received;
    var g := ReplyFrame(f, stamp, unique);
    assert forall k :: k in keys ==> k in g.headers;
    ReplyHeaders(f, stamp, unique);
    ServerToClient(g, keys, lead);
    var p := ClientParse(lead + PrintedText(g, keys) + [NUL]).value;
    if f.MessageFrame? {
      assert f.body != "" ==> View(p) == W.MessageFrame(f.destination, f.subscription, Received(f.body));
      if Order.Confirmation(f, c.user) {
        var n :| n != "" && Word(n) && (f.body == "following " + n || f.body == "unfollowing " + n);
        ReceivedName(n, f.body);
      }
    }
  }

  /** The client's table after a run of the listener over its answers. */
  ghost function Listen(c: ClientState, answers: seq<string>): ClientState
    decreases |answers|
  {
    if answers == [] then c
    else
      var s := answers[0];
      var d := if TypeAndHeaders(s) != "" && ClientParse(s).Some? then Visit(c, View(ClientParse(s).value)) else c;
      Listen(d, answers[1..])
  }

  ghost function VisitInOrder(c: ClientState, fs: seq<W.ServerFrame>): ClientState
    decreases |fs|
  {
    if fs == [] then c else VisitInOrder(Visit(c, fs[0]), fs[1..])
  }

  lemma {:induction false} VisitInOrderIsVisitAll(c: ClientState, fs: seq<W.ServerFrame>)
    ensures VisitInOrder(c, fs) == VisitAll(c, fs)
    decreases |fs|
  {
    if fs != [] {
      VisitInOrderIsVisitAll(Visit(c, fs[0]), fs[1..]);
      VisitAllConcat(c, [fs[0]], fs[1..]);
      assert [fs[0]] + fs[1..] == fs;
      assert [fs[0]][..0] == [] && VisitAll(c, [fs[0]]) == Visit(c, fs[0]);
    }
  }

  /** A server frame with what is needed to print it. */
  datatype Outgoing = Outgoing(frame: W.ServerFrame, stamp: string, unique: string, keys: seq<string>)

  ghost predicate OutgoingOk(o: Outgoing, user: string)
  {
    PlainReply(o.frame) && Plain(o.stamp) && Plain(o.unique) && Readable(o.frame, user) &&
    HeaderOrder(o.keys, ReplyFrame(o.frame, o.stamp, o.unique).headers)
  }

  ghost function TextOf(o: Outgoing): string
  {
    if forall k :: k in o.keys ==> k in ReplyFrame(o.frame, o.stamp, o.unique).headers
    then PrintedText(ReplyFrame(o.frame, o.stamp, o.unique), o.keys) else ""
  }

  ghost function TextsOf(os: seq<Outgoing>): (ts: seq<string>)
    ensures |ts| == |os| && forall i :: 0 <= i < |os| ==> ts[i] == TextOf(os[i])
  {
    seq(|os|, i requires 0 <= i < |os| => TextOf(os[i]))
  }

  function FramesOf(os: seq<Outgoing>): (fs: seq<W.ServerFrame>)
    ensures |fs| == |os| && forall i :: 0 <= i < |os| ==> fs[i] == os[i].frame
  {
    seq(|os|, i requires 0 <= i < |os| => os[i].frame)
  }

  lemma {:induction false} ListenLeads(c: ClientState, os: seq<Outgoing>, lead: string, trailer: char)
    requires (forall o :: o in os ==> OutgoingOk(o, c.user)) && (lead == "" || lead == "\n")
    ensures Listen(c, Leads(TextsOf(os), lead, trailer)) == VisitInOrder(c, FramesOf(os))
    decreases |os|
  {
    hide Visit, View, ClientParse, TypeAndHeaders, PrintedText, PlainReply, Plain, Readable, HeaderOrder;
    if os != [] {
      var o, ts := os[0], TextsOf(os);
      TextIsPrinted(o, c.user);
      ReplyArrives(c, o.frame, o.stamp, o.unique, o.keys, lead);
      VisitAllGrows(c, [o.frame]);
      VisitKeepsUser(c, o.frame);
      ListenLeads(Visit(c, o.frame), os[1..], if trailer == '\n' then "\n" else "", trailer);
      assert ts[1..] == TextsOf(os[1..]) && FramesOf(os)[1..] == FramesOf(os[1..]);
      var answers := Leads(ts, lead, trailer);
      assert answers[0] == lead + ts[0] + [NUL];
      assert answers[1..] == Leads(ts[1..], if trailer == '\n' then "\n" else "", trailer);
    }
  }

  lemma TextIsPrinted(o: Outgoing, user: string)
    requires OutgoingOk(o, user)
    ensures TextOf(o) == PrintedText(ReplyFrame(o.frame, o.stamp, o.unique), o.keys)
  {
  }

  /** No printed frame holds a NUL. */
  lemma NoNul(o: Outgoing, user: string)
    requires OutgoingOk(o, user)
    ensures NUL !in TextOf(o) && TextOf(o) != ""
  {
    hide Plain, Readable;
    TextIsPrinted(o, user);
    ReplyHeaders(o.frame, o.stamp, o.unique);
    NoNulPrinted(ReplyFrame(o.frame, o.stamp, o.unique), o.keys);
  }

  lemma NoNulPrinted(f: Frame, keys: seq<string>)
    requires HeaderOrder(keys, f.headers) && WellFormedHeaders(f.headers) && NUL !in f.body
    ensures NUL !in PrintedText(f, keys) && PrintedText(f, keys) != ""
  {
    var ls := [Name(f.command)] + HeaderLines(f.headers, keys);
    forall l | l in ls ensures NUL !in l {
      if l in HeaderLines(f.headers, keys) {
        var i :| 0 <= i < |keys| && l == HeaderLine(keys[i], f.headers[keys[i]]);
        assert WellFormedHeader(keys[i], f.headers[keys[i]]);
      }
    }
    NulFreeLines(ls);
    assert Lines(ls) == ls[0] + "\n" + Lines(ls[1..]);
  }

  lemma {:induction false} NulFreeLines(ls: seq<string>)
    requires forall l :: l in ls ==> NUL !in l
    ensures NUL !in Lines(ls)
  {
    if ls != [] {
      assert ls[0] in ls && forall l :: l in ls[1..] ==> l in ls;
      NulFreeLines(ls[1..]);
    }
  }

  /** A whole stream of server-printed frames, from either server, does to the
      client's table what the typed frames do, one after the other. */
  lemma ReplyStream(c: ClientState, os: seq<Outgoing>, trailer: char)
    requires (forall o :: o in os ==> OutgoingOk(o, c.user)) && trailer in [NUL, '\n']
    ensures Listen(c, Answers(Complete(ServerStream(TextsOf(os), trailer)))) == VisitAll(c, FramesOf(os))
  {
    hide TextOf, OutgoingOk;
    forall t | t in TextsOf(os) ensures NUL !in t && t != "" {
      var i :| 0 <= i < |os| && t == TextOf(os[i]);
      NoNul(os[i], c.user);
    }
    AnswersOfStream(TextsOf(os), "", trailer);
    assert "" + ServerStream(TextsOf(os), trailer) == ServerStream(TextsOf(os), trailer);
    ListenLeads(c, os, "", trailer);
    VisitInOrderIsVisitAll(c, FramesOf(os));
  }
}
