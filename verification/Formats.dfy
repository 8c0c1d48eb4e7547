/** The text of every frame, character by character: what the client's requests look
    like and are read as, and what the server's replies look like and are read as. */
module Formats {
  import opened Text
  import W = World
  import opened Frames
  import opened RoundTrip
  import opened ClientFrames
  import opened Wire
  import opened Layout

  // -------------------------------------------------------------------- requests

  function Line(key: string, value: string): string { key + ":" + value + "\n" }

  /** A request as the client sends it, without the NUL at the end. */
  function RequestText(r: W.ClientFrame, host: string): string
    requires !r.Invalid?
  {
    match r
    case Connect(login, passcode) =>
      "CONNECT" + "\n" + (Line("accept-version", "1.2") + (Line("host", host) + (Line("login", login) +
                                                                                Line("passcode", passcode)))) +
      "\n\n" + "\n" + "\n"
    case Disconnect(receipt) => "DISCONNECT" + "\n" + Line("receipt", receipt) + "\n\n" + "\n" + "\n"
    case Subscribe(destination, id) =>
      "SUBSCRIBE" + "\n" + (Line("destination", destination) + Line("id", id)) + "\n\n" + "\n" + "\n"
    case Unsubscribe(id) => "UNSUBSCRIBE" + "\n" + Line("id", id) + "\n\n" + "\n" + "\n"
    case Send(destination, body) => "SEND" + "\n" + Line("destination", destination) + "\n\n" + body + "\n"
  }

  /** The header names in the order of the client's map. */
  function RequestKeys(r: W.ClientFrame): seq<string>
  {
    match r
    case Connect(_, _) => ["accept-version", "host", "login", "passcode"]
    case Disconnect(_) => ["receipt"]
    case Subscribe(_, _) => ["destination", "id"]
    case Unsubscribe(_) => ["id"]
    case Send(_, _) => ["destination"]
    case Invalid(_, _) => []
  }

  lemma RequestPrinted(r: W.ClientFrame, host: string)
    requires !r.Invalid?
    ensures HeaderOrder(RequestKeys(r), RequestFrame(r, host).headers)
    ensures ClientText(RequestFrame(r, host), RequestKeys(r)) == RequestText(r, host)
  {
    hide Lines, HeaderLines;
    var h := RequestFrame(r, host).headers;
    match r
    case Disconnect(receipt) => LastHeader(h, "receipt");
    case Unsubscribe(id) => LastHeader(h, "id");
    case Send(destination, body) => LastHeader(h, "destination");
    case Subscribe(destination, id) =>
      FirstHeader(h, "destination", ["id"]);
      LastHeader(h, "id");
      assert ["destination"] + ["id"] == ["destination", "id"];
    case Connect(login, passcode) => ConnectHeaderLines(h);
  }

  lemma ConnectHeaderLines(h: map<string, string>)
    requires {"accept-version", "host", "login", "passcode"} == h.Keys
    ensures Lines(HeaderLines(h, ["accept-version", "host", "login", "passcode"])) ==
              Line("accept-version", h["accept-version"]) + (Line("host", h["host"]) + (Line("login", h["login"]) +
                                                                                       Line("passcode", h["passcode"])))
  {
    hide Lines, HeaderLines, Line;
    FirstHeader(h, "accept-version", ["host", "login", "passcode"]);
    FirstHeader(h, "host", ["login", "passcode"]);
    FirstHeader(h, "login", ["passcode"]);
    LastHeader(h, "passcode");
    assert ["login"] + ["passcode"] == ["login", "passcode"];
    assert ["host"] + ["login", "passcode"] == ["host", "login", "passcode"];
    assert ["accept-version"] + ["host", "login", "passcode"] == ["accept-version", "host", "login", "passcode"];
  }

  lemma LastHeader(headers: map<string, string>, key: string)
    requires key in headers
    ensures Lines(HeaderLines(headers, [key])) == Line(key, headers[key])
  {
    FirstHeader(headers, key, []);
    assert [key] + [] == [key] && HeaderLines(headers, []) == [];
    assert Line(key, headers[key]) + "" == Line(key, headers[key]);
  }

  lemma FirstHeader(headers: map<string, string>, key: string, keys: seq<string>)
    requires key in headers && forall k :: k in keys ==> k in headers
    ensures Lines(HeaderLines(headers, [key] + keys)) == Line(key, headers[key]) + Lines(HeaderLines(headers, keys))
  {
    assert HeaderLines(headers, [key] + keys)[1..] == HeaderLines(headers, keys);
  }

  /** n empty lines. */
  function Empties(n: nat): (ls: seq<string>)
    ensures |ls| == n && forall i :: 0 <= i < n ==> ls[i] == ""
  {
    seq(n, i => "")
  }

  /** A posted body is one line when it arrives: of the lines up to the last that is
      not empty, each trimmed and with a tab behind it, behind one more tab. */
  lemma SentBody(body: string, kept: seq<string>, n: nat)
    requires kept + Empties(n) != [] && body == Join(kept + Empties(n), '\n')
    requires (forall l :: l in kept ==> '\n' !in l) && (kept != [] ==> kept[|kept| - 1] != "")
    ensures Norm("\n" + body) == if kept == [] then "" else "\t" + Tabbed(kept)
  {
    hide Trim, Split, Join, DropEmptyTail, TabBody, Tabbed;
    var ls := kept + Empties(n);
    SplitJoin(ls, '\n');
    LeadingSplit(body);
    SentLines(kept, n);
    if kept == [] { NoTabs(); } else { TabFirst(kept); }
  }

  lemma SentLines(kept: seq<string>, n: nat)
    requires kept != [] ==> kept[|kept| - 1] != ""
    ensures DropEmptyTail([""] + (kept + Empties(n))) == if kept == [] then [] else [""] + kept
  {
    var ls := [""] + (kept + Empties(n));
    if kept == [] {
      DropsEmpty([], ls);
      assert [] + ls == ls;
    } else {
      DropsEmpty([""] + kept, Empties(n));
      assert ls == ([""] + kept) + Empties(n);
    }
  }

  lemma NoTabs()
    ensures TabBody([]) == ""
  {
  }

  lemma TabFirst(kept: seq<string>)
    ensures TabBody([""] + kept) == "\t" + Tabbed(kept)
  {
    hide Trim;
    TabbedIs([""] + kept);
    assert ([""] + kept)[1..] == kept;
    TrimEmpty();
    assert "" + "\t" + Tabbed(kept) == "\t" + Tabbed(kept);
  }

  /** What the server makes of a request's text is the request. */
  lemma RequestRead(r: W.ClientFrame, host: string)
    requires PlainRequest(r) && Plain(host)
    ensures r.Send? ==>
              ToRequest(Parse(RequestText(r, host))) == W.Send(r.destination, Norm("\n" + r.body))
    ensures !r.Send? ==> ToRequest(Parse(RequestText(r, host))) == r
  {
    hide PlainRequest, Plain, RequestText, Parse, ToRequest, Norm, ClientText;
    PlainKind(r);
    RequestPrinted(r, host);
    RequestArrives(r, host, RequestKeys(r));
  }

  lemma PlainKind(r: W.ClientFrame)
    requires PlainRequest(r)
    ensures !r.Invalid?
  {
  }

  /** A text without a character above the space, one that names no command, and a
      frame without a header it must have are read as the errors they are answered
      with. */
  lemma BadRequests(s: string, front: seq<string>, command: string, hl: seq<string>, more: seq<string>,
          kept: seq<string>)
    ensures AllBlank(s) ==> ToRequest(Parse(s)) == W.Invalid("Frame error.", "")
    ensures LaidOut(s, front, command, hl, more) && Kept(more, kept) && (forall c :: !Commands(command, c)) ==>
              ToRequest(Parse(s)) == W.Invalid("No matching STOMP command.", "")
    ensures LaidOut(s, front, command, hl, more) && Kept(more, kept) ==>
              forall c, h :: Commands(command, c) && Lacks(c, HeaderMap(hl), h) ==>
                ToRequest(Parse(s)) ==
                  W.Invalid("Frame error", h + " is a mandatory header.\nPlease try again.")
  {
    hide LaidOut, Kept, Commands, Lacks, HeaderMap, Parse, Complete;
    ParseNull(s);
    if LaidOut(s, front, command, hl, more) && Kept(more, kept) {
      TextParses(s, front, command, hl, more, kept);
      forall c, h | Commands(command, c) && Lacks(c, HeaderMap(hl), h)
        ensures ToRequest(Parse(s)) ==
                  W.Invalid("Frame error", h + " is a mandatory header.\nPlease try again.")
      {
        LacksOnce(c, HeaderMap(hl), h);
      }
    }
  }

  lemma LacksOnce(c: Command, headers: map<string, string>, h: string)
    requires Lacks(c, headers, h)
    ensures !Complete(c, headers) && forall g :: Lacks(c, headers, g) ==> g == h
  {
  }

  // --------------------------------------------------------------------- replies

  /** A reply as the server sends it, in one order of its headers. */
  function ReplyText(f: W.ServerFrame, stamp: string, unique: string): string
  {
    match f
    case Connected => "CONNECTED" + "\n" + (Line("session", unique) + Line("version", "1.2"))
    case Error(message, body) =>
      "ERROR" + "\n" + Line("message", message) + if body == "" then "" else "\n" + body + "\n"
    case Receipt(id) => "RECEIPT" + "\n" + Line("receipt-id", id)
    case MessageFrame(destination, subscription, body) =>
      "MESSAGE" + "\n" + (Line("destination", destination) + (Line("subscription", subscription) +
                         (Line("timestamp", stamp) + Line("message-id", unique)))) +
      if body == "" then "" else "\n" + body + "\n"
  }

  function ReplyKeys(f: W.ServerFrame): seq<string>
  {
    match f
    case Connected => ["session", "version"]
    case Error(_, _) => ["message"]
    case Receipt(_) => ["receipt-id"]
    case MessageFrame(_, _, _) => ["destination", "subscription", "timestamp", "message-id"]
  }

  lemma ReplyPrinted(f: W.ServerFrame, stamp: string, unique: string)
    ensures HeaderOrder(ReplyKeys(f), ReplyFrame(f, stamp, unique).headers)
    ensures PrintedText(ReplyFrame(f, stamp, unique), ReplyKeys(f)) == ReplyText(f, stamp, unique)
  {
    hide Lines, HeaderLines, PrintedText, Line;
    var g := ReplyFrame(f, stamp, unique);
    var h := g.headers;
    PrintedIs(g, ReplyKeys(f));
    match f
    case Error(message, body) => LastHeader(h, "message");
    case Receipt(id) => LastHeader(h, "receipt-id");
    case Connected =>
      FirstHeader(h, "session", ["version"]);
      LastHeader(h, "version");
      assert ["session"] + ["version"] == ["session", "version"];
    case MessageFrame(destination, subscription, body) => MessageHeaderLines(h);
  }

  lemma PrintedIs(f: Frame, keys: seq<string>)
    requires forall k :: k in keys ==> k in f.headers
    ensures PrintedText(f, keys) ==
              Name(f.command) + "\n" + Lines(HeaderLines(f.headers, keys)) +
              if f.body == "" then "" else "\n" + f.body + "\n"
  {
    assert ([Name(f.command)] + HeaderLines(f.headers, keys))[1..] == HeaderLines(f.headers, keys);
  }

  lemma MessageHeaderLines(h: map<string, string>)
    requires {"destination", "subscription", "timestamp", "message-id"} == h.Keys
    ensures Lines(HeaderLines(h, ["destination", "subscription", "timestamp", "message-id"])) ==
              Line("destination", h["destination"]) + (Line("subscription", h["subscription"]) +
                (Line("timestamp", h["timestamp"]) + Line("message-id", h["message-id"])))
  {
    hide Lines, HeaderLines, Line;
    FirstHeader(h, "destination", ["subscription", "timestamp", "message-id"]);
    FirstHeader(h, "subscription", ["timestamp", "message-id"]);
    FirstHeader(h, "timestamp", ["message-id"]);
    LastHeader(h, "message-id");
    assert ["timestamp"] + ["message-id"] == ["timestamp", "message-id"];
    assert ["subscription"] + ["timestamp", "message-id"] == ["subscription", "timestamp", "message-id"];
    assert ["destination"] + ["subscription", "timestamp", "message-id"] ==
             ["destination", "subscription", "timestamp", "message-id"];
  }

  /** What the client makes of a reply's text is the reply, with the body as received,
      which is the whole text where there is none. */
  lemma ReplyRead(f: W.ServerFrame, stamp: string, unique: string, lead: string)
    requires PlainReply(f) && Plain(stamp) && Plain(unique) && (lead == "" || lead == "\n")
    ensures var text := ReplyText(f, stamp, unique) + [NUL];
            TypeAndHeaders(lead + text) != "" && ClientParse(lead + text).Some? &&
            View(ClientParse(lead + text).value) ==
              match f
              case Connected => W.Connected
              case Error(message, body) => W.Error(message, if body == "" then text else Received(body))
              case Receipt(id) => W.Receipt(id)
              case MessageFrame(destination, subscription, body) =>
                W.MessageFrame(destination, subscription, if body == "" then text else Received(body))
  {
    hide PrintedText, TypeAndHeaders, ClientParse, WellFormedHeaders, Plain, KindOf, Name, Received, ReplyText;
    var g := ReplyFrame(f, stamp, unique);
    ReplyPrinted(f, stamp, unique);
    ReplyHeaders(f, stamp, unique);
    ServerToClient(g, ReplyKeys(f), lead);
    var text := ReplyText(f, stamp, unique);
    assert lead + text + [NUL] == lead + (text + [NUL]);
  }
}
