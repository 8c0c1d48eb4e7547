/** Frame text on the C++ client: printing, parsing and reading from the socket,
    and what the two sides make of each other's text. */
module ClientFrames {
  import opened Text
  import opened Frames
  import opened RoundTrip
  import opened Tokenizers

  // ----------------------------------------------------------------- printing

  /** The printed frame without its NUL: after the headers come two line feeds,
      the body and another one, whatever the body is. */
  function ClientText(f: Frame, keys: seq<string>): string
    requires forall k :: k in keys ==> k in f.headers
  {
    Name(f.command) + "\n" + Lines(HeaderLines(f.headers, keys)) + "\n\n" + f.body + "\n"
  }

  /** toString: the headers in key order, then everything formatted in one go. */
  method ClientToString(f: Frame, keys: seq<string>) returns (s: string)
    requires HeaderOrder(keys, f.headers)
    ensures s == ClientText(f, keys) + [NUL]
  {
    var headersStr := "";
    ghost var ls := HeaderLines(f.headers, keys);
    var i := 0;
    while i < |keys|
      invariant 0 <= i <= |keys|
      invariant headersStr == Lines(ls[..i])
    {
      headersStr := headersStr + (keys[i] + ":" + f.headers[keys[i]]) + "\n";
      NextLine([], ls, i);
      assert [] + ls[..i] == ls[..i] && [] + ls[..i + 1] == ls[..i + 1];
      i := i + 1;
    }
    assert ls[..i] == ls;
    s := Name(f.command) + "\n" + headersStr + "\n\n" + f.body + "\n" + [NUL];
  }

  // ------------------------------------------------------------------ parsing

  /** What the client keeps of a frame. */
  datatype Parsed = Parsed(kind: Command, headers: map<string, string>, body: string)

  /** Position of the first empty line, or the length of s. */
  function FindDouble(s: string): (n: nat)
    ensures n <= |s| && (n < |s| ==> n + 1 < |s| && s[n] == '\n' == s[n + 1])
  {
    if |s| < 2 then |s| else if s[0] == '\n' && s[1] == '\n' then 0 else 1 + FindDouble(s[1..])
  }

  function TypeAndHeaders(s: string): string { TrimBy(Space, s[..FindDouble(s)]) }

  /** Without an empty line `substr(npos + 1)` starts at 0: the body is everything. */
  function BodyText(s: string): string
  {
    var pos := FindDouble(s);
    TrimBy(Space, if pos < |s| then s[pos + 1..] else s)
  }

  function KindOf(t: string): Option<Command>
  {
    if t == "CONNECTED" then Some(CONNECTED)
    else if t == "ERROR" then Some(ERROR)
    else if t == "MESSAGE" then Some(MESSAGE)
    else if t == "RECEIPT" then Some(RECEIPT)
    else None
  }

  /** Here a colon in front counts, unlike on the server. */
  function WithPair(m: map<string, string>, t: string): map<string, string>
  {
    var i := IndexOf(t, ':');
    if i < |t| then m[t[..i] := t[i + 1..]] else m
  }

  /** Number of tokens before the first empty one. */
  function PairCount(ts: seq<string>): (n: nat)
    ensures n <= |ts| && (forall i :: 0 <= i < n ==> ts[i] != "") && (n < |ts| ==> ts[n] == "")
  {
    if ts == [] || ts[0] == "" then 0 else 1 + PairCount(ts[1..])
  }

  function PairMap(ts: seq<string>): map<string, string>
  {
    if ts == [] then map[] else WithPair(PairMap(ts[..|ts| - 1]), ts[|ts| - 1])
  }

  /** The factory's parse; None for a frame of no known kind. */
  function ClientParse(s: string): Option<Parsed>
    requires TypeAndHeaders(s) != ""
  {
    var tokens := Split(TypeAndHeaders(s), '\n');
    match KindOf(tokens[0])
    case None => None
    case Some(kind) => Some(Parsed(kind, PairMap(tokens[1..][..PairCount(tokens[1..])]), BodyText(s)))
  }

  /** parse as the source computes it: trim in place, split, walk the tokens. When
      the text before the empty line is blank the source reads past its tokens. */
  method ParseClientText(frameStr: string) returns (frame: Option<Parsed>)
    requires TypeAndHeaders(frameStr) != ""
    ensures frame == ClientParse(frameStr)
  {
    hide TrimBy, IndexOf, PairMap, FindDouble, KindOf, Split;
    var pos := FindDouble(frameStr);
    var typeAndHeaders := frameStr[..pos];
    var body := if pos < |frameStr| then frameStr[pos + 1..] else frameStr;
    body := TrimBy(Space, body);
    typeAndHeaders := TrimBy(Space, typeAndHeaders);
    var tokens := Split(typeAndHeaders, '\n');
    var kind := KindOf(tokens[0]);
    if kind.None? {
      return None;
    }
    ghost var ts := tokens[1..];
    var headers := PairMap([]);
    var it := 1;
    assert ts[..0] == [];
    while it < |tokens| && tokens[it] != ""
      invariant 1 <= it <= |tokens| && it - 1 <= PairCount(ts)
      invariant headers == PairMap(ts[..it - 1])
    {
      var index := IndexOf(tokens[it], ':');
      if index < |tokens[it]| {
        headers := headers[tokens[it][..index] := tokens[it][index + 1..]];
      }
      assert ts[it - 1] == tokens[it];
      PairMapSnoc(ts, it - 1);
      it := it + 1;
    }
    assert it < |tokens| ==> ts[it - 1] == tokens[it];
    frame := Some(Parsed(kind.value, headers, body));
  }

  lemma PairMapSnoc(ts: seq<string>, i: nat)
    requires i < |ts|
    ensures PairMap(ts[..i + 1]) == WithPair(PairMap(ts[..i]), ts[i])
  {
    assert ts[..i + 1][..i] == ts[..i];
  }

  // ------------------------------------------------------ reading from the socket

  class ByteSource {
    var pending: string

    constructor (stream: string)
      ensures pending == stream
    {
      pending := stream;
    }

    /** Appends characters up to and including the delimiter; false when the
        stream ends first. */
    method GetFrameAscii() returns (ok: bool, frame: string)
      modifies this
      ensures ok <==> NUL in old(pending)
      ensures frame + pending == old(pending)
      ensures ok ==> frame != "" && frame[|frame| - 1] == NUL && NUL !in frame[..|frame| - 1]
    {
      frame := "";
      ghost var all := pending;
      while true
        invariant frame + pending == all && NUL !in frame
        decreases |pending|
      {
        if pending == "" {
          assert frame + "" == frame;
          return false, frame;
        }
        var ch := pending[0];
        ghost var before := frame;
        pending := pending[1..];
        frame := frame + [ch];
        assert frame + pending == all;
        if ch == NUL {
          assert frame[..|frame| - 1] == before;
          return true, frame;
        }
      }
    }
  }

  /** The listener's answers: each complete text with its NUL, where a NUL alone,
      the reactor's extra one, is skipped. */
  function Answers(texts: seq<string>): seq<string>
  {
    if texts == [] then []
    else (if texts[0] == "" then [] else [texts[0] + [NUL]]) + Answers(texts[1..])
  }

  // --------------------------------------------------------------- cross-language

  /** The server's stream: printed frames, each followed by the trailer, which is
      an extra NUL from the reactor and a line feed from the other server. */
  function ServerStream(texts: seq<string>, trailer: char): string
  {
    if texts == [] then "" else texts[0] + [NUL] + [trailer] + ServerStream(texts[1..], trailer)
  }

  /** What the client sees of text i: the line feed left over from the frame before
      may stand in front. */
  function Leads(texts: seq<string>, lead: string, trailer: char): (ts: seq<string>)
    ensures |ts| == |texts|
  {
    if texts == [] then []
    else [lead + texts[0] + [NUL]] + Leads(texts[1..], if trailer == '\n' then "\n" else "", trailer)
  }

  /** One printed frame with its trailer at the front of the stream. */
  lemma NextAnswer(text: string, trailer: char, more: string)
    requires NUL !in text && text != "" && trailer in [NUL, '\n']
    ensures Answers(Complete(text + [NUL] + [trailer] + more)) ==
              [text + [NUL]] + Answers(Complete((if trailer == '\n' then "\n" else "") + more))
  {
    hide Complete, Split;
    assert text + [NUL] + [trailer] + more == text + [NUL] + ([trailer] + more);
    OneMoreText(text, [trailer] + more);
    var rest := Complete([trailer] + more);
    assert ([text] + rest)[1..] == rest;
    if trailer == NUL {
      assert [trailer] + more == "" + [NUL] + more && "" + more == more;
      OneMoreText("", more);
      assert ([""] + Complete(more))[1..] == Complete(more);
      assert [] + Answers(Complete(more)) == Answers(Complete(more));
    }
  }

  lemma {:induction false} AnswersOfStream(texts: seq<string>, lead: string, trailer: char)
    requires (forall t :: t in texts ==> NUL !in t && t != "") && trailer in [NUL, '\n'] && (lead == "" || lead == "\n")
    ensures Answers(Complete(lead + ServerStream(texts, trailer))) == Leads(texts, lead, trailer)
  {
    if texts == [] {
      assert lead + "" == lead;
      SplitSingle(lead, NUL);
      assert Complete(lead) == [];
    } else {
      hide Complete, Answers;
      var more := ServerStream(texts[1..], trailer);
      assert texts[0] in texts && forall t :: t in texts[1..] ==> t in texts;
      AnswersOfStream(texts[1..], if trailer == '\n' then "\n" else "", trailer);
      assert lead + ServerStream(texts, trailer) == lead + texts[0] + [NUL] + [trailer] + more;
      NextAnswer(lead + texts[0], trailer, more);
    }
  }

  // the first empty line of a printed frame

  lemma {:induction false} FindPast(l: string, x: string)
    requires '\n' !in l
    ensures FindDouble(l + x) == |l| + FindDouble(x)
  {
    if l == "" {
      assert l + x == x;
    } else {
      FindPast(l[1..], x);
      assert (l + x)[1..] == l[1..] + x;
    }
  }

  /** In lines that are not empty there is no empty line before what follows them. */
  lemma {:induction false} FindPastLines(ls: seq<string>, x: string)
    requires ls != [] && (forall l :: l in ls ==> '\n' !in l && l != "") && x != ""
    ensures FindDouble(Lines(ls) + x) == if x[0] == '\n' then |Lines(ls)| - 1 else |Lines(ls)| + FindDouble(x)
  {
    hide FindDouble;
    var more := Lines(ls[1..]) + x;
    assert Lines(ls) + x == ls[0] + "\n" + more;
    assert ls[0] in ls;
    if |ls| == 1 {
      assert more == x;
    } else {
      assert forall l :: l in ls[1..] ==> l in ls;
      FindPastLines(ls[1..], x);
      assert more[0] == ls[1][0] by { assert Lines(ls[1..]) == ls[1] + "\n" + Lines(ls[1..][1..]); }
      assert ls[1] in ls && ls[1][0] in ls[1];
    }
    FindPastLine(ls[0], more);
  }

  lemma FindPastLine(l: string, more: string)
    requires '\n' !in l && more != ""
    ensures FindDouble(l + "\n" + more) == if more[0] == '\n' then |l| else |l| + 1 + FindDouble(more)
  {
    hide FindDouble;
    assert l + "\n" + more == l + ("\n" + more);
    FindPast(l, "\n" + more);
    FindFeed("\n" + more);
    assert ("\n" + more)[1..] == more;
  }

  lemma FindFeed(s: string)
    requires |s| >= 2 && s[0] == '\n'
    ensures FindDouble(s) == if s[1] == '\n' then 0 else 1 + FindDouble(s[1..])
  {
  }

  lemma {:induction false} LinesJoin(ls: seq<string>)
    requires ls != []
    ensures Lines(ls) == Join(ls, '\n') + "\n"
  {
    if |ls| == 1 {
      assert Lines(ls[1..]) == "";
    } else {
      LinesJoin(ls[1..]);
    }
  }

  /** Trimming removes a leading line feed and nothing at firm ends. */
  lemma TrimLead(lead: string, s: string)
    requires (lead == "" || lead == "\n") && s != "" && Trimmed(Space, s)
    ensures TrimBy(Space, lead + s) == s
  {
    if lead == "\n" {
      assert (lead + s)[0] == '\n' && Space('\n') && (lead + s)[1..] == s;
      assert TrimLeft(Space, lead + s) == TrimLeft(Space, s) == s;
    } else {
      assert lead + s == s;
    }
  }

  lemma {:induction false} JoinEnds(ls: seq<string>)
    requires ls != [] && forall l :: l in ls ==> l != "" && Trimmed(Space, l)
    ensures Join(ls, '\n') != "" && Trimmed(Space, Join(ls, '\n'))
  {
    assert ls[0] in ls;
    if |ls| > 1 {
      assert forall l :: l in ls[1..] ==> l in ls;
      JoinEnds(ls[1..]);
    }
  }

  ghost predicate Firm(ls: seq<string>)
  {
    forall l :: l in ls ==> l != "" && '\n' !in l && Trimmed(Space, l)
  }

  lemma HeaderLinesFirm(f: Frame, keys: seq<string>)
    requires HeaderOrder(keys, f.headers) && WellFormedHeaders(f.headers)
    ensures Firm([Name(f.command)] + HeaderLines(f.headers, keys))
  {
    forall l | l in HeaderLines(f.headers, keys) ensures l != "" && '\n' !in l && Trimmed(Space, l) {
      var i :| 0 <= i < |keys| && l == HeaderLine(keys[i], f.headers[keys[i]]);
      assert WellFormedHeader(keys[i], f.headers[keys[i]]);
    }
  }

  // headers and kind

  lemma PairBack(m: map<string, string>, key: string, value: string)
    requires ':' !in key
    ensures WithPair(m, HeaderLine(key, value)) == m[key := value]
  {
    ColonAt(key, value);
    var s := HeaderLine(key, value);
    assert s[..|key|] == key && s[|key| + 1..] == value;
  }

  lemma {:induction false} PairsBack(headers: map<string, string>, keys: seq<string>)
    requires forall k :: k in keys ==> k in headers && WellFormedHeader(k, headers[k])
    ensures PairMap(HeaderLines(headers, keys)) == HeaderMap(HeaderLines(headers, keys))
  {
    var ls := HeaderLines(headers, keys);
    if keys != [] {
      var before, k := keys[..|keys| - 1], keys[|keys| - 1];
      assert keys == before + [k];
      PairsBack(headers, before);
      assert ls[..|ls| - 1] == HeaderLines(headers, before);
      HeaderBack(HeaderMap(HeaderLines(headers, before)), k, headers[k]);
      PairBack(HeaderMap(HeaderLines(headers, before)), k, headers[k]);
    }
  }

  lemma {:induction false} PairCountAll(ts: seq<string>)
    requires forall t :: t in ts ==> t != ""
    ensures PairCount(ts) == |ts|
  {
    if ts != [] {
      assert ts[0] in ts && forall t :: t in ts[1..] ==> t in ts;
      PairCountAll(ts[1..]);
    }
  }

  lemma NulLine(m: map<string, string>)
    ensures WithPair(m, [NUL]) == m
  {
    assert [NUL][1..] == "";
  }

  /** The tokens of the part before the body: the lines, and where there is no
      body, the NUL at the end as a line of its own. */
  lemma TokensOf(lead: string, ls: seq<string>, body: string)
    requires (lead == "" || lead == "\n") && ls != [] && Firm(ls)
    ensures var s := lead + (Lines(ls) + (if body == "" then "" else "\n" + body + "\n")) + [NUL];
            TypeAndHeaders(s) != "" &&
            Split(TypeAndHeaders(s), '\n') == if body == "" then ls + [[NUL]] else ls
  {
    hide TrimBy, FindDouble;
    if body == "" {
      BareTokens(lead, ls);
      assert lead + (Lines(ls) + "") + [NUL] == lead + (Lines(ls) + [NUL]);
    } else {
      var x := "\n" + body + "\n" + [NUL];
      assert lead + (Lines(ls) + ("\n" + body + "\n")) + [NUL] == lead + (Lines(ls) + x);
      FullTokens(lead, ls, x);
    }
  }

  lemma FindAfterLead(lead: string, s: string)
    requires (lead == "" || lead == "\n") && s != "" && s[0] != '\n'
    ensures FindDouble(lead + s) == |lead| + FindDouble(s)
  {
    if lead == "\n" {
      assert (lead + s)[1..] == s;
    } else {
      assert lead + s == s;
    }
  }

  lemma LinesStart(ls: seq<string>)
    requires ls != [] && Firm(ls)
    ensures Lines(ls) != "" && Lines(ls)[0] != '\n' && Lines(ls)[|Lines(ls)| - 1] == '\n'
  {
    assert ls[0] in ls && Lines(ls) == ls[0] + "\n" + Lines(ls[1..]);
    LinesJoin(ls);
  }

  lemma FullTokens(lead: string, ls: seq<string>, x: string)
    requires (lead == "" || lead == "\n") && ls != [] && Firm(ls) && x != "" && x[0] == '\n'
    ensures var s := lead + (Lines(ls) + x);
            FindDouble(s) == |lead| + |Lines(ls)| - 1 && TypeAndHeaders(s) == Join(ls, '\n') != "" &&
            Split(TypeAndHeaders(s), '\n') == ls
  {
    hide TrimBy;
    LinesStart(ls);
    FindAfterLead(lead, Lines(ls) + x);
    FindPastLines(ls, x);
    LinesJoin(ls);
    var s := lead + (Lines(ls) + x);
    assert s[..FindDouble(s)] == lead + Join(ls, '\n');
    JoinEnds(ls);
    TrimLead(lead, Join(ls, '\n'));
    SplitJoin(ls, '\n');
  }

  lemma BareTokens(lead: string, ls: seq<string>)
    requires (lead == "" || lead == "\n") && ls != [] && Firm(ls)
    ensures var s := lead + (Lines(ls) + [NUL]);
            FindDouble(s) == |s| && TypeAndHeaders(s) != "" && Split(TypeAndHeaders(s), '\n') == ls + [[NUL]] &&
            BodyText(s) == Lines(ls) + [NUL]
  {
    hide TrimBy;
    LinesStart(ls);
    FindAfterLead(lead, Lines(ls) + [NUL]);
    FindPastLines(ls, [NUL]);
    assert FindDouble([NUL]) == 1;
    var s := lead + (Lines(ls) + [NUL]);
    assert s[..|s|] == s;
    assert Trimmed(Space, Lines(ls) + [NUL]) by {
      LinesJoin(ls);
      JoinEnds(ls);
    }
    TrimLead(lead, Lines(ls) + [NUL]);
    SplitLines(ls, [NUL]);
    SplitSingle([NUL], '\n');
  }

  /** The body as the client gets it: the text after the empty line, leading space
      removed, with the line feed and the NUL still at the end. */
  function Received(body: string): string { TrimLeft(Space, body + "\n" + [NUL]) }

  /** The characters `std::isspace` counts go in front of the body, and no others. */
  lemma ReceivedIs(a: string, b: string)
    requires forall c :: c in a ==> c == ' ' || 9 <= c as int <= 13
    requires b != "" ==> b[0] != ' ' && !(9 <= b[0] as int <= 13)
    ensures Received(a + b) == if b == "" then "\0" else b + "\n\0"
  {
    var s := a + b + "\n" + [NUL];
    var t := if b == "" then "\0" else b + "\n\0";
    var front := if b == "" then a + "\n" else a;
    assert s == front + t;
    TrimLeftPast(Space, front, t);
  }

  lemma TrimBeforeNul(s: string)
    ensures TrimBy(Space, "\n" + s + [NUL]) == TrimLeft(Space, s + [NUL])
  {
    var t := s + [NUL];
    assert ("\n" + s + [NUL])[1..] == t;
    TrimLeftFacts(Space, t);
    var r := TrimLeft(Space, t);
    assert NUL in t by { assert t[|t| - 1] == NUL; }
    assert !Space(NUL);
    assert r != "" && r[|r| - 1] == NUL;
  }

  lemma BodyOf(lead: string, ls: seq<string>, body: string)
    requires (lead == "" || lead == "\n") && ls != [] && Firm(ls) && body != ""
    ensures BodyText(lead + (Lines(ls) + ("\n" + body + "\n")) + [NUL]) == Received(body)
  {
    hide TrimBy, TrimLeft, FindDouble, TypeAndHeaders, Firm, Lines;
    var x := "\n" + body + "\n" + [NUL];
    var s := lead + (Lines(ls) + x);
    TailWithNul(lead, Lines(ls), "\n" + body + "\n");
    FullTokens(lead, ls, x);
    LinesStart(ls);
    AfterEmptyLine(lead + Lines(ls), x);
    assert s == lead + Lines(ls) + x;
    TrimBeforeNul(body + "\n");
    assert "\n" + (body + "\n") + [NUL] == x;
  }

  lemma TailWithNul(lead: string, a: string, b: string)
    ensures lead + (a + b) + [NUL] == lead + (a + (b + [NUL]))
  {
  }

  lemma AfterEmptyLine(a: string, x: string)
    requires a != ""
    ensures (a + x)[|a| - 1 + 1..] == x
  {
  }

  lemma BareBody(lead: string, ls: seq<string>)
    requires (lead == "" || lead == "\n") && ls != [] && Firm(ls)
    ensures BodyText(lead + (Lines(ls) + "") + [NUL]) == Lines(ls) + [NUL]
  {
    hide BodyText, Lines, FindDouble, TypeAndHeaders;
    BareTokens(lead, ls);
    assert lead + (Lines(ls) + "") + [NUL] == lead + (Lines(ls) + [NUL]);
  }

  /** Cross-language round trip: a printed server frame with well-formed headers,
      with or without a line feed left over in front, is parsed by the client to
      the same kind and header map, and a body arrives complete. For an empty body
      the client takes the whole frame text. */
  lemma ServerToClient(f: Frame, keys: seq<string>, lead: string)
    requires KindOf(Name(f.command)) == Some(f.command) && HeaderOrder(keys, f.headers) && WellFormedHeaders(f.headers)
    requires lead == "" || lead == "\n"
    ensures var s := lead + PrintedText(f, keys) + [NUL];
            TypeAndHeaders(s) != "" && ClientParse(s).Some? &&
            ClientParse(s).value.kind == f.command && ClientParse(s).value.headers == f.headers &&
            ClientParse(s).value.body == if f.body != "" then Received(f.body) else PrintedText(f, keys) + [NUL]
  {
    hide TypeAndHeaders, BodyText, Received, Split, Lines, PairMap, PairCount, HeaderMap, KindOf, Name;
    hide WellFormedHeaders, HeaderOrder, HeaderLines;
    HeadersInOrder(f.headers, keys);
    var hl := HeaderLines(f.headers, keys);
    var ls := [Name(f.command)] + hl;
    HeaderLinesFirm(f, keys);
    TokensOf(lead, ls, f.body);
    if f.body != "" { BodyOf(lead, ls, f.body); } else { BareBody(lead, ls); }
    PairsBack(f.headers, keys);
    AllHeadersBack(f.headers, keys);
    HeadersOfTokens(Name(f.command), hl, f.body == "");
    assert "\n" + f.body + "\n" == "\n" + f.body + "\n";
  }

  lemma HeadersOfTokens(name: string, hl: seq<string>, bare: bool)
    requires Firm([name] + hl)
    ensures var tokens := if bare then [name] + hl + [[NUL]] else [name] + hl;
            tokens[0] == name && PairMap(tokens[1..][..PairCount(tokens[1..])]) == PairMap(hl)
  {
    hide WithPair;
    assert forall l :: l in hl ==> l in [name] + hl;
    var tokens := if bare then [name] + hl + [[NUL]] else [name] + hl;
    var ts := if bare then hl + [[NUL]] else hl;
    assert tokens[1..] == ts;
    PairCountAll(ts);
    assert ts[..|ts|] == ts;
    if bare {
      PairMapSnoc(ts, |hl|);
      assert ts[..|hl|] == hl && ts[..|hl| + 1] == ts;
      NulLine(PairMap(hl));
    }
  }

  // ------------------------------------------------------------ client to server

  lemma ClientLayout(f: Frame, keys: seq<string>)
    requires forall k :: k in keys ==> k in f.headers
    ensures ClientText(f, keys) ==
              Lines([Name(f.command)] + HeaderLines(f.headers, keys)) + ("\n" + ("\n" + f.body + "\n"))
  {
    var hl := HeaderLines(f.headers, keys);
    LinesConcat([Name(f.command)], hl);
    FirstLine(Name(f.command));
    assert "\n\n" + f.body + "\n" == "\n" + ("\n" + f.body + "\n");
  }

  /** A client-printed frame arrives at the server with the same command and
      headers; its body has become the normalized text after the empty line. */
  lemma ClientToServer(f: Frame, keys: seq<string>)
    requires FromClient(f.command) && HeaderOrder(keys, f.headers) && WellFormedHeaders(f.headers) && HasMandatory(f)
    ensures Parse(ClientText(f, keys)) == Some(f.(body := Norm("\n" + f.body)))
  {
    hide Parse, Lines, Norm, HeaderMap, HeaderLines, LinesOk, WellFormedHeaders, HeaderOrder, Name, Mandatory;
    hide FirstMissing, ClientText;
    HeadersInOrder(f.headers, keys);
    ClientLayout(f, keys);
    HeaderLinesOk(f.headers, keys);
    AllHeadersBack(f.headers, keys);
    NoneMissing(f.headers, Mandatory(f.command));
    ParseLayout(f.command, HeaderLines(f.headers, keys), "\n" + ("\n" + f.body + "\n"), "\n" + f.body + "\n");
    NormTrailing("\n" + f.body);
  }

  lemma TrimEmpty()
    ensures Trim("") == ""
  {
  }

  lemma TwoLines(b: string)
    requires '\n' !in b && b != ""
    ensures Norm("\n" + b) == "\t" + Trim(b) + "\t"
  {
    hide Trim, Split;
    LeadingSplit(b);
    SplitSingle(b, '\n');
    TrimEmpty();
    var ls := ["", b];
    assert [""] + [b] == ls;
    assert ls[..1] == [""] && [""][..0] == [] && TabBody([]) == "";
    assert TabBody([""]) == "\t";
    assert TabBody(ls) == TabBody(ls[..1]) + Trim(b) + "\t";
  }

  /** A single-line body arrives at the server equal after trimming. */
  lemma SingleLineBody(b: string)
    requires '\n' !in b
    ensures Trim(Norm("\n" + b)) == Trim(b)
  {
    if b == "" {
      NormTrailing("");
      NormOfLine("");
      assert "" + "\n" == "\n" + b;
    } else {
      TwoLines(b);
      TrimFacts(Blank, b);
      TrimTabs(Trim(b));
    }
  }

  lemma TrimTabs(t: string)
    requires Trimmed(Blank, t)
    ensures Trim("\t" + t + "\t") == t
  {
    var s := "\t" + t + "\t";
    TrimTab(t);
    assert s[0] == '\t' && Blank('\t') && s[1..] == t + "\t";
    assert TrimLeft(Blank, s) == TrimLeft(Blank, t + "\t");
  }

  /** The lines of a client-printed frame. */
  function ClientLines(f: Frame, keys: seq<string>): seq<string>
    requires forall k :: k in keys ==> k in f.headers
  {
    [Name(f.command)] + HeaderLines(f.headers, keys) + ["", ""] + Split(f.body, '\n')
  }

  lemma {:induction false} LinesSplit(s: string)
    ensures Lines(Split(s, '\n')) == s + "\n"
  {
    JoinSplit(s, '\n');
    LinesJoin(Split(s, '\n'));
  }

  /** A client-printed frame is its lines, none with NUL, line feed or carriage
      return when headers and body have none of the first and the last. */
  lemma ClientTextLines(f: Frame, keys: seq<string>)
    requires HeaderOrder(keys, f.headers) && WellFormedHeaders(f.headers) && NUL !in f.body && '\r' !in f.body
    requires forall k :: k in f.headers ==> '\r' !in k && '\r' !in f.headers[k]
    ensures ClientText(f, keys) == Lines(ClientLines(f, keys)) && Printable(ClientLines(f, keys))
  {
    ClientLayout(f, keys);
    var a := [Name(f.command)] + HeaderLines(f.headers, keys);
    LinesConcat(a + ["", ""], Split(f.body, '\n'));
    LinesConcat(a, ["", ""]);
    assert Lines(["", ""]) == "\n\n" by { assert ["", ""][1..] == [""] && [""][1..] == []; }
    LinesSplit(f.body);
    assert Lines(a) + "\n\n" + (f.body + "\n") == Lines(a) + ("\n" + ("\n" + f.body + "\n"));
    JoinSplit(f.body, '\n');
    ClientHeaderLines(f, keys);
  }

  lemma NamePrintable(c: Command)
    ensures NUL !in Name(c) && '\n' !in Name(c) && '\r' !in Name(c)
  {
  }

  lemma ClientHeaderLines(f: Frame, keys: seq<string>)
    requires HeaderOrder(keys, f.headers) && WellFormedHeaders(f.headers)
    requires forall k :: k in f.headers ==> '\r' !in k && '\r' !in f.headers[k]
    ensures Printable([Name(f.command)] + HeaderLines(f.headers, keys))
  {
    hide Name;
    var ls := HeaderLines(f.headers, keys);
    forall l | l in ls ensures NUL !in l && '\n' !in l && '\r' !in l {
      var i :| 0 <= i < |keys| && l == HeaderLine(keys[i], f.headers[keys[i]]);
      assert WellFormedHeader(keys[i], f.headers[keys[i]]);
    }
    NamePrintable(f.command);
  }
}
