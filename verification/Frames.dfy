/** Frame text on the server: StompFrame.toString and StompFrame.parse. */
module Frames {
  import opened Text

  datatype Command = CONNECT | DISCONNECT | SEND | SUBSCRIBE | UNSUBSCRIBE | MESSAGE | CONNECTED | RECEIPT | ERROR

  datatype Frame = Frame(command: Command, headers: map<string, string>, body: string)

  function Name(c: Command): string
  {
    match c
    case CONNECT => "CONNECT"
    case DISCONNECT => "DISCONNECT"
    case SEND => "SEND"
    case SUBSCRIBE => "SUBSCRIBE"
    case UNSUBSCRIBE => "UNSUBSCRIBE"
    case MESSAGE => "MESSAGE"
    case CONNECTED => "CONNECTED"
    case RECEIPT => "RECEIPT"
    case ERROR => "ERROR"
  }

  /** StompCommand.valueOf */
  function CommandOf(v: string): Option<Command>
  {
    var t := Trim(v);
    if t == "SEND" then Some(SEND)
    else if t == "SUBSCRIBE" then Some(SUBSCRIBE)
    else if t == "UNSUBSCRIBE" then Some(UNSUBSCRIBE)
    else if t == "CONNECT" then Some(CONNECT)
    else if t == "MESSAGE" then Some(MESSAGE)
    else if t == "CONNECTED" then Some(CONNECTED)
    else if t == "DISCONNECT" then Some(DISCONNECT)
    else if t == "RECEIPT" then Some(RECEIPT)
    else if t == "ERROR" then Some(ERROR)
    else None
  }

  /** The frames a client sends, which are the only ones parse builds. */
  predicate FromClient(c: Command) { c.CONNECT? || c.DISCONNECT? || c.SEND? || c.SUBSCRIBE? || c.UNSUBSCRIBE? }

  function Mandatory(c: Command): seq<string>
  {
    match c
    case CONNECT => ["accept-version", "host", "login", "passcode"]
    case DISCONNECT => ["receipt"]
    case SEND => ["destination"]
    case SUBSCRIBE => ["destination", "id"]
    case UNSUBSCRIBE => ["id"]
    case _ => []
  }

  function ErrorFrame(message: string, body: string): Frame
  {
    Frame(ERROR, map["message" := message], body)
  }

  // ----------------------------------------------------------------- printing

  function HeaderLine(key: string, value: string): string { key + ":" + value }

  /** The header lines in the order in which the hash map yields its keys. */
  function HeaderLines(headers: map<string, string>, keys: seq<string>): (ls: seq<string>)
    requires forall k :: k in keys ==> k in headers
    ensures |ls| == |keys| && forall i :: 0 <= i < |keys| ==> ls[i] == HeaderLine(keys[i], headers[keys[i]])
  {
    seq(|keys|, i requires 0 <= i < |keys| => HeaderLine(keys[i], headers[keys[i]]))
  }

  ghost predicate HeaderOrder(keys: seq<string>, headers: map<string, string>)
  {
    (forall k :: k in keys <==> k in headers) && forall i, j :: 0 <= i < j < |keys| ==> keys[i] != keys[j]
  }

  /** The printed frame without its final NUL. */
  function PrintedText(f: Frame, keys: seq<string>): string
    requires forall k :: k in keys ==> k in f.headers
  {
    Lines([Name(f.command)] + HeaderLines(f.headers, keys)) + if f.body == "" then "" else "\n" + f.body + "\n"
  }

  function Printed(f: Frame, keys: seq<string>): string
    requires forall k :: k in keys ==> k in f.headers
  {
    PrintedText(f, keys) + [NUL]
  }

  /** toString: appends to one buffer, header by header. */
  method ToString(f: Frame, keys: seq<string>) returns (sb: string)
    requires HeaderOrder(keys, f.headers)
    ensures sb == Printed(f, keys)
  {
    sb := Name(f.command);
    sb := sb + "\n";
    ghost var ls := HeaderLines(f.headers, keys);
    FirstLine(Name(f.command));
    assert [Name(f.command)] + ls[..0] == [Name(f.command)];
    var i := 0;
    while i < |keys|
      invariant 0 <= i <= |keys|
      invariant sb == Lines([Name(f.command)] + ls[..i])
    {
      var value := f.headers[keys[i]];
      NextLine([Name(f.command)], ls, i);
      sb := sb + (keys[i] + ":" + value) + "\n";
      i := i + 1;
    }
    assert ls[..i] == ls;
    if f.body != "" {
      sb := sb + ("\n" + f.body + "\n");
    } else {
      assert sb + "" == sb;
    }
    sb := sb + [NUL];
  }

  lemma FirstLine(l: string)
    ensures Lines([l]) == l + "\n"
  {
    assert Lines([l][1..]) == "";
  }

  lemma NextLine(a: seq<string>, ls: seq<string>, i: nat)
    requires i < |ls|
    ensures Lines(a + ls[..i + 1]) == Lines(a + ls[..i]) + ls[i] + "\n"
  {
    assert a + ls[..i + 1] == (a + ls[..i]) + [ls[i]];
    LinesSnoc(a + ls[..i], ls[i]);
  }

  lemma LinesSnoc(ls: seq<string>, l: string)
    ensures Lines(ls + [l]) == Lines(ls) + l + "\n"
  {
    LinesConcat(ls, [l]);
    assert Lines([l][1..]) == "";
    assert Lines(ls) + (l + "\n") == Lines(ls) + l + "\n";
  }

  // ------------------------------------------------------------------ parsing

  predicate BlankLine(l: string) { Trim(l) == "" }

  function DropEmptyTail(ls: seq<string>): (r: seq<string>)
    ensures |r| <= |ls| && r == ls[..|r|]
  {
    if ls != [] && ls[|ls| - 1] == "" then DropEmptyTail(ls[..|ls| - 1]) else ls
  }

  /** `split("\n")` in Java: trailing empty pieces go, unless nothing was split. */
  function JavaLines(s: string): seq<string>
  {
    if '\n' !in s then [s] else DropEmptyTail(Split(s, '\n'))
  }

  function SkipBlank(ls: seq<string>): (r: seq<string>)
    ensures |r| <= |ls| && r == ls[|ls| - |r|..] && (r != [] ==> !BlankLine(r[0]))
    ensures forall i :: 0 <= i < |ls| - |r| ==> BlankLine(ls[i])
  {
    if ls != [] && BlankLine(ls[0]) then SkipBlank(ls[1..]) else ls
  }

  /** Number of lines before the first blank one. */
  function HeaderCount(ls: seq<string>): (n: nat)
    ensures n <= |ls| && (forall i :: 0 <= i < n ==> !BlankLine(ls[i])) && (n < |ls| ==> BlankLine(ls[n]))
  {
    if ls == [] || BlankLine(ls[0]) then 0 else 1 + HeaderCount(ls[1..])
  }

  function IndexOf(s: string, c: char): (n: nat)
    ensures n <= |s| && (forall i :: 0 <= i < n ==> s[i] != c) && (n < |s| ==> s[n] == c)
  {
    if s == "" || s[0] == c then 0 else 1 + IndexOf(s[1..], c)
  }

  /** One header line: a key before the first colon, if that is not in front. */
  function WithHeader(m: map<string, string>, line: string): map<string, string>
  {
    var t := Trim(line);
    var i := IndexOf(t, ':');
    if 0 < i < |t| then m[t[..i] := t[i + 1..]] else m
  }

  /** Later lines override earlier ones. */
  function HeaderMap(ls: seq<string>): map<string, string>
  {
    if ls == [] then map[] else WithHeader(HeaderMap(ls[..|ls| - 1]), ls[|ls| - 1])
  }

  /** Each line trimmed and followed by a tab. */
  function TabBody(ls: seq<string>): string
  {
    if ls == [] then "" else TabBody(ls[..|ls| - 1]) + Trim(ls[|ls| - 1]) + "\t"
  }

  function FirstMissing(headers: map<string, string>, mandatory: seq<string>): Option<string>
  {
    if mandatory == [] then None
    else if mandatory[0] !in headers then Some(mandatory[0])
    else FirstMissing(headers, mandatory[1..])
  }

  /** validate */
  function Validated(f: Frame): Frame
  {
    match FirstMissing(f.headers, Mandatory(f.command))
    case None => f
    case Some(h) => ErrorFrame("Frame error", h + " is a mandatory header.\nPlease try again.")
  }

  function BodyLines(rest: seq<string>): seq<string>
  {
    var h := HeaderCount(rest);
    if h < |rest| then rest[h + 1..] else []
  }

  /** A frame from its lines, the first of which is not blank. */
  function ParseLines(ls: seq<string>): Frame
    requires ls != []
  {
    match CommandOf(ls[0])
    case None => ErrorFrame("No matching STOMP command.", "")
    case Some(c) =>
      if !FromClient(c) then ErrorFrame("No matching STOMP command.", "")
      else Validated(Frame(c, HeaderMap(ls[1..][..HeaderCount(ls[1..])]), TabBody(BodyLines(ls[1..]))))
  }

  /** parse; None is Java's null. */
  function Parse(s: string): Option<Frame>
  {
    var ls := SkipBlank(JavaLines(s));
    if Trim(s) == "" || ls == [] then None else Some(ParseLines(ls))
  }

  /** In a string with a character above the space some line is not blank. */
  lemma SomeLine(s: string)
    requires Trim(s) != ""
    ensures SkipBlank(JavaLines(s)) != []
  {
    TrimFacts(Blank, s);
    var i :| 0 <= i < |s| && !Blank(s[i]);
    if '\n' !in s {
      TrimFacts(Blank, JavaLines(s)[0]);
      assert s[i] in JavaLines(s)[0];
    } else {
      LineOf(s, i);
      var l :| l in Split(s, '\n') && s[i] in l;
      KeptLine(Split(s, '\n'), l);
      TrimFacts(Blank, l);
    }
  }

  /** Every character other than the line feed is in some line. */
  lemma {:induction false} LineOf(s: string, i: nat)
    requires i < |s| && s[i] != '\n'
    ensures exists l :: l in Split(s, '\n') && s[i] in l
  {
    var parts := Split(s, '\n');
    var rest := Split(s[1..], '\n');
    if i == 0 {
      assert s[0] in parts[0];
    } else {
      LineOf(s[1..], i - 1);
      var l :| l in rest && s[i] in l;
      if s[0] == '\n' {
        assert l in parts;
      } else if l == rest[0] {
        assert s[i] in parts[0] && parts[0] in parts;
      } else {
        assert l in rest[1..] && l in parts;
      }
    }
  }

  lemma {:induction false} KeptLine(ls: seq<string>, l: string)
    requires l in ls && l != ""
    ensures l in DropEmptyTail(ls)
  {
    if ls[|ls| - 1] == "" {
      assert ls == ls[..|ls| - 1] + [ls[|ls| - 1]];
      KeptLine(ls[..|ls| - 1], l);
    }
  }

  /** parse as the source computes it, line number by line number; every access
      stays within the array. */
  method ParseText(str: string) returns (result: Option<Frame>)
    ensures result == Parse(str)
  {
    hide Trim, JavaLines, SkipBlank, CommandOf, HeaderMap, HeaderCount, TabBody, Validated, ParseLines;
    var lines := JavaLines(str);
    if Trim(str) == "" {
      return None;
    }
    SomeLine(str);
    var lineNum := FirstLineNumber(lines);
    var frame := ReadFrame(lines, lineNum);
    result := Some(frame);
  }

  /** The loop that ignores blank lines in front. */
  method FirstLineNumber(lines: seq<string>) returns (lineNum: nat)
    requires SkipBlank(lines) != []
    ensures lineNum < |lines| && SkipBlank(lines) == lines[lineNum..]
  {
    hide Trim;
    lineNum := 0;
    while Trim(lines[lineNum]) == ""
      invariant 0 <= lineNum < |lines| && SkipBlank(lines[lineNum..]) == SkipBlank(lines)
      decreases |lines| - lineNum
    {
      assert lines[lineNum..][1..] == lines[lineNum + 1..];
      lineNum := lineNum + 1;
    }
  }

  /** From the command line on. */
  method ReadFrame(lines: seq<string>, lineNum: nat) returns (result: Frame)
    requires lineNum < |lines|
    ensures result == ParseLines(lines[lineNum..])
  {
    hide Trim, CommandOf, HeaderMap, HeaderCount, TabBody, Validated, ParseLines;
    var command := CommandOf(lines[lineNum]);
    if command.None? || !FromClient(command.value) {
      NoFrame(lines[lineNum..]);
      return ErrorFrame("No matching STOMP command.", "");
    }
    var frame := Frame(command.value, HeaderMap([]), "");
    if |lines| > 1 {
      var headers, next := ReadHeaders(lines, lineNum + 1);
      var body := ReadBody(lines, next + 1);
      frame := frame.(headers := headers, body := body);
    } else {
      NoLines(lines);
    }
    FromLine(lines, lineNum, frame);
    result := Validated(frame);
  }

  lemma NoFrame(ls: seq<string>)
    requires ls != [] && (CommandOf(ls[0]).None? || !FromClient(CommandOf(ls[0]).value))
    ensures ParseLines(ls) == ErrorFrame("No matching STOMP command.", "")
  {
  }

  lemma NoLines(lines: seq<string>)
    requires |lines| == 1
    ensures HeaderCount(lines[1..]) == 0 && lines[1..][..0] == [] && TabBody([]) == ""
  {
  }

  /** What parse has read from line n on is what ParseLines makes of it. */
  lemma FromLine(lines: seq<string>, n: nat, f: Frame)
    requires n < |lines| && Some(f.command) == CommandOf(lines[n]) && FromClient(f.command)
    requires f.headers == HeaderMap(lines[n + 1..][..HeaderCount(lines[n + 1..])])
    requires var next := n + 2 + HeaderCount(lines[n + 1..]);
             f.body == TabBody(if next <= |lines| then lines[next..] else [])
    ensures ParseLines(lines[n..]) == Validated(f)
  {
    assert lines[n..][1..] == lines[n + 1..];
  }

  /** The first loop of parse after the command: headers up to a blank line. */
  method ReadHeaders(lines: seq<string>, start: nat) returns (headers: map<string, string>, lineNum: nat)
    requires start <= |lines|
    ensures lineNum == start + HeaderCount(lines[start..])
    ensures headers == HeaderMap(lines[start..][..HeaderCount(lines[start..])])
  {
    hide HeaderMap, Trim, IndexOf;
    ghost var rest := lines[start..];
    lineNum := start;
    headers := HeaderMap([]);
    assert rest[..0] == [];
    while lineNum < |lines| && Trim(lines[lineNum]) != ""
      invariant start <= lineNum <= |lines| && lineNum - start <= HeaderCount(rest)
      invariant headers == HeaderMap(rest[..lineNum - start])
    {
      var currentLine := Trim(lines[lineNum]);
      var colonIndex := IndexOf(currentLine, ':');
      if 0 < colonIndex < |currentLine| {
        headers := headers[currentLine[..colonIndex] := currentLine[colonIndex + 1..]];
      }
      assert rest[lineNum - start] == lines[lineNum];
      HeaderMapSnoc(rest, lineNum - start);
      lineNum := lineNum + 1;
    }
    assert lineNum < |lines| ==> rest[lineNum - start] == lines[lineNum];
  }

  lemma HeaderMapSnoc(ls: seq<string>, i: nat)
    requires i < |ls|
    ensures HeaderMap(ls[..i + 1]) == WithHeader(HeaderMap(ls[..i]), ls[i])
  {
    assert ls[..i + 1][..i] == ls[..i];
  }

  /** The second loop: whatever lines are left make the body. */
  method ReadBody(lines: seq<string>, start: nat) returns (body: string)
    ensures body == TabBody(if start <= |lines| then lines[start..] else [])
  {
    ghost var text := if start <= |lines| then lines[start..] else [];
    var lineNum := start;
    body := "";
    assert text[..0] == [];
    while lineNum < |lines|
      invariant start <= lineNum && (start <= |lines| ==> lineNum <= |lines|) && lineNum - start <= |text|
      invariant start > |lines| ==> lineNum == start
      invariant body == TabBody(text[..lineNum - start])
    {
      body := body + Trim(lines[lineNum]) + "\t";
      assert text[lineNum - start] == lines[lineNum];
      assert text[..lineNum + 1 - start][..lineNum - start] == text[..lineNum - start];
      lineNum := lineNum + 1;
    }
    assert text[..lineNum - start] == text;
  }

  /** parse yields null exactly when no character is above the space. */
  lemma ParseNull(s: string)
    ensures Parse(s).None? <==> forall c :: c in s ==> c <= ' '
  {
    TrimFacts(Blank, s);
    if Trim(s) != "" { SomeLine(s); }
  }

  /** A newline in front changes nothing. */
  lemma ParseLeadingNewline(s: string)
    ensures Parse("\n" + s) == Parse(s)
  {
    TrimFacts(Blank, s);
    TrimFacts(Blank, "\n" + s);
    assert forall c :: c in "\n" + s <==> c == '\n' || c in s;
    if Trim(s) != "" {
      SomeLine(s);
      SomeLine("\n" + s);
      LeadingLine(s);
    }
  }

  lemma LeadingSplit(s: string)
    ensures '\n' in "\n" + s && Split("\n" + s, '\n') == [""] + Split(s, '\n')
  {
    assert ("\n" + s)[0] == '\n' && ("\n" + s)[1..] == s;
  }

  lemma LeadingLine(s: string)
    requires SkipBlank(JavaLines(s)) != []
    ensures SkipBlank(JavaLines("\n" + s)) == SkipBlank(JavaLines(s))
  {
    LeadingSplit(s);
    var ls, t := Split(s, '\n'), "\n" + s;
    DropTailConcat([""], ls);
    if '\n' !in s { SplitSingle(s, '\n'); }
    assert JavaLines(t) == [""] + JavaLines(s);
    assert JavaLines(t)[0] == "" && JavaLines(t)[1..] == JavaLines(s);
  }

  lemma {:induction false} DropTailConcat(a: seq<string>, b: seq<string>)
    ensures DropEmptyTail(a + b) == if DropEmptyTail(b) == [] then DropEmptyTail(a) else a + DropEmptyTail(b)
  {
    if b == [] {
      assert a + b == a;
    } else {
      assert (a + b)[..|a + b| - 1] == a + b[..|b| - 1];
      if b[|b| - 1] == "" { DropTailConcat(a, b[..|b| - 1]); }
    }
  }
}
