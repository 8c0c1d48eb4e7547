/** The two servers' front ends: cutting the byte stream into frames. */
module Tokenizers {
  import opened Text
  import opened Frames

  /** Texts, each followed by NUL. */
  function Terminated(ts: seq<string>): string
  {
    if ts == [] then "" else Terminated(ts[..|ts| - 1]) + ts[|ts| - 1] + [NUL]
  }

  function Concat(bs: seq<string>): string
  {
    if bs == [] then "" else bs[0] + Concat(bs[1..])
  }

  /** The complete frame texts of a stream: what stands before each NUL. */
  function Complete(stream: string): seq<string>
  {
    var parts := Split(stream, NUL);
    parts[..|parts| - 1]
  }

  /** What follows the last NUL. */
  function Remainder(stream: string): string
  {
    var parts := Split(stream, NUL);
    parts[|parts| - 1]
  }

  lemma {:induction false} SplitTerminated(ts: seq<string>, rest: string)
    requires (forall t :: t in ts ==> NUL !in t)
    ensures Split(Terminated(ts) + rest, NUL) == ts + Split(rest, NUL)
  {
    hide Split;
    if ts == [] {
      assert Terminated(ts) + rest == rest;
      assert [] + Split(rest, NUL) == Split(rest, NUL);
    } else {
      var before, t := ts[..|ts| - 1], ts[|ts| - 1];
      SplitTerminated(before, t + [NUL] + rest);
      SplitConcat(t, rest, NUL);
      assert Terminated(ts) + rest == Terminated(before) + (t + [NUL] + rest);
      assert ts == before + [t];
    }
  }

  /** Whoever has taken NUL-free texts and holds the rest, without a NUL, has taken
      exactly the complete texts of the stream, however it arrived. */
  lemma TakenIsComplete(ts: seq<string>, rest: string)
    requires (forall t :: t in ts ==> NUL !in t) && NUL !in rest
    ensures Complete(Terminated(ts) + rest) == ts && Remainder(Terminated(ts) + rest) == rest
  {
    SplitTerminated(ts, rest);
    SplitSingle(rest, NUL);
    assert (ts + [rest])[..|ts|] == ts;
  }

  lemma {:induction false} ConcatSnoc(bs: seq<string>, b: string)
    ensures Concat(bs + [b]) == Concat(bs) + b
  {
    if bs == [] {
      assert bs + [b] == [b] && [b][1..] == [];
    } else {
      ConcatSnoc(bs[1..], b);
      assert (bs + [b])[1..] == bs[1..] + [b];
    }
  }

  // --------------------------------------------------- the reactor's tokenizer

  class ReactorTokenizer {
    var buffers: seq<string>
    var stringBuf: string
    /** Everything added so far, and the texts returned so far. */
    ghost var input: string
    ghost var taken: seq<string>

    /** Nothing is lost or reordered on the way. */
    ghost predicate Valid()
      reads this
    {
      (forall t :: t in taken ==> NUL !in t) && Terminated(taken) + stringBuf + Concat(buffers) == input
    }

    constructor ()
      ensures Valid() && input == "" && taken == [] && buffers == [] && stringBuf == ""
    {
      buffers, stringBuf, input, taken := [], "", "", [];
    }

    method AddBytes(bytes: string)
      requires Valid()
      modifies this
      ensures Valid() && input == old(input) + bytes && taken == old(taken)
      ensures stringBuf == old(stringBuf) && buffers == old(buffers) + [bytes]
    {
      ConcatSnoc(buffers, bytes);
      buffers := buffers + [bytes];
      input := input + bytes;
    }

    /** Decodes all pending buffers into the string buffer. */
    method HasMessage() returns (has: bool)
      requires Valid()
      modifies this
      ensures Valid() && input == old(input) && taken == old(taken)
      ensures buffers == [] && stringBuf == old(stringBuf + Concat(buffers)) && (has <==> NUL in stringBuf)
    {
      while |buffers| > 0
        invariant Valid() && input == old(input) && taken == old(taken)
        invariant stringBuf + Concat(buffers) == old(stringBuf + Concat(buffers))
        decreases |buffers|
      {
        var bytes := buffers[0];
        buffers := buffers[1..];
        stringBuf := stringBuf + bytes;
        assert Terminated(taken) + stringBuf + Concat(buffers) == Terminated(taken) + (stringBuf + Concat(buffers));
      }
      assert Concat(buffers) == "" && stringBuf + "" == stringBuf;
      has := IndexOf(stringBuf, NUL) < |stringBuf|;
      NulIndex(stringBuf);
    }

    /** Cuts the text up to the first NUL out of the string buffer and parses it. */
    method NextMessage() returns (frame: Option<Frame>)
      requires Valid() && NUL in stringBuf
      modifies this
      ensures Valid() && input == old(input) && buffers == old(buffers) && |stringBuf| < old(|stringBuf|)
      ensures |taken| == old(|taken|) + 1 && taken == old(taken) + [taken[|taken| - 1]] &&
              frame == Parse(taken[|taken| - 1])
    {
      hide Parse, Terminated, Concat, IndexOf;
      var messageEnd := IndexOf(stringBuf, NUL);
      NulIndex(stringBuf);
      var message := stringBuf[..messageEnd];
      CutAt(stringBuf, messageEnd);
      TakeOne(taken, message, stringBuf, stringBuf[messageEnd + 1..], Concat(buffers));
      stringBuf := stringBuf[messageEnd + 1..];
      taken := taken + [message];
      frame := ParseText(message);
    }

    /** The drain loop of ProtocolTask.run, collecting the parsed frames. */
    method Drain() returns (frames: seq<Option<Frame>>)
      requires Valid()
      modifies this
      ensures Valid() && input == old(input)
      ensures taken == Complete(input) && stringBuf == Remainder(input) && buffers == []
      ensures old(taken) <= taken && frames == ParseAll(taken[|old(taken)|..])
    {
      hide Parse, Terminated, Concat, Complete, Remainder, ParseAll;
      frames := [];
      ghost var got: seq<string> := [];
      ParseAllConcat([], []);
      var has := HasMessage();
      while has
        invariant Valid() && input == old(input) && buffers == [] && (has <==> NUL in stringBuf)
        invariant taken == old(taken) + got && frames == ParseAll(got)
        decreases |stringBuf|
      {
        var msg := NextMessage();
        ParseAllConcat(got, [taken[|taken| - 1]]);
        frames := frames + [msg];
        got := got + [taken[|taken| - 1]];
        has := HasMessage();
      }
      assert taken[|old(taken)|..] == got;
      TakenIsComplete(taken, stringBuf);
      NothingPending(buffers);
      assert Terminated(taken) + stringBuf + "" == Terminated(taken) + stringBuf;
    }
  }

  lemma NothingPending(bs: seq<string>)
    requires bs == []
    ensures Concat(bs) == ""
  {
  }

  lemma ParseAllConcat(a: seq<string>, b: seq<string>)
    ensures ParseAll(a + b) == ParseAll(a) + ParseAll(b)
    ensures |b| == 1 ==> ParseAll(b) == [Parse(b[0])]
    ensures ParseAll([]) == []
  {
    hide Parse;
  }

  lemma CutAt(s: string, i: nat)
    requires i < |s|
    ensures s == s[..i] + [s[i]] + s[i + 1..]
  {
  }

  lemma NulIndex(s: string)
    ensures IndexOf(s, NUL) < |s| <==> NUL in s
    ensures NUL !in s[..IndexOf(s, NUL)]
  {
    var i := IndexOf(s, NUL);
    if i < |s| { assert s[i] in s; }
  }

  lemma TakeOne(taken: seq<string>, message: string, was: string, rest: string, pending: string)
    requires was == message + [NUL] + rest
    ensures Terminated(taken + [message]) + rest + pending == Terminated(taken) + was + pending
  {
    assert (taken + [message])[..|taken|] == taken;
    assert Terminated(taken + [message]) == Terminated(taken) + message + [NUL];
    assert Terminated(taken + [message]) + rest == Terminated(taken) + (message + [NUL] + rest);
  }

  function ParseAll(ts: seq<string>): (frames: seq<Option<Frame>>)
    ensures |frames| == |ts| && forall i :: 0 <= i < |ts| ==> frames[i] == Parse(ts[i])
  {
    seq(|ts|, i requires 0 <= i < |ts| => Parse(ts[i]))
  }

  /** Chunking independence: however a stream is cut into buffers, and whether it
      is drained after every buffer or only at the end, the frames are those of
      the texts before its NULs and what is left is what follows the last one. */
  method DrainChunks(chunks: seq<string>, eager: seq<bool>) returns (frames: seq<Option<Frame>>, rest: string)
    requires |eager| == |chunks|
    ensures frames == ParseAll(Complete(Concat(chunks))) && rest == Remainder(Concat(chunks))
  {
    hide Parse, Terminated, Concat, Complete, Remainder, ParseAll;
    var tokenizer := new ReactorTokenizer();
    frames := [];
    NothingPending(chunks[..0]);
    ParseAllConcat([], []);
    for i := 0 to |chunks|
      invariant fresh(tokenizer) && tokenizer.Valid() && tokenizer.input == Concat(chunks[..i])
      invariant frames == ParseAll(tokenizer.taken)
    {
      tokenizer.AddBytes(chunks[i]);
      ConcatSnoc(chunks[..i], chunks[i]);
      assert chunks[..i + 1] == chunks[..i] + [chunks[i]];
      if eager[i] {
        frames := DrainMore(tokenizer, frames);
      }
    }
    assert chunks[..|chunks|] == chunks;
    frames := DrainMore(tokenizer, frames);
    rest := tokenizer.stringBuf;
  }

  method DrainMore(tokenizer: ReactorTokenizer, so_far: seq<Option<Frame>>) returns (frames: seq<Option<Frame>>)
    requires tokenizer.Valid() && so_far == ParseAll(tokenizer.taken)
    modifies tokenizer
    ensures tokenizer.Valid() && tokenizer.input == old(tokenizer.input)
    ensures tokenizer.taken == Complete(tokenizer.input) && tokenizer.stringBuf == Remainder(tokenizer.input)
    ensures frames == ParseAll(tokenizer.taken)
  {
    hide Parse, Terminated, Concat, Complete, Remainder, ParseAll;
    ghost var before := tokenizer.taken;
    var more := tokenizer.Drain();
    frames := so_far + more;
    ParseAllConcat(before, tokenizer.taken[|before|..]);
    assert tokenizer.taken == before + tokenizer.taken[|before|..];
  }

  // ------------------------------------------- the thread-per-client tokenizer

  predicate LineEnd(c: char) { c == '\n' || c == '\r' }

  function LineLength(s: string): (n: nat)
    ensures n <= |s| && (forall i :: 0 <= i < n ==> !LineEnd(s[i])) && (n < |s| ==> LineEnd(s[n]))
  {
    if s == "" || LineEnd(s[0]) then 0 else 1 + LineLength(s[1..])
  }

  /** BufferedReader.readLine: a line and what follows its terminator, which is a
      line feed, a carriage return, or the two in sequence; None at the end. */
  function ReadLine(s: string): (r: Option<(string, string)>)
    ensures r.Some? ==> |r.value.1| < |s|
  {
    if s == "" then None else
      var n := LineLength(s);
      if n == |s| then Some((s, ""))
      else if s[n] == '\r' && n + 1 < |s| && s[n + 1] == '\n' then Some((s[..n], s[n + 2..]))
      else Some((s[..n], s[n + 1..]))
  }

  /** A line ends at the first line feed or carriage return, and the two in sequence
      are one end; at the end of the stream the line needs none. */
  lemma ReadLineIs(l: string, end: string, rest: string)
    requires forall c :: c in l ==> c != '\n' && c != '\r'
    requires end == "\n" || end == "\r\n" || (end == "\r" && (rest == "" || rest[0] != '\n')) ||
             (end == rest == "" && l != "")
    ensures ReadLine(l + end + rest) == Some((l, rest)) && ReadLine("") == None
  {
    var s := l + end + rest;
    assert s == l + (end + rest);
    LineLengthAt(l, end + rest);
    assert s[..|l|] == l && s[|l|..] == end + rest;
    assert s[|l| + |end|..] == rest;
    if end != "" { assert s[|l|] == end[0]; }
    if |end| == 2 { assert s[|l| + 1] == end[1]; }
    if end == "\r" && rest != "" { assert s[|l| + 1] == rest[0]; }
  }

  predicate EndsWithNul(l: string) { l != "" && l[|l| - 1] == NUL }

  /** text, the lines of s up to the one that ends with NUL, and what follows that
      line; None when the stream ends first. */
  function FrameText(text: string, s: string): (r: Option<(string, string)>)
    ensures r.Some? ==> |r.value.1| < |s|
    decreases |s|
  {
    match ReadLine(s)
    case None => None
    case Some((line, rest)) =>
      if EndsWithNul(line) then Some((text, rest)) else FrameText(text + line + "\n", rest)
  }

  /** Line by line: a line that ends with NUL is dropped and ends the frame, any other
      is added with a line feed, and without one there is no frame. */
  lemma FrameTextIs(text: string, l: string, end: string, rest: string)
    requires forall c :: c in l ==> c != '\n' && c != '\r'
    requires end == "\n" || end == "\r\n" || (end == "\r" && (rest == "" || rest[0] != '\n')) ||
             (end == rest == "" && l != "")
    ensures FrameText(text, l + end + rest) ==
              if l != "" && l[|l| - 1] == '\0' then Some((text, rest)) else FrameText(text + l + "\n", rest)
    ensures FrameText(text, "") == None
  {
    ReadLineIs(l, end, rest);
  }

  const GONE := Frame(DISCONNECT, map["receipt" := "-1"], "")

  class LineTokenizer {
    /** What the socket still has to deliver. */
    var pending: string

    constructor (stream: string)
      ensures pending == stream
    {
      pending := stream;
    }

    /** Reads lines until one ends with NUL; the end of the stream counts as a
        DISCONNECT. */
    method GetFrame() returns (frame: Option<Frame>)
      modifies this
      ensures match FrameText("", old(pending))
              case None => frame == Some(Frame(DISCONNECT, map["receipt" := "-1"], "")) && pending == ""
              case Some((text, rest)) => frame == Parse(text) && pending == rest
    {
      hide Parse, LineLength;
      var frameStr := "";
      while true
        invariant FrameText("", old(pending)) == FrameText(frameStr, pending)
        decreases |pending|
      {
        var line := ReadLine(pending);
        if line.None? {
          return Some(GONE);
        }
        pending := line.value.1;
        if EndsWithNul(line.value.0) {
          frame := ParseText(frameStr);
          return;
        }
        frameStr := frameStr + line.value.0 + "\n";
      }
    }
  }

  // ------------------------------------------------------ front-end equivalence

  /** The stream of client-printed frames: lines, then NUL and a line feed. */
  function ClientStream(frames: seq<seq<string>>): string
  {
    if frames == [] then "" else Lines(frames[0]) + [NUL] + "\n" + ClientStream(frames[1..])
  }

  ghost predicate Printable(ls: seq<string>)
  {
    forall l :: l in ls ==> NUL !in l && '\n' !in l && '\r' !in l
  }

  function Texts(frames: seq<seq<string>>): (ts: seq<string>)
    ensures |ts| == |frames| && forall i :: 0 <= i < |ts| ==> ts[i] == Lines(frames[i])
  {
    seq(|frames|, i requires 0 <= i < |frames| => Lines(frames[i]))
  }

  /** What the thread-per-client server reads before the stream ends. */
  function LineFrames(s: string): seq<Option<Frame>>
    decreases |s|
  {
    match FrameText("", s)
    case None => []
    case Some((text, rest)) => [Parse(text)] + LineFrames(rest)
  }

  lemma {:induction false} LineLengthAt(l: string, rest: string)
    requires '\n' !in l && '\r' !in l && (rest != "" ==> LineEnd(rest[0]))
    ensures LineLength(l + rest) == |l|
  {
    if l == "" {
      assert l + rest == rest;
    } else {
      LineLengthAt(l[1..], rest);
      assert (l + rest)[1..] == l[1..] + rest;
      assert l[0] in l;
    }
  }

  lemma ReadOneLine(l: string, rest: string)
    requires '\n' !in l && '\r' !in l
    ensures ReadLine(l + "\n" + rest) == Some((l, rest))
  {
    var s := l + "\n" + rest;
    assert s == l + ("\n" + rest);
    LineLengthAt(l, "\n" + rest);
    assert s[..|l|] == l && s[|l|] == '\n' && s[|l| + 1..] == rest;
  }

  lemma {:induction false} NoNulLines(ls: seq<string>)
    requires Printable(ls)
    ensures NUL !in Lines(ls)
  {
    if ls != [] { NoNulLines(ls[1..]); }
  }

  /** The line tokenizer gets one frame's text and drops the delimiter line. */
  lemma {:induction false} FrameTextOf(text: string, ls: seq<string>, rest: string)
    requires Printable(ls)
    ensures FrameText(text, Lines(ls) + [NUL] + "\n" + rest) == Some((text + Lines(ls), rest))
    decreases |ls|
  {
    hide ReadLine;
    var s := Lines(ls) + [NUL] + "\n" + rest;
    if ls == [] {
      assert s == [NUL] + "\n" + rest;
      ReadOneLine([NUL], rest);
      assert text + "" == text;
    } else {
      var more := Lines(ls[1..]) + [NUL] + "\n" + rest;
      assert s == ls[0] + "\n" + more;
      ReadOneLine(ls[0], more);
      FrameTextOf(text + ls[0] + "\n", ls[1..], rest);
      assert ls[0] in ls;
      assert text + ls[0] + "\n" + Lines(ls[1..]) == text + Lines(ls);
    }
  }

  lemma {:induction false} LineFramesOf(frames: seq<seq<string>>)
    requires forall ls :: ls in frames ==> Printable(ls)
    ensures LineFrames(ClientStream(frames)) == ParseAll(Texts(frames))
  {
    hide Parse, FrameText, Lines;
    if frames != [] {
      FrameTextOf("", frames[0], ClientStream(frames[1..]));
      assert "" + Lines(frames[0]) == Lines(frames[0]);
      LineFramesOf(frames[1..]);
      assert Texts(frames)[1..] == Texts(frames[1..]);
    } else {
      assert Texts(frames) == [];
    }
  }

  /** The reactor cuts the same stream at the NULs, which leaves each later text
      with the line feed that ended the frame before. */
  lemma NothingComplete(rest: string)
    requires NUL !in rest
    ensures Complete(rest) == [] && Remainder(rest) == rest
  {
    SplitSingle(rest, NUL);
  }

  lemma {:induction false} CompleteOf(frames: seq<seq<string>>, lead: string)
    requires (forall ls :: ls in frames ==> Printable(ls)) && (lead == "" || lead == "\n")
    ensures ParseAll(Complete(lead + ClientStream(frames))) == ParseAll(Texts(frames))
    ensures Remainder(lead + ClientStream(frames)) == if frames == [] then lead else "\n"
  {
    hide Parse, Lines, Complete, Remainder;
    if frames == [] {
      assert lead + "" == lead;
      NothingComplete(lead);
      assert Texts(frames) == [];
    } else {
      var text, rest := Lines(frames[0]), ClientStream(frames[1..]);
      NoNulLines(frames[0]);
      CompleteOf(frames[1..], "\n");
      OneMoreText(lead + text, "\n" + rest);
      assert lead + ClientStream(frames) == (lead + text) + [NUL] + ("\n" + rest);
      SameWithLead(lead, text);
      ParseAllConcat([lead + text], Complete("\n" + rest));
      ParseAllConcat([text], Texts(frames[1..]));
      assert Texts(frames) == [text] + Texts(frames[1..]);
    }
  }

  lemma SameWithLead(lead: string, text: string)
    requires lead == "" || lead == "\n"
    ensures Parse(lead + text) == Parse(text)
  {
    if lead == "\n" { ParseLeadingNewline(text); } else { assert lead + text == text; }
  }

  lemma OneMoreText(text: string, rest: string)
    requires NUL !in text
    ensures Complete(text + [NUL] + rest) == [text] + Complete(rest)
    ensures Remainder(text + [NUL] + rest) == Remainder(rest)
  {
    SplitConcat(text, rest, NUL);
    var parts := Split(rest, NUL);
    assert ([text] + parts)[..|parts|] == [text] + parts[..|parts| - 1];
  }

  /** Front-end equivalence: on every stream of client-printed frames both servers
      parse the same sequence of frames. */
  lemma FrontEndsAgree(frames: seq<seq<string>>)
    requires forall ls :: ls in frames ==> Printable(ls)
    ensures ParseAll(Complete(ClientStream(frames))) == LineFrames(ClientStream(frames))
  {
    CompleteOf(frames, "");
    assert "" + ClientStream(frames) == ClientStream(frames);
    LineFramesOf(frames);
  }
}
