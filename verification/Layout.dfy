/** Which text is which frame, for every text: the lines in front, the command, the
    headers it must have, and the body, with all names and characters written out. */
module Layout {
  import opened Text
  import opened Frames
  import opened RoundTrip

  /** m is s without the characters up to the space at either end. */
  ghost predicate Middle(s: string, m: string)
  {
    exists a: string, b: string ::
      s == a + m + b && (forall c :: c in a || c in b ==> c <= ' ') && (m == "" || (m[0] > ' ' && m[|m| - 1] > ' '))
  }

  lemma TrimIs(s: string, m: string)
    ensures Trim(s) == m <==> Middle(s, m)
  {
    if Middle(s, m) {
      var a: string, b: string :|
        s == a + m + b && (forall c :: c in a || c in b ==> c <= ' ') && (m == "" || (m[0] > ' ' && m[|m| - 1] > ' '));
      TrimAround(Blank, a, m, b);
    }
    if Trim(s) == m {
      var a, b := TrimParts(Blank, s);
      assert s == a + m + b;
    }
  }

  // ------------------------------------------------------------------- commands

  /** The line is the name of one of the five commands, blanks aside. */
  ghost predicate Commands(l: string, c: Command)
  {
    match c
    case CONNECT => Middle(l, "CONNECT")
    case DISCONNECT => Middle(l, "DISCONNECT")
    case SEND => Middle(l, "SEND")
    case SUBSCRIBE => Middle(l, "SUBSCRIBE")
    case UNSUBSCRIBE => Middle(l, "UNSUBSCRIBE")
    case _ => false
  }

  lemma CommandsIs(l: string, c: Command)
    ensures Commands(l, c) <==> CommandOf(l) == Some(c) && FromClient(c)
  {
    hide Trim, Middle;
    TrimIs(l, "CONNECT");
    TrimIs(l, "DISCONNECT");
    TrimIs(l, "SEND");
    TrimIs(l, "SUBSCRIBE");
    TrimIs(l, "UNSUBSCRIBE");
  }

  // -------------------------------------------------------------------- headers

  /** The line gives key the value: the key, not empty, is what stands before the first
      colon, and the value all that follows, blanks at the ends of the line aside. */
  ghost predicate Gives(line: string, key: string, value: string)
  {
    Middle(line, key + ":" + value) && key != "" && ':' !in key
  }

  lemma GivesIs(m: map<string, string>, line: string)
    ensures forall key, value :: Gives(line, key, value) ==> WithHeader(m, line) == m[key := value]
    ensures (forall key, value :: !Gives(line, key, value)) ==> WithHeader(m, line) == m
  {
    hide Trim, Middle;
    var t := Trim(line);
    var i := IndexOf(t, ':');
    forall key, value | Gives(line, key, value) ensures WithHeader(m, line) == m[key := value] {
      TrimIs(line, key + ":" + value);
      ColonAt(key, value);
      assert t == HeaderLine(key, value) && t[..|key|] == key && t[|key| + 1..] == value;
    }
    if 0 < i < |t| {
      assert t == t[..i] + ":" + t[i + 1..];
      TrimIs(line, t);
      assert Gives(line, t[..i], t[i + 1..]);
    }
  }

  lemma GivesOnce(line: string, key: string, value: string, key': string, value': string)
    requires Gives(line, key, value) && Gives(line, key', value')
    ensures key' == key && value' == value
  {
    hide Trim, Middle;
    var s, s' := key + ":" + value, key' + ":" + value';
    TrimIs(line, s);
    TrimIs(line, s');
    ColonAt(key, value);
    ColonAt(key', value');
    assert s == HeaderLine(key, value) && s' == HeaderLine(key', value');
    assert key == s[..|key|] && value == s[|key| + 1..] && key' == s[..|key|] && value' == s[|key| + 1..];
  }

  /** Line i gives key the value, and no later line gives it another. */
  ghost predicate LastGives(ls: seq<string>, i: nat, key: string, value: string)
  {
    i < |ls| && Gives(ls[i], key, value) && forall j, v :: i < j < |ls| ==> !Gives(ls[j], key, v)
  }

  /** A key has the value that the last line with this key gives it, and without such
      a line none. */
  lemma {:induction false} HeadersAre(ls: seq<string>, key: string, value: string)
    ensures key in HeaderMap(ls) && HeaderMap(ls)[key] == value <==> exists i: nat :: LastGives(ls, i, key, value)
  {
    hide Gives;
    if ls != [] {
      var n, m := |ls| - 1, HeaderMap(ls[..|ls| - 1]);
      HeadersAre(ls[..n], key, value);
      GivesIs(m, ls[n]);
      if v :| Gives(ls[n], key, v) {
        if Gives(ls[n], key, value) {
          assert LastGives(ls, n, key, value);
        } else {
          assert forall i: nat :: !LastGives(ls, i, key, value);
        }
      } else {
        KeyBefore(m, ls[n], key);
        if i: nat :| LastGives(ls[..n], i, key, value) { assert LastGives(ls, i, key, value); }
        if i: nat :| LastGives(ls, i, key, value) {
          forall j, v | i < j < n ensures !Gives(ls[..n][j], key, v) { assert ls[..n][j] == ls[j]; }
          assert LastGives(ls[..n], i, key, value);
        }
      }
    }
  }

  lemma KeyBefore(m: map<string, string>, line: string, key: string)
    requires forall v :: !Gives(line, key, v)
    ensures key in WithHeader(m, line) <==> key in m
    ensures key in m ==> WithHeader(m, line)[key] == m[key]
  {
    hide Gives, WithHeader;
    GivesIs(m, line);
    if k, v :| Gives(line, k, v) { assert WithHeader(m, line) == m[k := v]; }
  }

  /** What each kind of frame cannot do without. */
  ghost predicate Complete(c: Command, headers: map<string, string>)
  {
    match c
    case CONNECT =>
      "accept-version" in headers && "host" in headers && "login" in headers && "passcode" in headers
    case DISCONNECT => "receipt" in headers
    case SEND => "destination" in headers
    case SUBSCRIBE => "destination" in headers && "id" in headers
    case UNSUBSCRIBE => "id" in headers
    case _ => true
  }

  /** h is the first of these that is missing. */
  ghost predicate Lacks(c: Command, headers: map<string, string>, h: string)
  {
    h !in headers &&
    match c
    case CONNECT =>
      h == "accept-version" ||
      ("accept-version" in headers &&
       (h == "host" ||
        ("host" in headers &&
         (h == "login" ||
          ("login" in headers && h == "passcode")))))
    case DISCONNECT => h == "receipt"
    case SEND => h == "destination"
    case SUBSCRIBE => h == "destination" || ("destination" in headers && h == "id")
    case UNSUBSCRIBE => h == "id"
    case _ => false
  }

  /** The error that names a missing header. */
  function MissingHeader(h: string): Frame
  {
    Frame(ERROR, map["message" := "Frame error"], h + " is a mandatory header.\nPlease try again.")
  }

  lemma ValidatedIs(f: Frame)
    ensures if Complete(f.command, f.headers) then Validated(f) == f
            else exists h :: Lacks(f.command, f.headers, h) && Validated(f) == MissingHeader(h)
    ensures forall h :: Lacks(f.command, f.headers, h) ==> Validated(f) == MissingHeader(h)
  {
    FirstMissingIs(f);
  }

  lemma FirstMissingIs(f: Frame)
    ensures FirstMissing(f.headers, Mandatory(f.command)).None? <==> Complete(f.command, f.headers)
    ensures forall h :: FirstMissing(f.headers, Mandatory(f.command)) == Some(h) <==> Lacks(f.command, f.headers, h)
  {
    var headers := f.headers;
    assert FirstMissing(headers, []) == None;
    match f.command
    case CONNECT =>
      MissingFirst(headers, "accept-version", ["host", "login", "passcode"]);
      MissingFirst(headers, "host", ["login", "passcode"]);
      MissingFirst(headers, "login", ["passcode"]);
      MissingFirst(headers, "passcode", []);
    case DISCONNECT => MissingFirst(headers, "receipt", []);
    case SEND => MissingFirst(headers, "destination", []);
    case SUBSCRIBE =>
      MissingFirst(headers, "destination", ["id"]);
      MissingFirst(headers, "id", []);
    case UNSUBSCRIBE => MissingFirst(headers, "id", []);
    case _ =>
  }

  lemma MissingFirst(headers: map<string, string>, h: string, rest: seq<string>)
    ensures FirstMissing(headers, [h] + rest) == if h !in headers then Some(h) else FirstMissing(headers, rest)
  {
    assert ([h] + rest)[1..] == rest;
  }

  // ------------------------------------------------------------------ whole text

  ghost predicate AllBlank(l: string) { forall c :: c in l ==> c <= ' ' }

  lemma BlankIs(l: string)
    ensures BlankLine(l) <==> AllBlank(l)
  {
    TrimFacts(Blank, l);
  }

  /** s is lines: blank ones in front, the command, header lines that are not blank,
      and possibly a blank line with anything behind it. */
  ghost predicate LaidOut(s: string, front: seq<string>, command: string, hl: seq<string>, more: seq<string>)
  {
    s == Join(front + [command] + hl + more, '\n') && Unbroken(front + [command] + hl + more) &&
    (forall i :: 0 <= i < |front| ==> AllBlank(front[i])) && !AllBlank(command) &&
    (forall i :: 0 <= i < |hl| ==> !AllBlank(hl[i])) && (more != [] ==> AllBlank(more[0]))
  }

  ghost predicate Unbroken(ls: seq<string>) { forall l :: l in ls ==> '\n' !in l }

  /** Every text with a character above the space is laid out like that. */
  lemma EveryText(s: string) returns (front: seq<string>, command: string, hl: seq<string>, more: seq<string>)
    requires !AllBlank(s)
    ensures LaidOut(s, front, command, hl, more)
  {
    hide Split, Join, SkipBlank, HeaderCount, AllBlank, BlankLine, Unbroken;
    var ls := Split(s, '\n');
    PiecesUnbroken(s);
    var rest := SkipBlank(ls);
    NotAllBlankLines(s);
    front, command := ls[..|ls| - |rest|], rest[0];
    var n := HeaderCount(rest[1..]);
    hl, more := rest[1..][..n], rest[1..][n..];
    assert front + [command] + hl + more == ls;
    forall l ensures BlankLine(l) <==> AllBlank(l) { BlankIs(l); }
  }

  lemma PiecesUnbroken(s: string)
    ensures Join(Split(s, '\n'), '\n') == s && Unbroken(Split(s, '\n'))
  {
    JoinSplit(s, '\n');
  }

  lemma NotAllBlankLines(s: string)
    requires !AllBlank(s)
    ensures SkipBlank(Split(s, '\n')) != []
  {
    var i :| 0 <= i < |s| && s[i] > ' ';
    LineOf(s, i);
    var l :| l in Split(s, '\n') && s[i] in l;
    BlankIs(l);
  }

  lemma {:induction false} SkipPast(front: seq<string>, rest: seq<string>)
    requires (forall i :: 0 <= i < |front| ==> BlankLine(front[i])) && rest != [] && !BlankLine(rest[0])
    ensures SkipBlank(front + rest) == rest
  {
    if front == [] {
      assert front + rest == rest;
    } else {
      SkipPast(front[1..], rest);
      assert (front + rest)[1..] == front[1..] + rest;
    }
  }

  lemma LinesRead(s: string, front: seq<string>, command: string, hl: seq<string>, more: seq<string>)
    requires LaidOut(s, front, command, hl, more)
    ensures Parse(s) == Some(ParseLines([command] + hl + DropEmptyTail(more)))
    ensures LinesOk(hl) && !BlankLine(command) && (more != [] ==> BlankLine(more[0]))
  {
    hide Split, Join, SkipBlank, AllBlank, BlankLine, Unbroken, Parse, ParseLines, JavaLines, DropEmptyTail, LinesOk;
    forall l ensures BlankLine(l) <==> AllBlank(l) { BlankIs(l); }
    var ls, kept := front + [command] + hl + more, DropEmptyTail(more);
    Resplit(ls);
    assert ls[|front|] == command;
    JavaLinesOf(s, ls);
    HeadersUnbroken(front, command, hl, more);
    var head := front + [command] + hl;
    DropTailConcat(head, more);
    LastKept(head);
    assert head + [] == head;
    assert DropEmptyTail(ls) == head + kept;
    assert head + kept == front + ([command] + hl + kept);
    SkipPast(front, [command] + hl + kept);
    assert JavaLines(s)[|front|] == command;
    TextNotBlank(s, command);
    Parsed(s);
  }

  lemma Parsed(s: string)
    requires Trim(s) != "" && SkipBlank(JavaLines(s)) != []
    ensures Parse(s) == Some(ParseLines(SkipBlank(JavaLines(s))))
  {
  }

  lemma Resplit(ls: seq<string>)
    requires ls != [] && Unbroken(ls)
    ensures Split(Join(ls, '\n'), '\n') == ls
  {
    SplitJoin(ls, '\n');
  }

  lemma HeadersUnbroken(front: seq<string>, command: string, hl: seq<string>, more: seq<string>)
    requires Unbroken(front + [command] + hl + more) && forall i :: 0 <= i < |hl| ==> !BlankLine(hl[i])
    ensures LinesOk(hl)
  {
    hide BlankLine;
    forall l | l in hl ensures '\n' !in l && !BlankLine(l) { assert l in front + [command] + hl + more; }
  }

  lemma JavaLinesOf(s: string, ls: seq<string>)
    requires Split(s, '\n') == ls && exists l :: l in ls && !BlankLine(l)
    ensures JavaLines(s) == DropEmptyTail(ls)
  {
    if '\n' !in s {
      SplitSingle(s, '\n');
      BlankEmpty();
    }
  }

  lemma LastKept(ls: seq<string>)
    requires ls != [] && !BlankLine(ls[|ls| - 1])
    ensures DropEmptyTail(ls) == ls
  {
    BlankEmpty();
  }

  lemma TextNotBlank(s: string, l: string)
    requires l in JavaLines(s) && !BlankLine(l)
    ensures Trim(s) != ""
  {
    TrimFacts(Blank, s);
    TrimFacts(Blank, l);
    JoinSplit(s, '\n');
    if '\n' in s { assert l in Split(s, '\n'); }
  }

  /** Each line trimmed and with a tab behind it. */
  function Tabbed(ls: seq<string>): string { if ls == [] then "" else Trim(ls[0]) + "\t" + Tabbed(ls[1..]) }

  lemma {:induction false} TabbedIs(ls: seq<string>)
    ensures TabBody(ls) == Tabbed(ls)
  {
    hide Trim;
    if |ls| == 1 {
      assert ls[..0] == [] && ls[1..] == [] && TabBody([]) == "";
    } else if ls != [] {
      var n := |ls| - 1;
      TabbedIs(ls[..n]);
      TabbedSnoc(ls[..n], ls[n]);
      assert ls[..n] + [ls[n]] == ls;
    }
  }

  lemma {:induction false} TabbedSnoc(ls: seq<string>, l: string)
    ensures Tabbed(ls + [l]) == Tabbed(ls) + Trim(l) + "\t"
  {
    hide Trim;
    if ls == [] {
      assert ls + [l] == [l] && [l][1..] == [];
    } else {
      TabbedSnoc(ls[1..], l);
      assert (ls + [l])[1..] == ls[1..] + [l];
    }
  }

  /** kept is the lines of more behind its first, without the empty ones at the end. */
  ghost predicate Kept(more: seq<string>, kept: seq<string>)
  {
    if more == [] then kept == []
    else
      |kept| < |more| && kept == more[1..|kept| + 1] && (kept != [] ==> kept[|kept| - 1] != "") &&
      forall i :: |kept| < i < |more| ==> more[i] == ""
  }

  lemma {:induction false} DropsEmpty(a: seq<string>, b: seq<string>)
    requires (a != [] ==> a[|a| - 1] != "") && forall i :: 0 <= i < |b| ==> b[i] == ""
    ensures DropEmptyTail(a + b) == a
  {
    if b == [] {
      assert a + b == a;
    } else {
      assert (a + b)[..|a + b| - 1] == a + b[..|b| - 1];
      DropsEmpty(a, b[..|b| - 1]);
    }
  }

  lemma BodyIs(more: seq<string>, kept: seq<string>)
    requires Kept(more, kept)
    ensures var ls := DropEmptyTail(more); TabBody(if ls == [] then [] else ls[1..]) == Tabbed(kept)
  {
    if more != [] {
      var tail := more[|kept| + 1..];
      assert more == ([more[0]] + kept) + tail;
      if kept == [] && more[0] == "" {
        DropsEmpty([], more);
        assert [] + more == more;
      } else {
        DropsEmpty([more[0]] + kept, tail);
        assert ([more[0]] + kept)[1..] == kept;
      }
    }
    TabbedIs(kept);
  }

  /** What a text is parsed to, whatever it is: by its first line that is not blank it
      is a frame of one of five kinds or an unknown command; the lines up to the next
      blank one are its headers, and the rest is its body. It is an error that names
      the first missing header if its kind must have one it lacks. */
  lemma TextParses(s: string, front: seq<string>, command: string, hl: seq<string>, more: seq<string>,
          kept: seq<string>)
    requires LaidOut(s, front, command, hl, more) && Kept(more, kept)
    ensures (forall c :: !Commands(command, c)) ==>
              Parse(s) == Some(Frame(ERROR, map["message" := "No matching STOMP command."], ""))
    ensures forall c :: Commands(command, c) ==>
              var f := Frame(c, HeaderMap(hl), Tabbed(kept));
              if Complete(c, f.headers) then Parse(s) == Some(f)
              else exists h :: Lacks(c, f.headers, h) && Parse(s) == Some(MissingHeader(h))
  {
    hide Parse, ParseLines, HeaderMap, DropEmptyTail, TabBody, Tabbed, Validated, CommandOf, Commands, LaidOut;
    LinesRead(s, front, command, hl, more);
    BodyIs(more, kept);
    var ls := DropEmptyTail(more);
    KeepsBlank(more);
    forall c ensures Commands(command, c) <==> CommandOf(command) == Some(c) && FromClient(c) {
      CommandsIs(command, c);
    }
    LinesFrame(command, hl, ls);
    forall c | Commands(command, c)
      ensures var f := Frame(c, HeaderMap(hl), Tabbed(kept));
              if Complete(c, f.headers) then Parse(s) == Some(f)
              else exists h :: Lacks(c, f.headers, h) && Parse(s) == Some(MissingHeader(h))
    {
      ValidatedIs(Frame(c, HeaderMap(hl), Tabbed(kept)));
    }
  }

  lemma KeepsBlank(more: seq<string>)
    requires more != [] ==> BlankLine(more[0])
    ensures var ls := DropEmptyTail(more); ls != [] ==> BlankLine(ls[0])
  {
  }

  lemma LinesFrame(command: string, hl: seq<string>, ls: seq<string>)
    requires LinesOk(hl) && (ls != [] ==> BlankLine(ls[0]))
    ensures ParseLines([command] + hl + ls) ==
              if CommandOf(command).None? || !FromClient(CommandOf(command).value)
              then ErrorFrame("No matching STOMP command.", "")
              else Validated(Frame(CommandOf(command).value, HeaderMap(hl), TabBody(if ls == [] then [] else ls[1..])))
  {
    hide CommandOf, HeaderMap, TabBody, Validated, Trim;
    var all := [command] + hl + ls;
    assert all[1..] == hl + ls;
    HeaderCountAll(hl, ls);
    assert (hl + ls)[..|hl|] == hl;
    assert ls != [] ==> (hl + ls)[|hl| + 1..] == ls[1..];
  }

  // --------------------------------------------------------------- consequences

  /** No text is parsed to a frame of a client without the headers it must have. */
  lemma ParsedComplete(s: string)
    requires Parse(s).Some?
    ensures var f := Parse(s).value;
            match f.command
            case CONNECT =>
              "accept-version" in f.headers && "host" in f.headers && "login" in f.headers && "passcode" in f.headers
            case DISCONNECT => "receipt" in f.headers
            case SEND => "destination" in f.headers
            case SUBSCRIBE => "destination" in f.headers && "id" in f.headers
            case UNSUBSCRIBE => "id" in f.headers
            case c => c == ERROR
  {
    var ls := SkipBlank(JavaLines(s));
    hide JavaLines, HeaderMap, TabBody, Trim, SkipBlank, Validated, CommandOf;
    var c := CommandOf(ls[0]);
    if c.Some? && FromClient(c.value) {
      var f := Frame(c.value, HeaderMap(ls[1..][..HeaderCount(ls[1..])]), TabBody(BodyLines(ls[1..])));
      hide HeaderCount, BodyLines;
      assert Parse(s).value == Validated(f);
      ValidatedComplete(f);
    }
  }

  lemma ValidatedComplete(f: Frame)
    ensures Validated(f).command == ERROR || (Validated(f) == f && Complete(f.command, f.headers))
  {
    ValidatedIs(f);
  }

  /** A printed frame of a client that lacks a header comes back as the error. */
  lemma PrintedIncomplete(f: Frame, keys: seq<string>, h: string)
    requires FromClient(f.command) && HeaderOrder(keys, f.headers) && WellFormedHeaders(f.headers)
    requires Lacks(f.command, f.headers, h)
    ensures Parse(PrintedText(f, keys)) == Some(MissingHeader(h))
  {
    hide Parse, Lines, HeaderMap, HeaderLines, LinesOk, WellFormedHeaders, HeaderOrder, Name, Lacks, Validated, Norm;
    HeadersInOrder(f.headers, keys);
    var hl := HeaderLines(f.headers, keys);
    HeaderLinesOk(f.headers, keys);
    AllHeadersBack(f.headers, keys);
    var rest := if f.body == "" then "" else f.body + "\n";
    ValidatedIs(Frame(f.command, f.headers, Norm(rest)));
    if f.body == "" {
      ParseLayout(f.command, hl, "", "");
      assert PrintedText(f, keys) == Lines([Name(f.command)] + hl) + "";
    } else {
      ParseLayout(f.command, hl, "\n" + (f.body + "\n"), f.body + "\n");
      assert "\n" + (f.body + "\n") == "\n" + f.body + "\n";
    }
  }
}
