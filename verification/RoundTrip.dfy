/** Printing and parsing frames on the server: what survives, and what becomes of bodies. */
module RoundTrip {
  import opened Text
  import opened Frames

  /** What parsing makes of a body text: every line trimmed and followed by a tab,
      empty lines at the end dropped. */
  function Norm(b: string): string { TabBody(DropEmptyTail(Split(b, '\n'))) }

  /** A header that survives: no line feed, the key not empty and without colon,
      nothing to trim at either end of the line. */
  ghost predicate WellFormedHeader(key: string, value: string)
  {
    key != "" && ':' !in key && '\n' !in key && '\n' !in value && NUL !in key && NUL !in value &&
    Trimmed(Blank, HeaderLine(key, value))
  }

  ghost predicate WellFormedHeaders(headers: map<string, string>)
  {
    forall k :: k in headers ==> WellFormedHeader(k, headers[k])
  }

  // ------------------------------------------------------------------ headers

  lemma ColonAt(key: string, value: string)
    requires ':' !in key
    ensures IndexOf(HeaderLine(key, value), ':') == |key|
  {
    var s := HeaderLine(key, value);
    var i := IndexOf(s, ':');
    assert s[|key|] == ':';
    assert forall j :: 0 <= j < |key| ==> s[j] == key[j];
  }

  /** A well-formed line gives back exactly its key and value. */
  lemma HeaderBack(m: map<string, string>, key: string, value: string)
    requires WellFormedHeader(key, value)
    ensures WithHeader(m, HeaderLine(key, value)) == m[key := value] && !BlankLine(HeaderLine(key, value))
  {
    var s := HeaderLine(key, value);
    TrimFixed(Blank, s);
    ColonAt(key, value);
    assert s[..|key|] == key && s[|key| + 1..] == value;
  }

  lemma {:induction false} HeadersBack(headers: map<string, string>, keys: seq<string>)
    requires forall k :: k in keys ==> k in headers && WellFormedHeader(k, headers[k])
    ensures var m := HeaderMap(HeaderLines(headers, keys));
            (forall k :: k in m <==> k in keys) && forall k :: k in m ==> m[k] == headers[k]
  {
    if keys != [] {
      var before, k := keys[..|keys| - 1], keys[|keys| - 1];
      assert keys == before + [k];
      HeadersBack(headers, before);
      var ls := HeaderLines(headers, keys);
      assert ls[..|ls| - 1] == HeaderLines(headers, before);
      HeaderBack(HeaderMap(HeaderLines(headers, before)), k, headers[k]);
    }
  }

  lemma AllHeadersBack(headers: map<string, string>, keys: seq<string>)
    requires HeaderOrder(keys, headers) && WellFormedHeaders(headers)
    ensures HeaderMap(HeaderLines(headers, keys)) == headers
  {
    HeadersBack(headers, keys);
  }

  /** Lines as they stand between the command and the blank line. */
  ghost predicate LinesOk(ls: seq<string>)
  {
    forall l :: l in ls ==> '\n' !in l && !BlankLine(l)
  }

  lemma HeaderLinesOk(headers: map<string, string>, keys: seq<string>)
    requires forall k :: k in keys ==> k in headers && WellFormedHeader(k, headers[k])
    ensures LinesOk(HeaderLines(headers, keys))
  {
    forall l | l in HeaderLines(headers, keys) ensures '\n' !in l && !BlankLine(l) {
      var i :| 0 <= i < |keys| && l == HeaderLine(keys[i], headers[keys[i]]);
      HeaderBack(map[], keys[i], headers[keys[i]]);
    }
  }

  // ------------------------------------------------------------------- layout

  lemma {:induction false} HeaderCountAll(a: seq<string>, b: seq<string>)
    requires LinesOk(a) && (b != [] ==> BlankLine(b[0]))
    ensures HeaderCount(a + b) == |a|
  {
    if a == [] {
      assert a + b == b;
    } else {
      HeaderCountAll(a[1..], b);
      assert (a + b)[1..] == a[1..] + b;
    }
  }

  lemma NoEmptyTail(ls: seq<string>)
    requires LinesOk(ls)
    ensures DropEmptyTail(ls) == ls
  {
    if ls != [] { assert ls[|ls| - 1] in ls; }
  }

  lemma NameOk(c: Command)
    ensures '\n' !in Name(c) && !BlankLine(Name(c)) && CommandOf(Name(c)) == Some(c)
  {
    TrimFixed(Blank, Name(c));
  }

  /** A command line, header lines and possibly a blank line with text after it
      parse to that command, those headers and the normalized text. */
  lemma ParseLayout(c: Command, hl: seq<string>, tail: string, rest: string)
    requires FromClient(c) && LinesOk(hl) && ((tail == "" && rest == "") || tail == "\n" + rest)
    ensures Parse(Lines([Name(c)] + hl) + tail) == Some(Validated(Frame(c, HeaderMap(hl), Norm(rest))))
  {
    hide Trim, BlankLine, CommandOf, Name, HeaderMap, TabBody, Validated, JavaLines, Lines, DropEmptyTail, Split;
    hide HeaderCount, Parse, ParseLines;
    var ls, s := [Name(c)] + hl, Lines([Name(c)] + hl) + tail;
    NameOk(c);
    LayoutLines(ls, tail, rest);
    var bl := DropEmptyTail(Split(rest, '\n'));
    var more := if bl == [] then [] else [""] + bl;
    assert JavaLines(s) == ls + more;
    assert (ls + more)[0] == Name(c);
    ParseFrom(s, ls + more);
    assert (ls + more)[1..] == hl + more;
    BlankEmpty();
    LayoutFrame(c, hl, bl, ls + more);
  }

  lemma LayoutFrame(c: Command, hl: seq<string>, bl: seq<string>, ls: seq<string>)
    requires FromClient(c) && LinesOk(hl) && ls != [] && CommandOf(ls[0]) == Some(c) &&
             ls[1..] == hl + if bl == [] then [] else [""] + bl
    ensures ParseLines(ls) == Validated(Frame(c, HeaderMap(hl), TabBody(bl)))
  {
    var more := if bl == [] then [] else [""] + bl;
    BlankEmpty();
    HeaderCountAll(hl, more);
    assert (hl + more)[..|hl|] == hl;
    assert BodyLines(hl + more) == bl;
  }

  lemma ParseFrom(s: string, ls: seq<string>)
    requires ls == JavaLines(s) && ls != [] && !BlankLine(ls[0])
    ensures Parse(s) == Some(ParseLines(ls))
  {
    NotAllBlank(s, ls);
  }

  lemma BlankEmpty()
    ensures BlankLine("")
  {
  }

  lemma LayoutLines(ls: seq<string>, tail: string, rest: string)
    requires ls != [] && LinesOk(ls) && ((tail == "" && rest == "") || tail == "\n" + rest)
    ensures var bl := DropEmptyTail(Split(rest, '\n'));
            JavaLines(Lines(ls) + tail) == ls + if bl == [] then [] else [""] + bl
  {
    var s := Lines(ls) + tail;
    assert Lines(ls) == ls[0] + "\n" + Lines(ls[1..]);
    assert s[|ls[0]|] == '\n';
    SplitLines(ls, tail);
    NoEmptyTail(ls);
    BlankEmpty();
    DropTailConcat(ls, Split(tail, '\n'));
    if tail != "" {
      LeadingSplit(rest);
      DropTailConcat([""], Split(rest, '\n'));
    }
  }

  lemma NotAllBlank(s: string, ls: seq<string>)
    requires ls == JavaLines(s) && ls != [] && !BlankLine(ls[0])
    ensures Trim(s) != ""
  {
    TrimFacts(Blank, ls[0]);
    TrimFacts(Blank, s);
    if '\n' in s {
      JoinSplit(s, '\n');
      assert ls[0] in Split(s, '\n');
    }
  }

  lemma {:induction false} SplitTrailing(s: string)
    ensures Split(s + "\n", '\n') == Split(s, '\n') + [""]
  {
    if s == "" {
      assert s + "\n" == "\n" && "\n"[1..] == "";
      assert Split("\n", '\n') == [""] + Split("", '\n');
    } else {
      SplitTrailing(s[1..]);
      assert (s + "\n")[1..] == s[1..] + "\n";
    }
  }

  lemma NormTrailing(b: string)
    ensures Norm(b + "\n") == Norm(b)
  {
    SplitTrailing(b);
    DropTailConcat(Split(b, '\n'), [""]);
    assert DropEmptyTail([""]) == [] by { assert [""][..0] == []; }
  }

  ghost predicate HasMandatory(f: Frame)
  {
    forall h :: h in Mandatory(f.command) ==> h in f.headers
  }

  lemma {:induction false} NoneMissing(headers: map<string, string>, mandatory: seq<string>)
    ensures FirstMissing(headers, mandatory).None? <==> forall h :: h in mandatory ==> h in headers
  {
    if mandatory != [] {
      NoneMissing(headers, mandatory[1..]);
      assert mandatory == [mandatory[0]] + mandatory[1..];
    }
  }

  lemma HeadersInOrder(headers: map<string, string>, keys: seq<string>)
    requires HeaderOrder(keys, headers) && WellFormedHeaders(headers)
    ensures forall k :: k in keys ==> k in headers && WellFormedHeader(k, headers[k])
  {
  }

  /** Print and parse: a frame of a client kind with its mandatory headers, all of
      them well formed, comes back with the same command and header map, whatever
      the order of its headers, and with its body normalized. */
  lemma PrintParse(f: Frame, keys: seq<string>)
    requires FromClient(f.command) && HeaderOrder(keys, f.headers) && WellFormedHeaders(f.headers) && HasMandatory(f)
    ensures Parse(PrintedText(f, keys)) == Some(f.(body := Norm(f.body)))
  {
    hide Parse, Lines, Norm, HeaderMap, HeaderLines, LinesOk, WellFormedHeaders, HeaderOrder, Name, Mandatory;
    hide FirstMissing;
    HeadersInOrder(f.headers, keys);
    var hl := HeaderLines(f.headers, keys);
    HeaderLinesOk(f.headers, keys);
    AllHeadersBack(f.headers, keys);
    NoneMissing(f.headers, Mandatory(f.command));
    if f.body == "" {
      ParseLayout(f.command, hl, "", "");
      NormOfLine("");
      assert PrintedText(f, keys) == Lines([Name(f.command)] + hl) + "";
    } else {
      ParseLayout(f.command, hl, "\n" + (f.body + "\n"), f.body + "\n");
      assert "\n" + (f.body + "\n") == "\n" + f.body + "\n";
      NormTrailing(f.body);
    }
  }

  // ---------------------------------------------------------- body normalization

  lemma {:induction false} TabBodySingleLine(ls: seq<string>)
    requires forall l :: l in ls ==> '\n' !in l
    ensures '\n' !in TabBody(ls)
  {
    if ls != [] {
      TabBodySingleLine(ls[..|ls| - 1]);
      TrimFacts(Blank, ls[|ls| - 1]);
      assert ls[|ls| - 1] in ls;
    }
  }

  /** A normalized body is a single line. */
  lemma NormSingleLine(b: string)
    ensures '\n' !in Norm(b)
  {
    JoinSplit(b, '\n');
    TabBodySingleLine(DropEmptyTail(Split(b, '\n')));
  }

  /** One line, not empty, is trimmed and gets its tab. */
  lemma NormOfLine(b: string)
    requires '\n' !in b
    ensures Norm(b) == if b == "" then "" else Trim(b) + "\t"
  {
    SplitSingle(b, '\n');
    assert [b][..0] == [] && TabBody([]) == "";
    if b != "" {
      assert TabBody([b]) == TabBody([b][..0]) + Trim(b) + "\t";
    }
  }

  lemma TrimTab(t: string)
    requires Trimmed(Blank, t)
    ensures Trim(t + "\t") == t
  {
    var s := t + "\t";
    if t == "" {
      assert s[1..] == "";
    } else {
      assert s[0] == t[0] && TrimLeft(Blank, s) == s;
      assert s[..|s| - 1] == t && s[|s| - 1] == '\t' && Blank('\t');
      assert TrimRight(Blank, s) == TrimRight(Blank, t) == t;
    }
  }

  /** A normalized body normalizes to a trimmed line and a tab, or to nothing. */
  lemma NormNorm(b: string)
    ensures Norm(Norm(b)) == if Norm(b) == "" then "" else Trim(Norm(b)) + "\t"
  {
    NormSingleLine(b);
    NormOfLine(Norm(b));
  }

  /** Normalizing twice is as good as any number of times. */
  lemma NormTwice(b: string)
    ensures Norm(Norm(Norm(b))) == Norm(Norm(b))
  {
    NormNorm(b);
    NormNorm(Norm(b));
    var t := Trim(Norm(b));
    TrimFacts(Blank, Norm(b));
    TrimTab(t);
  }

  /** A body survives unchanged exactly when it is empty or a trimmed line and a tab. */
  lemma NormFixed(b: string)
    ensures Norm(b) == b <==> b == "" || (b[|b| - 1] == '\t' && '\n' !in b && Trimmed(Blank, b[..|b| - 1]))
  {
    NormSingleLine(b);
    if '\n' !in b && b != "" {
      NormOfLine(b);
      TrimFacts(Blank, b);
      var t := b[..|b| - 1];
      if b[|b| - 1] == '\t' && Trimmed(Blank, t) {
        assert b == t + "\t";
        TrimTab(t);
      }
      if Norm(b) == b {
        assert t == Trim(b);
      }
    } else if b == "" {
      NormOfLine(b);
    }
  }
}
