/** What the client's parser makes of any text, with all names and characters written
    out. */
module AnswerLayout {
  import opened Text
  import opened Frames
  import opened ClientFrames

  /** m is s without white space, as the C locale counts it, at either end. */
  ghost predicate Core(s: string, m: string)
  {
    exists a: string, b: string ::
      s == a + m + b && (forall c :: c in a || c in b ==> c == ' ' || 9 <= c as int <= 13) &&
      (m == "" || (Firm(m[0]) && Firm(m[|m| - 1])))
  }

  predicate Firm(c: char) { c != ' ' && !(9 <= c as int <= 13) }

  lemma CoreIs(s: string, m: string)
    ensures TrimBy(Space, s) == m <==> Core(s, m)
  {
    if Core(s, m) {
      var a: string, b: string :|
        s == a + m + b && (forall c :: c in a || c in b ==> c == ' ' || 9 <= c as int <= 13) &&
        (m == "" || (Firm(m[0]) && Firm(m[|m| - 1])));
      TrimAround(Space, a, m, b);
    }
    if TrimBy(Space, s) == m {
      var a, b := TrimParts(Space, s);
      assert s == a + m + b;
    }
  }

  /** The first of two line feeds in a row is at i, or there are none and i is the end. */
  ghost predicate Gap(s: string, i: nat)
  {
    (forall j :: 0 <= j < i && j + 1 < |s| ==> !(s[j] == '\n' && s[j + 1] == '\n')) &&
    (i == |s| || (i + 1 < |s| && s[i] == '\n' && s[i + 1] == '\n'))
  }

  lemma {:induction false} GapIs(s: string, i: nat)
    requires Gap(s, i)
    ensures FindDouble(s) == i
  {
    if i > 0 && |s| >= 2 {
      var t := s[1..];
      assert !(s[0] == '\n' && s[0 + 1] == '\n');
      forall j | 0 <= j < i - 1 && j + 1 < |t| ensures !(t[j] == '\n' && t[j + 1] == '\n') {
        var x := j + 1;
        assert !(s[x] == '\n' && s[x + 1] == '\n');
      }
      GapIs(t, i - 1);
    }
  }

  /** The token gives key the value: what stands before its first colon, even if that is
      nothing, and all that follows. */
  ghost predicate Pairs(t: string, key: string, value: string) { t == key + ":" + value && ':' !in key }

  lemma PairsIs(m: map<string, string>, t: string)
    ensures forall key, value :: Pairs(t, key, value) ==> WithPair(m, t) == m[key := value]
    ensures (forall key, value :: !Pairs(t, key, value)) ==> WithPair(m, t) == m
  {
    forall key, value | Pairs(t, key, value) ensures WithPair(m, t) == m[key := value] { PairBack(m, key, value); }
    var i := IndexOf(t, ':');
    if i < |t| {
      assert t == t[..i] + ":" + t[i + 1..];
      assert Pairs(t, t[..i], t[i + 1..]);
    }
  }

  /** Token i gives key the value, and no later token gives it another. */
  ghost predicate LastPairs(ts: seq<string>, i: nat, key: string, value: string)
  {
    i < |ts| && Pairs(ts[i], key, value) && forall j, v :: i < j < |ts| ==> !Pairs(ts[j], key, v)
  }

  lemma {:induction false} PairsAre(ts: seq<string>, key: string, value: string)
    ensures key in PairMap(ts) && PairMap(ts)[key] == value <==> exists i: nat :: LastPairs(ts, i, key, value)
  {
    hide Pairs;
    if ts != [] {
      var n, m := |ts| - 1, PairMap(ts[..|ts| - 1]);
      PairsAre(ts[..n], key, value);
      PairsIs(m, ts[n]);
      if v :| Pairs(ts[n], key, v) {
        if Pairs(ts[n], key, value) {
          assert LastPairs(ts, n, key, value);
        } else {
          assert forall i: nat :: !LastPairs(ts, i, key, value);
        }
      } else {
        PairBefore(m, ts[n], key);
        if i: nat :| LastPairs(ts[..n], i, key, value) { assert LastPairs(ts, i, key, value); }
        if i: nat :| LastPairs(ts, i, key, value) {
          forall j, v | i < j < n ensures !Pairs(ts[..n][j], key, v) { assert ts[..n][j] == ts[j]; }
          assert LastPairs(ts[..n], i, key, value);
        }
      }
    }
  }

  lemma PairBefore(m: map<string, string>, t: string, key: string)
    requires forall v :: !Pairs(t, key, v)
    ensures key in WithPair(m, t) <==> key in m
    ensures key in m ==> WithPair(m, t)[key] == m[key]
  {
    hide Pairs, WithPair;
    PairsIs(m, t);
    if k, v :| Pairs(t, k, v) { assert WithPair(m, t) == m[k := v]; }
  }

  /** s is laid out as lines up to the first empty line, white space at the ends aside,
      of which the first n behind the first are not empty, and a body. */
  ghost predicate LaidOut(s: string, i: nat, lines: seq<string>, n: nat, body: string)
  {
    Gap(s, i) && i <= |s| && lines != [] && n < |lines| && Core(s[..i], Join(lines, '\n')) &&
    (forall l :: l in lines ==> '\n' !in l) && (forall j :: 0 < j <= n ==> lines[j] != "") &&
    (n + 1 < |lines| ==> lines[n + 1] == "") && Core(if i < |s| then s[i + 1..] else s, body)
  }

  /** What the client makes of a text: by its first line a frame of one of four kinds,
      or none; the lines up to the next empty one are its headers. */
  lemma AnswerParses(s: string, i: nat, lines: seq<string>, n: nat, body: string)
    requires LaidOut(s, i, lines, n, body) && Join(lines, '\n') != ""
    ensures TypeAndHeaders(s) != ""
    ensures var headers := PairMap(lines[1..n + 1]);
            ClientParse(s) ==
              if lines[0] == "CONNECTED" then Some(Parsed(CONNECTED, headers, body))
              else if lines[0] == "ERROR" then Some(Parsed(ERROR, headers, body))
              else if lines[0] == "MESSAGE" then Some(Parsed(MESSAGE, headers, body))
              else if lines[0] == "RECEIPT" then Some(Parsed(RECEIPT, headers, body))
              else None
  {
    hide Split, Join, Core, Gap, TrimBy, FindDouble, PairMap;
    GapIs(s, i);
    CoreIs(s[..i], Join(lines, '\n'));
    CoreIs(if i < |s| then s[i + 1..] else s, body);
    SplitJoin(lines, '\n');
    CountIs(lines[1..], n);
    assert lines[1..][..n] == lines[1..n + 1];
  }

  lemma {:induction false} CountIs(ts: seq<string>, n: nat)
    requires n <= |ts| && (forall j :: 0 <= j < n ==> ts[j] != "") && (n < |ts| ==> ts[n] == "")
    ensures PairCount(ts) == n
  {
    if n > 0 { CountIs(ts[1..], n - 1); }
  }

  lemma {:induction false} GapFound(s: string)
    ensures Gap(s, FindDouble(s))
  {
    if |s| >= 2 && !(s[0] == '\n' && s[1] == '\n') {
      var t := s[1..];
      GapFound(t);
      forall j | 0 <= j < FindDouble(s) && j + 1 < |s| ensures !(s[j] == '\n' && s[j + 1] == '\n') {
        if j > 0 {
          var x := j - 1;
          assert !(t[x] == '\n' && t[x + 1] == '\n');
        }
      }
    }
  }

  /** Every text whose first part is not blank is laid out like that. */
  lemma EveryAnswer(s: string) returns (i: nat, lines: seq<string>, n: nat, body: string)
    requires TypeAndHeaders(s) != ""
    ensures LaidOut(s, i, lines, n, body) && Join(lines, '\n') == TypeAndHeaders(s)
  {
    hide Split, Join, Core, Gap, TrimBy, FindDouble;
    i := FindDouble(s);
    GapFound(s);
    lines := Split(TypeAndHeaders(s), '\n');
    JoinSplit(TypeAndHeaders(s), '\n');
    CoreIs(s[..i], TypeAndHeaders(s));
    body := TrimBy(Space, if i < |s| then s[i + 1..] else s);
    CoreIs(if i < |s| then s[i + 1..] else s, body);
    n := PairCount(lines[1..]);
    forall j | 0 < j <= n ensures lines[j] != "" { assert lines[1..][j - 1] != ""; }
    if n + 1 < |lines| { assert lines[1..][n] == ""; }
  }
}
