/** The mention pattern of TwitterEngine: an "@" that does not follow a word
    character, then a letter and at least one more letter or digit. */
module Mentions {

  predicate Letter(c: char) { 'a' <= c <= 'z' || 'A' <= c <= 'Z' }

  predicate Alnum(c: char) { Letter(c) || '0' <= c <= '9' }

  /** The class the look-behind excludes. */
  predicate Wordish(c: char) { Alnum(c) || c == '-' || c == '_' || c == '.' }

  /** Length of the longest prefix of letters and digits. */
  function AlnumRun(s: string): (n: nat)
    ensures n <= |s| && (forall i :: 0 <= i < n ==> Alnum(s[i])) && (n < |s| ==> !Alnum(s[n]))
  {
    if s != "" && Alnum(s[0]) then 1 + AlnumRun(s[1..]) else 0
  }

  predicate MentionAt(s: string, i: nat)
  {
    i + 2 < |s| && s[i] == '@' && (i == 0 || !Wordish(s[i - 1])) && Letter(s[i + 1]) && Alnum(s[i + 2])
  }

  function NameAt(s: string, i: nat): (name: string)
    requires i < |s|
  {
    s[i + 1..i + 1 + AlnumRun(s[i + 1..])]
  }

  /** Names mentioned at position i or later, in textual order. */
  function MentionsFrom(s: string, i: nat): seq<string>
    decreases |s| - i
  {
    if i >= |s| then []
    else if MentionAt(s, i) then [NameAt(s, i)] + MentionsFrom(s, i + 1)
    else MentionsFrom(s, i + 1)
  }

  function FindMentions(s: string): seq<string> { MentionsFrom(s, 0) }

  /** Inside a run of letters and digits no mention begins. */
  lemma {:induction false} NoMentionWithin(s: string, i: nat, j: nat)
    requires i <= j <= |s| && forall k :: i <= k < j ==> s[k] != '@'
    ensures MentionsFrom(s, i) == MentionsFrom(s, j)
    decreases j - i
  {
    if i < j { NoMentionWithin(s, i + 1, j); }
  }

  /** The regular expression's group, letters and then letters or digits, each as
      many as possible with backtracking, takes the whole run of at least two. */
  function LetterRun(s: string): (n: nat)
    ensures n <= AlnumRun(s)
  {
    if s != "" && Letter(s[0]) then 1 + LetterRun(s[1..]) else 0
  }

  /** The longest match that gives at least one character to each part, trying
      k letters for the first part, then fewer; 0 when there is none. */
  function GroupMatch(s: string, k: nat): nat
    requires k <= |s|
  {
    if k == 0 then 0
    else if AlnumRun(s[k..]) > 0 then k + AlnumRun(s[k..])
    else GroupMatch(s, k - 1)
  }

  lemma {:induction false} AlnumRunFrom(s: string, k: nat)
    requires k <= AlnumRun(s)
    ensures AlnumRun(s[k..]) == AlnumRun(s) - k
  {
    if k > 0 {
      AlnumRunFrom(s[1..], k - 1);
      assert s[1..][k - 1..] == s[k..];
    }
  }

  lemma GroupIsRun(s: string)
    ensures GroupMatch(s, LetterRun(s)) == if |s| >= 2 && Letter(s[0]) && Alnum(s[1]) then AlnumRun(s) else 0
  {
    var k := LetterRun(s);
    if k > 0 {
      AlnumRunFrom(s, k);
      AlnumRunFrom(s, k - 1);
      AlnumRunFrom(s, 1);
      assert GroupMatch(s, k) == if AlnumRun(s[k..]) > 0 then AlnumRun(s) else GroupMatch(s, k - 1);
      if AlnumRun(s[k..]) == 0 && k > 1 {
        assert GroupMatch(s, k - 1) == AlnumRun(s);
      }
    }
  }

  /** The regular expression matcher's find, from position pos on: whether there is
      a match, its group, and the position behind it. */
  function Find(text: string, pos: nat): (r: (bool, string, nat))
    requires pos <= |text|
    ensures pos <= r.2 <= |text|
    ensures MentionsFrom(text, pos) == if r.0 then [r.1] + MentionsFrom(text, r.2) else []
    decreases |text| - pos
  {
    if pos == |text| then (false, "", pos)
    else if MentionAt(text, pos) then
      var group := NameAt(text, pos);
      NoMentionWithin(text, pos + 1, pos + 1 + |group|);
      (true, group, pos + 1 + |group|)
    else Find(text, pos + 1)
  }

  // -------------------------------------------------- the pattern, written out

  /** The pattern matches text[i..j]: an "@" at the start of the text or behind a
      character outside the excluded class, then letters and behind them letters or
      digits, at least one of each, as many as there are. */
  ghost predicate Matches(text: string, i: nat, j: nat)
  {
    i < j <= |text| && text[i] == '@' &&
    (i == 0 ||
     !('a' <= text[i - 1] <= 'z' || 'A' <= text[i - 1] <= 'Z' || '0' <= text[i - 1] <= '9' ||
       text[i - 1] == '-' || text[i - 1] == '_' || text[i - 1] == '.')) &&
    (exists m {:trigger text[m]} :: i + 1 < m < j &&
      (forall x :: i < x < m ==> 'a' <= text[x] <= 'z' || 'A' <= text[x] <= 'Z') &&
      (forall x :: m <= x < j ==> 'a' <= text[x] <= 'z' || 'A' <= text[x] <= 'Z' || '0' <= text[x] <= '9')) &&
    (j < |text| ==> !('a' <= text[j] <= 'z' || 'A' <= text[j] <= 'Z' || '0' <= text[j] <= '9'))
  }

  /** text[i..j] is the leftmost match that starts at pos or later. */
  ghost predicate Leftmost(text: string, pos: nat, i: nat, j: nat)
  {
    pos <= i && Matches(text, i, j) && forall h: nat, k: nat :: pos <= h < i ==> !Matches(text, h, k)
  }

  /** names are the groups of the successive leftmost matches from position pos on. */
  ghost predicate Successive(text: string, pos: nat, names: seq<string>)
    requires pos <= |text|
    decreases |names|
  {
    if names == [] then forall i: nat, j: nat :: !Leftmost(text, pos, i, j)
    else
      exists i: nat, j: nat :: Leftmost(text, pos, i, j) && i < j <= |text| && names[0] == text[i + 1..j] &&
        Successive(text, j, names[1..])
  }

  lemma MatchesIff(text: string, i: nat, j: nat)
    ensures Matches(text, i, j) <==> MentionAt(text, i) && j == i + 1 + |NameAt(text, i)|
  {
    if i < |text| {
      var run := text[i + 1..];
      var n := AlnumRun(run);
      assert forall x :: i < x < |text| ==> text[x] == run[x - i - 1];
      if MentionAt(text, i) {
        assert run[0] == text[i + 1] && run[1] == text[i + 2];
        var m := i + 2;
        assert forall x :: i < x < m ==> Letter(text[x]);
        forall x | m <= x < i + 1 + n ensures Alnum(text[x]) { assert Alnum(run[x - i - 1]); }
      }
      if Matches(text, i, j) {
        forall x | 0 <= x < j - i - 1 ensures Alnum(run[x]) { assert Alnum(text[x + i + 1]); }
      }
    }
  }

  lemma MatchEnds(text: string, i: nat, j: nat)
    requires Matches(text, i, j)
    ensures i < j <= |text| && MentionAt(text, i) && NameAt(text, i) == text[i + 1..j]
    ensures MentionsFrom(text, i) == [text[i + 1..j]] + MentionsFrom(text, j)
  {
    MatchesIff(text, i, j);
    var run := text[i + 1..];
    forall x | i < x < j ensures text[x] != '@' { assert Alnum(run[x - i - 1]); }
    NoMentionWithin(text, i + 1, j);
  }

  lemma MatchHere(text: string, i: nat) returns (j: nat)
    requires MentionAt(text, i)
    ensures Matches(text, i, j) && Leftmost(text, i, i, j)
  {
    j := i + 1 + |NameAt(text, i)|;
    MatchesIff(text, i, j);
  }

  lemma LeftmostUnique(text: string, pos: nat, i: nat, j: nat, i': nat, j': nat)
    requires Leftmost(text, pos, i, j) && Leftmost(text, pos, i', j')
    ensures i == i' && j == j'
  {
    hide Matches;
    MatchesIff(text, i, j);
    MatchesIff(text, i', j');
  }

  /** Nothing matches between pos and the leftmost match behind it. */
  lemma {:induction false} SkipToLeftmost(text: string, pos: nat, i: nat, j: nat)
    requires Leftmost(text, pos, i, j)
    ensures i < j <= |text| && MentionsFrom(text, pos) == [text[i + 1..j]] + MentionsFrom(text, j)
    decreases i - pos
  {
    hide Matches, NameAt, MentionAt;
    MatchEnds(text, i, j);
    if pos < i {
      if MentionAt(text, pos) { var k := MatchHere(text, pos); }
      SkipToLeftmost(text, pos + 1, i, j);
    }
  }

  lemma {:induction false} NoLeftmost(text: string, pos: nat)
    requires forall i: nat, j: nat :: !Leftmost(text, pos, i, j)
    ensures MentionsFrom(text, pos) == []
    decreases |text| - pos
  {
    hide Matches, NameAt, MentionAt;
    if pos < |text| {
      if MentionAt(text, pos) {
        var _ := MatchHere(text, pos);
      } else {
        var next := pos + 1;
        forall i: nat, j: nat ensures Leftmost(text, next, i, j) ==> Leftmost(text, pos, i, j) {
          LeftmostFurther(text, pos, i, j);
        }
        NoLeftmost(text, next);
      }
    }
  }

  lemma LeftmostFurther(text: string, pos: nat, i: nat, j: nat)
    requires !MentionAt(text, pos)
    ensures Leftmost(text, pos + 1, i, j) ==> Leftmost(text, pos, i, j)
  {
    hide Matches, MentionAt;
    forall k: nat ensures !Matches(text, pos, k) { MatchesIff(text, pos, k); }
  }

  /** The mentions of a text are exactly the groups of the pattern's successive
      leftmost matches. */
  lemma {:induction false} MentionsAre(text: string, pos: nat, names: seq<string>)
    requires pos <= |text|
    ensures names == MentionsFrom(text, pos) <==> Successive(text, pos, names)
    decreases |text| - pos
  {
    hide Matches, MentionsFrom, Leftmost;
    if i: nat, j: nat :| Leftmost(text, pos, i, j) {
      SkipToLeftmost(text, pos, i, j);
      LeftmostAfter(text, pos, i, j);
      if names != [] {
        MentionsAre(text, j, names[1..]);
        if Successive(text, pos, names) {
          var i': nat, j': nat :| Leftmost(text, pos, i', j') && i' < j' <= |text| && names[0] == text[i' + 1..j'] &&
            Successive(text, j', names[1..]);
          LeftmostUnique(text, pos, i, j, i', j');
          assert names == [names[0]] + names[1..];
        }
      }
    } else {
      NoLeftmost(text, pos);
    }
  }

  lemma LeftmostAfter(text: string, pos: nat, i: nat, j: nat)
    requires Leftmost(text, pos, i, j)
    ensures pos <= i < j
  {
    MatchEnds(text, i, j);
  }

  /** FindMentions starts at the front. */
  lemma FoundAre(text: string, names: seq<string>)
    ensures names == FindMentions(text) <==> Successive(text, 0, names)
  {
    MentionsAre(text, 0, names);
  }
}
