/** Strings as the Java and C++ code sees them: trimming, splitting at a
    delimiter and joining again, and decimal numerals. */
module Text {

  datatype Option<+T> = None | Some(value: T)

  const NUL := '\0'

  /** `String.trim` in Java: everything up to and including the space. */
  predicate Blank(c: char) { c <= ' ' }

  /** `std::isspace` in the "C" locale, which `boost::trim` uses. */
  predicate Space(c: char) { c == ' ' || ('\t' <= c <= '\r') }

  function TrimLeft(blank: char -> bool, s: string): (r: string)
  {
    if s != "" && blank(s[0]) then TrimLeft(blank, s[1..]) else s
  }

  function TrimRight(blank: char -> bool, s: string): (r: string)
  {
    if s != "" && blank(s[|s| - 1]) then TrimRight(blank, s[..|s| - 1]) else s
  }

  function TrimBy(blank: char -> bool, s: string): (r: string)
  {
    TrimRight(blank, TrimLeft(blank, s))
  }

  function Trim(s: string): (r: string) { TrimBy(Blank, s) }

  /** Neither end of s is blank. */
  predicate Trimmed(blank: char -> bool, s: string)
  {
    s == "" || (!blank(s[0]) && !blank(s[|s| - 1]))
  }

  lemma {:induction false} TrimLeftFacts(blank: char -> bool, s: string)
    ensures var r := TrimLeft(blank, s);
            |r| <= |s| && r == s[|s| - |r|..] && (r == "" || !blank(r[0])) &&
            (forall c :: c in s[..|s| - |r|] ==> blank(c)) &&
            (r == "" <==> forall c :: c in s ==> blank(c))
  {
    if s != "" && blank(s[0]) {
      TrimLeftFacts(blank, s[1..]);
      var r := TrimLeft(blank, s);
      assert s == [s[0]] + s[1..];
      assert s[..|s| - |r|] == [s[0]] + s[1..][..|s| - 1 - |r|];
    } else if s != "" {
      assert s[0] in s;
    }
  }

  lemma {:induction false} TrimRightFacts(blank: char -> bool, s: string)
    ensures var r := TrimRight(blank, s);
            |r| <= |s| && r == s[..|r|] && (r == "" || !blank(r[|r| - 1])) &&
            (r == "" <==> forall c :: c in s ==> blank(c))
  {
    if s != "" && blank(s[|s| - 1]) {
      TrimRightFacts(blank, s[..|s| - 1]);
      assert s == s[..|s| - 1] + [s[|s| - 1]];
    } else if s != "" {
      assert s[|s| - 1] in s;
    }
  }

  /** Trimming yields a trimmed piece of s, empty exactly when s is all blank. */
  lemma TrimFacts(blank: char -> bool, s: string)
    ensures var r := TrimBy(blank, s);
            Trimmed(blank, r) && (forall c :: c in r ==> c in s) && |r| <= |s| &&
            (r == "" <==> forall c :: c in s ==> blank(c))
  {
    TrimLeftFacts(blank, s);
    var l := TrimLeft(blank, s);
    TrimRightFacts(blank, l);
    assert forall c :: c in l ==> c in s;
    if l != "" {
      assert l[0] in l;
    }
  }

  ghost predicate All(p: char -> bool, s: string) { forall c :: c in s ==> p(c) }

  lemma {:induction false} TrimLeftPast(blank: char -> bool, a: string, s: string)
    requires All(blank, a)
    ensures TrimLeft(blank, a + s) == TrimLeft(blank, s)
  {
    if a == "" {
      assert a + s == s;
    } else {
      assert a[0] in a && (a + s)[1..] == a[1..] + s;
      TrimLeftPast(blank, a[1..], s);
    }
  }

  lemma {:induction false} TrimRightPast(blank: char -> bool, s: string, b: string)
    requires All(blank, b)
    ensures TrimRight(blank, s + b) == TrimRight(blank, s)
  {
    if b == "" {
      assert s + b == s;
    } else {
      assert b[|b| - 1] in b && (s + b)[..|s + b| - 1] == s + b[..|b| - 1];
      TrimRightPast(blank, s, b[..|b| - 1]);
    }
  }

  /** Blanks around a trimmed middle go, and only they. */
  lemma TrimAround(blank: char -> bool, a: string, m: string, b: string)
    requires All(blank, a) && All(blank, b) && Trimmed(blank, m)
    ensures TrimBy(blank, a + m + b) == m
  {
    assert a + m + b == a + (m + b);
    TrimLeftPast(blank, a, m + b);
    if m == "" {
      assert m + b == b;
      TrimLeftFacts(blank, b);
    } else {
      assert (m + b)[0] == m[0];
      TrimRightPast(blank, m, b);
    }
  }

  lemma {:induction false} TrimRightRest(blank: char -> bool, s: string)
    ensures var r := TrimRight(blank, s); |r| <= |s| && All(blank, s[|r|..]) && s == r + s[|r|..]
  {
    if s != "" && blank(s[|s| - 1]) {
      var t := s[..|s| - 1];
      TrimRightRest(blank, t);
      var r := TrimRight(blank, t);
      assert s[|r|..] == t[|r|..] + [s[|s| - 1]];
    }
  }

  /** Every string is such a middle with blanks around it. */
  lemma TrimParts(blank: char -> bool, s: string) returns (a: string, b: string)
    ensures s == a + TrimBy(blank, s) + b && All(blank, a) && All(blank, b) && Trimmed(blank, TrimBy(blank, s))
  {
    TrimFacts(blank, s);
    TrimLeftFacts(blank, s);
    var l := TrimLeft(blank, s);
    a := s[..|s| - |l|];
    TrimRightRest(blank, l);
    b := l[|TrimRight(blank, l)|..];
  }

  lemma TrimFixed(blank: char -> bool, s: string)
    requires Trimmed(blank, s)
    ensures TrimBy(blank, s) == s
  {
  }

  /** The pieces of s between the delimiters, always at least one. */
  function Split(s: string, d: char): (parts: seq<string>)
    ensures |parts| >= 1
  {
    if s == "" then [""]
    else
      var rest := Split(s[1..], d);
      if s[0] == d then [""] + rest else [[s[0]] + rest[0]] + rest[1..]
  }

  /** The pieces with a delimiter between neighbours. */
  function Join(parts: seq<string>, d: char): (s: string)
  {
    if parts == [] then "" else if |parts| == 1 then parts[0]
    else parts[0] + [d] + Join(parts[1..], d)
  }

  lemma {:induction false} SplitConcat(a: string, b: string, d: char)
    requires d !in a
    ensures Split(a + [d] + b, d) == [a] + Split(b, d)
  {
    if a == "" {
      assert a + [d] + b == [d] + b && ([d] + b)[1..] == b;
    } else {
      SplitConcat(a[1..], b, d);
      assert (a + [d] + b)[1..] == a[1..] + [d] + b;
      assert [a[0]] + a[1..] == a;
    }
  }

  lemma {:induction false} SplitSingle(a: string, d: char)
    requires d !in a
    ensures Split(a, d) == [a]
  {
    if a != "" {
      SplitSingle(a[1..], d);
      assert [a[0]] + a[1..] == a;
    }
  }

  /** Splitting and joining are inverse; no piece holds the delimiter. */
  lemma {:induction false} JoinSplit(s: string, d: char)
    ensures Join(Split(s, d), d) == s
    ensures forall p :: p in Split(s, d) ==> d !in p
    ensures forall p, c :: p in Split(s, d) && c in p ==> c in s
  {
    if s != "" {
      JoinSplit(s[1..], d);
      var rest := Split(s[1..], d);
      if s[0] == d {
        assert ([""] + rest)[1..] == rest;
        assert Join([""] + rest, d) == "" + [d] + Join(rest, d);
      } else {
        var parts := [[s[0]] + rest[0]] + rest[1..];
        if |rest| > 1 {
          assert parts[1..] == rest[1..];
        }
      }
    }
  }

  lemma {:induction false} SplitJoin(parts: seq<string>, d: char)
    requires parts != [] && forall p :: p in parts ==> d !in p
    ensures Split(Join(parts, d), d) == parts
  {
    if |parts| == 1 {
      SplitSingle(parts[0], d);
    } else {
      SplitJoin(parts[1..], d);
      SplitConcat(parts[0], Join(parts[1..], d), d);
    }
  }

  /** Text made of newline-terminated lines. */
  function Lines(ls: seq<string>): (s: string)
  {
    if ls == [] then "" else ls[0] + "\n" + Lines(ls[1..])
  }

  lemma {:induction false} LinesConcat(a: seq<string>, b: seq<string>)
    ensures Lines(a + b) == Lines(a) + Lines(b)
  {
    if a == [] {
      assert a + b == b;
    } else {
      LinesConcat(a[1..], b);
      assert (a + b)[1..] == a[1..] + b;
    }
  }

  lemma {:induction false} SplitLines(ls: seq<string>, s: string)
    requires forall l :: l in ls ==> '\n' !in l
    ensures Split(Lines(ls) + s, '\n') == ls + Split(s, '\n')
  {
    hide Split;
    if ls == [] {
      assert Lines(ls) + s == s && [] + Split(s, '\n') == Split(s, '\n');
    } else {
      assert ls[0] in ls && forall l :: l in ls[1..] ==> l in ls;
      SplitLines(ls[1..], s);
      assert Lines(ls) + s == ls[0] + ['\n'] + (Lines(ls[1..]) + s);
      SplitConcat(ls[0], Lines(ls[1..]) + s, '\n');
      assert ls == [ls[0]] + ls[1..];
    }
  }

  function Digit(n: nat): char
    requires n < 10
  {
    "0123456789"[n]
  }

  /** Decimal numeral of n, as `operator<<` prints it. */
  function Decimal(n: nat): (s: string)
    ensures s != "" && (s == "0" <==> n == 0)
    ensures forall c :: c in s ==> '0' <= c <= '9'
  {
    if n < 10 then [Digit(n)] else Decimal(n / 10) + [Digit(n % 10)]
  }

  /** The number a string of digits stands for. */
  function Value(s: string): nat
  {
    if s == "" then 0 else
      var c := s[|s| - 1];
      10 * Value(s[..|s| - 1]) + if '0' <= c <= '9' then c as int - '0' as int else 0
  }

  /** The numeral of n stands for n, and has no zero in front. */
  lemma {:induction false} DecimalIs(n: nat)
    ensures Value(Decimal(n)) == n && (n > 0 ==> Decimal(n)[0] != '0')
  {
    var d := Digit(n % 10);
    assert d as int == '0' as int + n % 10;
    if n < 10 {
      assert Decimal(n)[..0] == "";
    } else {
      DecimalIs(n / 10);
      assert Decimal(n)[..|Decimal(n)| - 1] == Decimal(n / 10);
    }
  }

  lemma {:induction false} DecimalInjective(m: nat, n: nat)
    requires Decimal(m) == Decimal(n)
    ensures m == n
  {
    var s, t := Decimal(m), Decimal(n);
    assert s[|s| - 1] == Digit(m % 10) && t[|t| - 1] == Digit(n % 10);
    if m >= 10 && n >= 10 {
      assert s[..|s| - 1] == Decimal(m / 10) && t[..|t| - 1] == Decimal(n / 10);
      DecimalInjective(m / 10, n / 10);
    }
  }
}
