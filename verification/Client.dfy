/** The C++ client's copy of the subscription table, as a value and as the
    class that updates it in place. */
module Client {
  import opened Text
  import opened World

  /** subs maps a followed user to the subscription id; uid counts registrations. */
  datatype ClientState = ClientState(user: string, subs: map<string, string>, uid: nat)

  function Me(user: string): string { TOPICS_LOCATION + user }

  function IdOf(c: ClientState, name: string): string
  {
    if name in c.subs then c.subs[name] else ""
  }

  /** The id the next follow request will carry. */
  function Identifier(c: ClientState): string { Decimal(c.uid + 1) }

  function Register(c: ClientState, id: string, name: string): ClientState
  {
    if name in c.subs then c else c.(subs := c.subs[name := id], uid := c.uid + 1)
  }

  function Remove(c: ClientState, name: string): ClientState
  {
    if name == c.user then c else c.(subs := c.subs - {name})
  }

  ghost predicate Injective(subs: map<string, string>)
  {
    forall a, b :: a in subs && b in subs && subs[a] == subs[b] ==> a == b
  }

  /** The order in which the table keeps its names, character by character. */
  predicate AtMost(a: string, b: string)
  {
    a == "" || (b != "" && (a[0] < b[0] || (a[0] == b[0] && AtMost(a[1..], b[1..]))))
  }

  lemma {:induction false} AtMostTotal(a: string, b: string)
    ensures AtMost(a, b) || AtMost(b, a)
  {
    if a != "" && b != "" { AtMostTotal(a[1..], b[1..]); }
  }

  lemma {:induction false} AtMostTransitive(a: string, b: string, c: string)
    requires AtMost(a, b) && AtMost(b, c)
    ensures AtMost(a, c)
  {
    if a != "" && a[0] == b[0] == c[0] { AtMostTransitive(a[1..], b[1..], c[1..]); }
  }

  lemma {:induction false} AtMostBoth(a: string, b: string)
    requires AtMost(a, b) && AtMost(b, a)
    ensures a == b
  {
    if a != "" {
      AtMostBoth(a[1..], b[1..]);
      assert a == [a[0]] + a[1..] && b == [b[0]] + b[1..];
    }
  }

  ghost predicate Least(n: string, names: set<string>)
  {
    n in names && forall m :: m in names ==> AtMost(n, m)
  }

  lemma {:induction false} LeastExists(names: set<string>)
    requires names != {}
    ensures exists n :: Least(n, names)
    decreases |names|
  {
    var x :| x in names;
    AtMostTotal(x, x);
    if names == {x} {
      assert Least(x, names);
    } else {
      var rest := names - {x};
      assert names == rest + {x};
      LeastExists(rest);
      var n :| Least(n, rest);
      AtMostTotal(n, x);
      if AtMost(n, x) {
        assert Least(n, names);
      } else {
        forall m | m in names ensures AtMost(x, m) { if m != x { AtMostTransitive(x, n, m); } }
        assert Least(x, names);
      }
    }
  }

  /** The names registered under id. */
  function NamesUnder(c: ClientState, id: string): set<string>
  {
    set n | n in c.subs && c.subs[n] == id
  }

  /** The first name registered under id, or "" when there is none. */
  ghost function UserOf(c: ClientState, id: string): (name: string)
    ensures name != "" ==> name in c.subs && c.subs[name] == id
    ensures name == "" ==> NamesUnder(c, id) == {} || "" in NamesUnder(c, id)
  {
    if NamesUnder(c, id) == {} then "" else
      LeastExists(NamesUnder(c, id));
      var n :| Least(n, NamesUnder(c, id));
      n
  }

  lemma OnlyUserOf(c: ClientState, n: string)
    requires Injective(c.subs) && n in c.subs
    ensures UserOf(c, c.subs[n]) == n
  {
    assert n in NamesUnder(c, c.subs[n]);
  }

  predicate Separator(c: char) { c == ' ' || c == '\n' }

  /** Length of the longest prefix without (sep = false) or of (sep = true) separators. */
  function Span(s: string, sep: bool): (n: nat)
    ensures n <= |s|
  {
    if s != "" && Separator(s[0]) == sep then 1 + Span(s[1..], sep) else 0
  }

  /** The second token when s is split at runs of spaces and newlines. */
  function SecondWord(s: string): string
  {
    var a := s[Span(s, false)..];
    var b := a[Span(a, true)..];
    b[..Span(b, false)]
  }

  predicate Word(s: string) { forall c :: c in s ==> !Separator(c) }

  lemma {:induction false} SpanConcat(a: string, b: string, sep: bool)
    requires (forall c :: c in a ==> Separator(c) == sep) && (b != "" ==> Separator(b[0]) != sep)
    ensures Span(a + b, sep) == |a|
  {
    if a == "" {
      assert a + b == b;
    } else {
      SpanConcat(a[1..], b, sep);
      assert (a + b)[1..] == a[1..] + b;
    }
  }

  /** The second of two words, whatever follows after another separator. */
  lemma SecondOfTwo(a: string, b: string, rest: string)
    requires Word(a) && Word(b) && (rest != "" ==> Separator(rest[0])) && (b != "" || rest == "")
    ensures SecondWord(a + " " + b + rest) == b
  {
    var s := a + " " + b + rest;
    SpanConcat(a, " " + b + rest, false);
    assert s == a + (" " + b + rest);
    assert s[|a|..] == " " + b + rest == " " + (b + rest);
    SpanConcat(" ", b + rest, true);
    assert (" " + (b + rest))[1..] == b + rest;
    SpanConcat(b, rest, false);
  }

  /** The words of a text stand between runs of spaces and line feeds: the second one is
      what follows the first run, up to the next. */
  lemma SecondWordIs(a: string, gap: string, b: string, rest: string)
    requires forall c :: c in a || c in b ==> c != ' ' && c != '\n'
    requires forall c :: c in gap ==> c == ' ' || c == '\n'
    requires (gap == "" ==> b == "" && rest == "") && (b == "" ==> rest == "")
    requires rest != "" ==> rest[0] == ' ' || rest[0] == '\n'
    ensures SecondWord(a + gap + b + rest) == b
  {
    var s := a + gap + b + rest;
    assert s == a + (gap + (b + rest));
    if gap == "" { assert gap + (b + rest) == ""; } else { assert gap[0] in gap; }
    if b != "" { assert b[0] in b; }
    SpanConcat(a, gap + (b + rest), false);
    SpanConcat(gap, b + rest, true);
    assert s[|a|..] == gap + (b + rest) && (gap + (b + rest))[|gap|..] == b + rest;
    SpanConcat(b, rest, false);
  }

  /** The table's order: a stands before b when it is a beginning of b, or has the
      smaller character where they first differ. */
  lemma {:induction false} AtMostIs(a: string, b: string)
    ensures AtMost(a, b) <==>
              exists i: nat :: i <= |a| && i <= |b| && a[..i] == b[..i] && (i == |a| || (i < |b| && a[i] < b[i]))
  {
    if a == "" {
      assert a[..0] == b[..0];
    } else if b != "" {
      AtMostIs(a[1..], b[1..]);
      if i: nat :| i <= |a| - 1 && i <= |b| - 1 && a[0] == b[0] && a[1..][..i] == b[1..][..i] &&
                   (i == |a| - 1 || (i < |b| - 1 && a[1..][i] < b[1..][i])) {
        assert a[..i + 1] == [a[0]] + a[1..][..i] && b[..i + 1] == [b[0]] + b[1..][..i];
      }
      if i: nat :| i <= |a| && i <= |b| && a[..i] == b[..i] && (i == |a| || (i < |b| && a[i] < b[i])) {
        if i > 0 {
          assert a[..i][0] == b[..i][0];
          assert a[1..][..i - 1] == a[..i][1..] == b[..i][1..] == b[1..][..i - 1];
        } else {
          assert a[0] < b[0];
        }
      }
      if a[0] < b[0] { assert a[..0] == b[..0]; }
    }
  }

  /** The entry found under an identifier is the first in this order. */
  lemma UserOfIs(c: ClientState, id: string, n: string)
    requires n in c.subs && c.subs[n] == id
    ensures UserOf(c, id) == n <==> forall m :: m in c.subs && c.subs[m] == id ==> AtMost(n, m)
  {
    assert n in NamesUnder(c, id);
    var u := UserOf(c, id);
    if forall m :: m in c.subs && c.subs[m] == id ==> AtMost(n, m) { AtMostBoth(n, u); }
  }

  /** FrameVisitor: what handling one frame does to the table. */
  ghost function Visit(c: ClientState, f: ServerFrame): ClientState
  {
    match f
    case Connected => Register(c, SELF_ID, c.user)
    case MessageFrame(destination, subscription, body) =>
      if subscription != SELF_ID && destination == Me(c.user) then
        if UserOf(c, subscription) == "" then Register(c, subscription, SecondWord(body))
        else Remove(c, UserOf(c, subscription))
      else c
    case _ => c
  }

  /** What leaves the table alone, and what CONNECTED adds to it. */
  lemma FrameHandled(c: ClientState, f: ServerFrame)
    ensures f.Receipt? || f.Error? ==> Visit(c, f) == c
    ensures f.MessageFrame? && (f.subscription == "0" || f.destination != "/topic/" + c.user) ==> Visit(c, f) == c
    ensures f.Connected? ==>
              Visit(c, f) ==
                if c.user in c.subs then c else c.(subs := c.subs[c.user := "0"], uid := c.uid + 1)
  {
    hide UserOf, SecondWord;
  }

  /** A confirmation under an id nobody is recorded under adds the second word of its
      text under that id, if that name is not in the table. */
  lemma FollowHandled(c: ClientState, id: string, a: string, gap: string, name: string, rest: string)
    requires id != "0" && forall n :: n in c.subs ==> c.subs[n] != id
    requires forall x :: x in a || x in name ==> x != ' ' && x != '\n'
    requires forall x :: x in gap ==> x == ' ' || x == '\n'
    requires (gap == "" ==> name == "" && rest == "") && (name == "" ==> rest == "")
    requires rest != "" ==> rest[0] == ' ' || rest[0] == '\n'
    ensures Visit(c, MessageFrame("/topic/" + c.user, id, a + gap + name + rest)) ==
              if name in c.subs then c else c.(subs := c.subs[name := id], uid := c.uid + 1)
  {
    hide SecondWord;
    SecondWordIs(a, gap, name, rest);
  }

  /** A confirmation under a recorded id takes out the first name recorded under it,
      unless that is the own one. */
  lemma UnfollowHandled(c: ClientState, id: string, n: string, body: string)
    requires id != "0" && n != "" && n in c.subs && c.subs[n] == id
    requires forall m :: m in c.subs && c.subs[m] == id ==> AtMost(n, m)
    ensures Visit(c, MessageFrame("/topic/" + c.user, id, body)) ==
              if n == c.user then c else c.(subs := c.subs - {n})
  {
    hide SecondWord;
    UserOfIs(c, id, n);
  }

  lemma VisitKeepsUser(c: ClientState, f: ServerFrame)
    ensures Visit(c, f).user == c.user
  {
    hide UserOf, SecondWord, Me;
  }

  ghost function VisitAll(c: ClientState, fs: seq<ServerFrame>): ClientState
  {
    if fs == [] then c else Visit(VisitAll(c, fs[..|fs| - 1]), fs[|fs| - 1])
  }

  lemma {:induction false} VisitAllConcat(c: ClientState, a: seq<ServerFrame>, b: seq<ServerFrame>)
    ensures VisitAll(c, a + b) == VisitAll(VisitAll(c, a), b)
  {
    if b == [] {
      assert a + b == a;
    } else {
      VisitAllConcat(c, a, b[..|b| - 1]);
      assert (a + b)[..|a + b| - 1] == a + b[..|b| - 1];
    }
  }

  /** The user never changes, registrations are only ever counted up, and while
      none is counted no name is added. */
  lemma {:induction false} VisitAllGrows(c: ClientState, fs: seq<ServerFrame>)
    ensures var x := VisitAll(c, fs);
            x.user == c.user && x.uid >= c.uid && (x.uid == c.uid ==> x.subs.Keys <= c.subs.Keys)
  {
    if fs != [] {
      VisitAllGrows(c, fs[..|fs| - 1]);
    }
  }

  // ------------------------------------------------------------------ the class

  /** TwitterClient, as far as the subscription table goes. */
  class TwitterClient {
    const user: string
    var subscriptions: map<string, string>
    var unique_identifier: nat

    ghost function State(): ClientState
      reads this
    {
      ClientState(user, subscriptions, unique_identifier)
    }

    constructor (login: string)
      ensures State().user == login && State().subs.Keys == {} && State().uid == 0
    {
      user := login;
      subscriptions := map[];
      unique_identifier := 0;
    }

    method RegisterSubscription(subscription_id: string, follow: string) returns (registered: bool)
      modifies this
      ensures State() == Register(old(State()), subscription_id, follow)
      ensures registered == (follow !in old(subscriptions))
    {
      if follow in subscriptions {
        return false;
      }
      subscriptions := subscriptions[follow := subscription_id];
      unique_identifier := unique_identifier + 1;
      return true;
    }

    method GetSubscriptionIdentifier(follow: string) returns (id: string)
      ensures id == IdOf(State(), follow)
    {
      if follow !in subscriptions {
        return "";
      }
      return subscriptions[follow];
    }

    method RemoveSubscription(unfollow: string) returns (removed: bool)
      modifies this
      ensures State() == Remove(old(State()), unfollow)
      ensures removed == (unfollow != user && unfollow in old(subscriptions))
    {
      if unfollow == user {
        return false;
      }
      if unfollow in subscriptions {
        subscriptions := subscriptions - {unfollow};
        return true;
      }
      assert subscriptions - {unfollow} == subscriptions;
      return false;
    }

    /** Walks the table in its order until an entry has the identifier. */
    method GetUserBySubscription(identifier: string) returns (name: string)
      ensures name == UserOf(State(), identifier)
    {
      name := "";
      var rest := subscriptions.Keys;
      ghost var under := NamesUnder(State(), identifier);
      while rest != {}
        invariant under <= rest <= subscriptions.Keys
        decreases |rest|
      {
        LeastExists(rest);
        var n :| n in rest && forall m :: m in rest ==> AtMost(n, m);
        if subscriptions[n] == identifier {
          assert Least(n, under);
          AtMostBoth(n, UserOf(State(), identifier));
          return n;
        }
        rest := rest - {n};
      }
    }

    /** visit(ConnectedFrame): follow oneself under "0". */
    method VisitConnected()
      modifies this
      ensures State() == Visit(old(State()), Connected)
    {
      var _ := RegisterSubscription(SELF_ID, user);
    }

    /** visit(MessageFrame): a confirmation changes the table, a tweet does not. */
    method VisitMessage(destination: string, subscription: string, body: string)
      modifies this
      ensures State() == Visit(old(State()), MessageFrame(destination, subscription, body))
    {
      if subscription != SELF_ID && destination == Me(user) {
        var user_of_subscription := GetUserBySubscription(subscription);
        if user_of_subscription == "" {
          var _ := RegisterSubscription(subscription, SecondWord(body));
        } else {
          var _ := RemoveSubscription(user_of_subscription);
        }
      }
    }

    /** FollowCommand: refused when the name is in the table, otherwise a request
        with an id that is not recorded yet. */
    method Follow(arg: string) returns (request: Option<ClientFrame>)
      ensures request == FollowRequest(State(), arg)
    {
      var existing := GetSubscriptionIdentifier(arg);
      if existing != "" {
        return None;
      }
      return Some(Subscribe(Me(arg), Decimal(unique_identifier + 1)));
    }

    /** UnfollowCommand: the request carries the recorded id. */
    method Unfollow(arg: string) returns (request: Option<ClientFrame>)
      ensures request == UnfollowRequest(State(), arg)
      ensures request.Some? ==> arg in subscriptions && request.value == Unsubscribe(subscriptions[arg])
    {
      var identifier := GetSubscriptionIdentifier(arg);
      if identifier == "" {
        return None;
      }
      return Some(Unsubscribe(identifier));
    }
  }

  function FollowRequest(c: ClientState, arg: string): Option<ClientFrame>
  {
    if IdOf(c, arg) != "" then None else Some(Subscribe(Me(arg), Identifier(c)))
  }

  function UnfollowRequest(c: ClientState, arg: string): Option<ClientFrame>
  {
    if IdOf(c, arg) == "" then None else Some(Unsubscribe(IdOf(c, arg)))
  }
}
