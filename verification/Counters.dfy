/** The statistics counters add up on every run. */
module Counters {
  import opened Text
  import opened World
  import opened Mentions
  import opened Invariants
  import opened Posting

  // --------------------------------------------------------- sums over a map

  ghost function Sum(m: map<string, int>): int
  {
    if m == map[] then 0 else
      var k :| k in m;
      m[k] + Sum(m - {k})
  }

  lemma {:induction false} SumRemove(m: map<string, int>, k: string)
    requires k in m
    ensures Sum(m) == m[k] + Sum(m - {k})
    decreases |m|
  {
    var j :| j in m && Sum(m) == m[j] + Sum(m - {j});
    if j != k {
      SumRemove(m - {j}, k);
      SumRemove(m - {k}, j);
      assert m - {j} - {k} == m - {k} - {j};
    }
  }

  lemma SumUpdate(m: map<string, int>, k: string, n: int)
    ensures Sum(m[k := n]) == Sum(m) + n - (if k in m then m[k] else 0)
  {
    SumRemove(m[k := n], k);
    if k in m {
      SumRemove(m, k);
      assert m[k := n] - {k} == m - {k};
    } else {
      assert m[k := n] - {k} == m;
    }
  }

  /** Summing pointwise. */
  lemma {:induction false} SumPlus(a: map<string, int>, b: map<string, int>, c: map<string, int>)
    requires a.Keys == b.Keys == c.Keys && forall k :: k in a ==> c[k] == a[k] + b[k]
    ensures Sum(c) == Sum(a) + Sum(b)
    decreases |a|
  {
    if a == map[] {
      assert b == map[] && c == map[];
    } else {
      var k :| k in a;
      SumPlus(a - {k}, b - {k}, c - {k});
      SumRemove(a, k);
      SumRemove(b, k);
      SumRemove(c, k);
    }
  }

  lemma {:induction false} SumZero(m: map<string, int>)
    requires forall k :: k in m ==> m[k] == 0
    ensures Sum(m) == 0
    decreases |m|
  {
    if m != map[] {
      var k :| k in m && Sum(m) == m[k] + Sum(m - {k});
      SumZero(m - {k});
    }
  }

  function OccurrenceMap(keys: set<string>, names: seq<string>): map<string, int>
  {
    map t | t in keys :: Occurrences(names, t)
  }

  /** No more occurrences of existing names than names. */
  /** One more name adds at most one. */
  lemma OneMoreOccurrence(keys: set<string>, before: seq<string>, n: string)
    ensures Sum(OccurrenceMap(keys, before + [n])) <= Sum(OccurrenceMap(keys, before)) + 1
  {
    hide Sum;
    var m0, m := OccurrenceMap(keys, before), OccurrenceMap(keys, before + [n]);
    forall t | t in keys ensures m[t] == m0[t] + if t == n then 1 else 0 {
      OccurrencesSnoc(before, n, t);
    }
    if n in keys {
      SumUpdate(m0, n, m0[n] + 1);
      assert m == m0[n := m0[n] + 1];
    } else {
      assert m == m0;
    }
  }

  lemma {:induction false} SumOccurrences(keys: set<string>, names: seq<string>)
    ensures Sum(OccurrenceMap(keys, names)) <= |names|
  {
    if names == [] {
      SumZero(OccurrenceMap(keys, names));
    } else {
      hide OccurrenceMap, Sum;
      var before, n := names[..|names| - 1], names[|names| - 1];
      SumOccurrences(keys, before);
      assert before + [n] == names;
      OneMoreOccurrence(keys, before, n);
    }
  }

  // ------------------------------------------------------ what an event counts

  /** The author of the tweet this event makes the engine accept. */
  function Author(w: World, e: Event): Option<string>
  {
    if e.Receive? && e.frame.Send? && e.session in w.sessions && w.sessions[e.session].user.Some? &&
       w.sessions[e.session].user.value in w.users && w.sessions[e.session].user.value in w.topics &&
       w.sessions[e.session].user.value != SERVER &&
       StripTopics(e.frame.destination) == w.sessions[e.session].user.value
    then w.sessions[e.session].user else None
  }

  /** The event makes the server topic post. */
  predicate Broadcasts(w: World, e: Event)
  {
    e.Receive? && e.frame.Send? && e.session in w.sessions && w.sessions[e.session].user.Some? &&
    w.sessions[e.session].user.value in w.users && SERVER in w.topics &&
    StripTopics(e.frame.destination) == SERVER && ServerCommand(e.frame.body) != "stop"
  }

  function Net(s: TopicState): int { s.posted - s.mentioned }

  function Slack(s: TopicState): int { s.mentions - s.mentioned }

  predicate SameCounts(s: TopicState, r: TopicState)
  {
    s.posted == r.posted && s.mentions == r.mentions && s.mentioned == r.mentioned
  }

  lemma TweetStep(w: World, e: Event, p: string)
    requires Author(w, e) == Some(p)
    ensures p in w.topics && Step(w, e) == Tweet(w, p, e.frame.body, e.order)
  {
  }

  lemma BroadcastStep(w: World, e: Event)
    requires Broadcasts(w, e)
    ensures var t := Answer(e.frame.body, e.report);
            Step(w, e) == TopicSend(w, SERVER, t, OrderOf(e.order, SERVER), {})
  {
  }

  /** v has w's topics with the same counters, and new ones only with zeros. */
  ghost predicate CountsKept(w: World, v: World)
  {
    v.total == w.total && w.topics.Keys <= v.topics.Keys &&
    forall t :: t in v.topics ==>
      if t in w.topics then SameCounts(v.topics[t], w.topics[t])
      else v.topics[t].posted == v.topics[t].mentions == v.topics[t].mentioned == 0
  }

  lemma ConnectCounts(w: World, k: nat, u: string, passcode: string)
    requires Inv(w) && u != SERVER
    ensures CountsKept(w, EngineConnect(w, k, u, passcode).0)
  {
    if u in w.users {
      assert Flush(SetSession(w, u, Some(k)), u).topics == w.topics;
    } else {
      assert DirectoryOf(w).topics.Keys == w.topics.Keys && DirectoryOf(w).users.Keys == w.users.Keys;
      assert u in w.topics ==> TopicIndex(DirectoryOf(w), u);
    }
  }

  lemma RequestCounts(w: World, u: string, f: ClientFrame, report: string, order: map<string, seq<string>>)
    requires u in w.users && (f.Send? ==> StripTopics(f.destination) != SERVER && StripTopics(f.destination) != u)
    ensures CountsKept(w, Request(w, u, f, report, order).0)
  {
  }

  /** Any other event leaves all counters and the total alone, and whatever
      topic it creates starts from zero. */
  lemma QuietCounts(w: World, e: Event)
    requires Inv(w) && Allowed(w, e) && Author(w, e).None? && !Broadcasts(w, e)
    ensures CountsKept(w, Step(w, e))
  {
    hide EngineConnect, Request, Logout, UserIndex, TopicIndex, Exclusive, Queues, Enumerates;
    if e.Receive? && e.session in w.sessions {
      if e.frame.Connect? {
        ConnectCounts(w, e.session, e.frame.login, e.frame.passcode);
      } else {
        assert SERVER in DirectoryOf(w).topics;
        if w.sessions[e.session].user.Some? && w.sessions[e.session].user.value in w.users {
          TopicsExist(w, w.sessions[e.session].user.value);
        }
        QuietProcess(w, e);
      }
      assert Step(w, e).topics == Process(w, e.session, e.frame, e.report, e.order).0.topics;
    }
  }

  lemma QuietProcess(w: World, e: Event)
    requires !Stops(w, e) && Author(w, e).None? && !Broadcasts(w, e)
    requires e.Receive? && e.session in w.sessions && !e.frame.Connect? && SERVER in w.topics
    requires var u := w.sessions[e.session].user; u.Some? && u.value in w.users ==>
               u.value in w.topics && u.value != SERVER
    ensures CountsKept(w, Process(w, e.session, e.frame, e.report, e.order).0)
  {
    var u := w.sessions[e.session].user;
    if u.Some? && u.value in w.users {
      RequestCounts(w, u.value, e.frame, e.report, e.order);
    }
  }

  lemma TopicsExist(w: World, u: string)
    requires Inv(w) && u in w.users
    ensures u in w.topics && u != SERVER
  {
    assert DirectoryOf(w).users.Keys == w.users.Keys && DirectoryOf(w).topics.Keys == w.topics.Keys;
    assert UserIndex(DirectoryOf(w), u);
  }

  function NetOf(w: World): map<string, int> { map t | t in w.topics :: Net(w.topics[t]) }

  function SlackOf(w: World): map<string, int> { map t | t in w.topics :: Slack(w.topics[t]) }

  /** Adding topics with zero counters adds nothing. */
  lemma {:induction false} SumExtend(a: map<string, int>, b: map<string, int>)
    requires a.Keys <= b.Keys && forall t :: t in b ==> b[t] == if t in a then a[t] else 0
    ensures Sum(b) == Sum(a)
    decreases |b|
  {
    if b == map[] {
      assert a == b;
    } else {
      var t :| t in b;
      SumRemove(b, t);
      if t in a {
        SumRemove(a, t);
        SumExtend(a - {t}, b - {t});
      } else {
        SumExtend(a, b - {t});
      }
    }
  }

  lemma QuietSums(w: World, e: Event)
    requires Inv(w) && Allowed(w, e) && Author(w, e).None? && !Broadcasts(w, e)
    ensures Sum(NetOf(Step(w, e))) == Sum(NetOf(w)) && Sum(SlackOf(Step(w, e))) == Sum(SlackOf(w))
  {
    QuietCounts(w, e);
    var v := Step(w, e);
    SumExtend(NetOf(w), NetOf(v));
    SumExtend(SlackOf(w), SlackOf(v));
  }

  lemma TweetNet(w: World, v: World, p: string, names: seq<string>)
    requires p in w.topics && TweetCounted(w, v, p, names)
    ensures Sum(NetOf(v)) == Sum(NetOf(w)) + 1
  {
    var net := NetOf(w);
    SumUpdate(net, p, net[p] + 1);
    assert NetOf(v) == net[p := net[p] + 1];
  }

  lemma TweetSlack(w: World, v: World, p: string, names: seq<string>)
    requires p in w.topics && TweetCounted(w, v, p, names)
    ensures Sum(SlackOf(v)) >= Sum(SlackOf(w))
  {
    hide Sum, Occurrences;
    var slack, occ := SlackOf(w), OccurrenceMap(w.topics.Keys, names);
    SumUpdate(slack, p, slack[p] + |names|);
    SumOccurrences(w.topics.Keys, names);
    SumPlus(SlackOf(v), occ, slack[p := slack[p] + |names|]);
  }

  lemma BroadcastSums(w: World, text: string, order: seq<string>)
    requires SERVER in w.topics
    ensures var v := TopicSend(w, SERVER, text, order, {});
            v.total == w.total && Sum(NetOf(v)) == Sum(NetOf(w)) + 1 && Sum(SlackOf(v)) == Sum(SlackOf(w)) &&
            v.topics == w.topics[SERVER := w.topics[SERVER].(posted := w.topics[SERVER].posted + 1)]
  {
    TopicSendEffect(w, SERVER, text, order, {});
    DeliverAllRestated(w, DeliverList(w.topics[SERVER].subscribers, SERVER, text, order, {}), w.topics, w.total);
    var v := TopicSend(w, SERVER, text, order, {});
    var net := NetOf(w);
    SumUpdate(net, SERVER, net[SERVER] + 1);
    assert NetOf(v) == net[SERVER := net[SERVER] + 1];
    assert SlackOf(v) == SlackOf(w);
  }

  // ------------------------------------------------------------- on every run

  function TweetsBy(w: World, es: seq<Event>, p: string): nat
  {
    if es == [] then 0 else
      TweetsBy(w, es[..|es| - 1], p) + if Author(Run(w, es[..|es| - 1]), es[|es| - 1]) == Some(p) then 1 else 0
  }

  function BroadcastsIn(w: World, es: seq<Event>): nat
  {
    if es == [] then 0 else
      BroadcastsIn(w, es[..|es| - 1]) + if Broadcasts(Run(w, es[..|es| - 1]), es[|es| - 1]) then 1 else 0
  }

  /** The engine's total counts the accepted tweets. */
  lemma TotalStep(w: World, e: Event)
    requires Inv(w) && Allowed(w, e)
    ensures Step(w, e).total == w.total + if Author(w, e).Some? then 1 else 0
  {
    hide Step, Inv, Allowed, TopicSend, Sum, NetOf, SlackOf;
    if Author(w, e).Some? {
      TweetStep(w, e, Author(w, e).value);
      TweetCounts(w, Author(w, e).value, e.frame.body, e.order);
    } else if Broadcasts(w, e) {
      BroadcastStep(w, e);
      BroadcastSums(w, Answer(e.frame.body, e.report), OrderOf(e.order, SERVER));
    } else {
      QuietCounts(w, e);
    }
  }

  /** Over a run the samples the timer takes of the total can only grow. */
  lemma {:induction false} TotalGrows(w: World, es: seq<Event>, i: nat)
    requires Inv(w) && AllowedRun(w, es) && i <= |es|
    ensures Run(w, es[..i]).total <= Run(w, es).total
  {
    hide Step, Inv, Allowed;
    if i < |es| {
      var n := |es| - 1;
      TotalGrows(w, es[..n], i);
      assert es[..n][..i] == es[..i];
      RunKeeps(w, es[..n]);
      TotalStep(Run(w, es[..n]), es[n]);
    } else {
      assert es[..i] == es;
    }
  }

  /** Per topic: what one event adds to posted minus mentioned. */
  lemma NetStep(w: World, e: Event, p: string)
    requires Inv(w) && Allowed(w, e) && p != SERVER && p in Step(w, e).topics
    ensures Net(Step(w, e).topics[p]) ==
              (if p in w.topics then Net(w.topics[p]) else 0) + (if Author(w, e) == Some(p) then 1 else 0)
  {
    if Author(w, e).Some? {
      TweetStep(w, e, Author(w, e).value);
      TweetCounts(w, Author(w, e).value, e.frame.body, e.order);
    } else if Broadcasts(w, e) {
      BroadcastStep(w, e);
      BroadcastSums(w, Answer(e.frame.body, e.report), OrderOf(e.order, SERVER));
    } else {
      QuietCounts(w, e);
    }
  }

  lemma SumsStep(w: World, e: Event)
    requires Inv(w) && Allowed(w, e)
    ensures var v := Step(w, e);
            Sum(NetOf(v)) - v.total == Sum(NetOf(w)) - w.total + (if Broadcasts(w, e) then 1 else 0) &&
            Sum(SlackOf(v)) >= Sum(SlackOf(w)) &&
            w.topics.Keys <= v.topics.Keys
  {
    if Author(w, e).Some? {
      TweetStep(w, e, Author(w, e).value);
      TweetCounts(w, Author(w, e).value, e.frame.body, e.order);
      TweetNet(w, Step(w, e), Author(w, e).value, FindMentions(e.frame.body));
      TweetSlack(w, Step(w, e), Author(w, e).value, FindMentions(e.frame.body));
    } else if Broadcasts(w, e) {
      BroadcastStep(w, e);
      BroadcastSums(w, Answer(e.frame.body, e.report), OrderOf(e.order, SERVER));
    } else {
      QuietCounts(w, e);
      QuietSums(w, e);
    }
  }

  lemma {:induction false} NetRun(w0: World, es: seq<Event>, p: string)
    requires Inv(w0) && AllowedRun(w0, es) && p != SERVER
    requires p in w0.topics ==> Net(w0.topics[p]) == 0
    ensures if p in Run(w0, es).topics then Net(Run(w0, es).topics[p]) == TweetsBy(w0, es, p)
            else TweetsBy(w0, es, p) == 0
  {
    if es != [] {
      var before, e := es[..|es| - 1], es[|es| - 1];
      NetRun(w0, before, p);
      RunKeeps(w0, before);
      SumsStep(Run(w0, before), e);
      if p in Step(Run(w0, before), e).topics { NetStep(Run(w0, before), e, p); }
    }
  }

  lemma {:induction false} SumsRun(w0: World, es: seq<Event>)
    requires Inv(w0) && AllowedRun(w0, es)
    ensures var w := Run(w0, es);
            Sum(NetOf(w)) - w.total == Sum(NetOf(w0)) - w0.total + BroadcastsIn(w0, es) &&
            Sum(SlackOf(w)) >= Sum(SlackOf(w0))
  {
    if es != [] {
      SumsRun(w0, es[..|es| - 1]);
      RunKeeps(w0, es[..|es| - 1]);
      SumsStep(Run(w0, es[..|es| - 1]), es[|es| - 1]);
    }
  }

  lemma InitialSums(w: World)
    requires Initial(w)
    ensures Sum(NetOf(w)) == 0 == Sum(SlackOf(w)) && w.total == 0 && Inv(w) &&
            forall t :: t in w.topics ==> Net(w.topics[t]) == 0
  {
    SumZero(NetOf(w));
    SumZero(SlackOf(w));
    InitialInv(w);
  }

  function PostedBy(w: World): map<string, int> { map t | t in w.topics :: w.topics[t].posted }
  function MentionsBy(w: World): map<string, int> { map t | t in w.topics :: w.topics[t].mentions }
  function MentionedBy(w: World): map<string, int> { map t | t in w.topics :: w.topics[t].mentioned }

  /** A user topic's posts beyond its mentions by others are that user's accepted
      tweets; all posts are the engine's total, the mentions received and the
      server's broadcasts; and there are never more mentions received than made. */
  ghost predicate Accounted(w: World, p: string, tweets: nat, broadcasts: nat)
  {
    (p in w.topics && p != SERVER ==> w.topics[p].posted - w.topics[p].mentioned == tweets) &&
    Sum(PostedBy(w)) == w.total + Sum(MentionedBy(w)) + broadcasts &&
    Sum(MentionedBy(w)) <= Sum(MentionsBy(w))
  }

  lemma SplitSums(w: World, p: string, tweets: nat, broadcasts: nat)
    requires p in w.topics && p != SERVER ==> Net(w.topics[p]) == tweets
    requires Sum(NetOf(w)) == w.total + broadcasts && Sum(SlackOf(w)) >= 0
    ensures Accounted(w, p, tweets, broadcasts)
  {
    SumPlus(NetOf(w), MentionedBy(w), PostedBy(w));
    SumPlus(SlackOf(w), MentionedBy(w), MentionsBy(w));
  }

  lemma AccountingFrom(w0: World, es: seq<Event>, p: string)
    requires Inv(w0) && AllowedRun(w0, es) && w0.total == 0 && Sum(NetOf(w0)) == 0 == Sum(SlackOf(w0))
    requires p in w0.topics ==> Net(w0.topics[p]) == 0
    ensures Accounted(Run(w0, es), p, TweetsBy(w0, es, p), BroadcastsIn(w0, es))
  {
    if p != SERVER { NetRun(w0, es, p); }
    SumsRun(w0, es);
    SplitSums(Run(w0, es), p, TweetsBy(w0, es, p), BroadcastsIn(w0, es));
  }

  /** The counters add up on every run. */
  lemma CounterAccounting(w0: World, es: seq<Event>, p: string)
    requires Initial(w0) && AllowedRun(w0, es)
    ensures Accounted(Run(w0, es), p, TweetsBy(w0, es, p), BroadcastsIn(w0, es))
  {
    InitialSums(w0);
    AccountingFrom(w0, es, p);
  }

  // ------------------------------------------------------- messages per period

  /** The statistics timer: samples the total every five seconds. */
  class StatsTimer {
    var lastTotal: nat
    var maxMessagesPerPeriod: nat
    ghost var samples: seq<nat>

    /** The recorded maximum is the largest growth between neighbouring samples. */
    ghost predicate Valid()
      reads this
    {
      lastTotal == (if samples == [] then 0 else samples[|samples| - 1]) &&
      Ascending(samples) && maxMessagesPerPeriod == Largest(Growths(samples))
    }

    constructor ()
      ensures Valid() && samples == []
    {
      lastTotal, maxMessagesPerPeriod, samples := 0, 0, [];
    }

    /** One tick, the engine's total being totalMessagesPosted, which only grows. */
    method Run(totalMessagesPosted: nat)
      requires Valid() && lastTotal <= totalMessagesPosted
      modifies this
      ensures Valid() && samples == old(samples) + [totalMessagesPosted]
    {
      hide Growths, Largest, Ascending;
      var totalMessagePostedInPeriod := totalMessagesPosted - lastTotal;
      lastTotal := totalMessagesPosted;
      if totalMessagePostedInPeriod > maxMessagesPerPeriod {
        maxMessagesPerPeriod := totalMessagePostedInPeriod;
      }
      GrowthsSnoc(samples, totalMessagesPosted);
      AscendingSnoc(samples, totalMessagesPosted);
      LargestSnoc(Growths(samples), totalMessagePostedInPeriod);
      samples := samples + [totalMessagesPosted];
    }
  }

  ghost predicate Ascending(s: seq<nat>)
  {
    forall i, j :: 0 <= i <= j < |s| ==> s[i] <= s[j]
  }

  function Growths(s: seq<int>): seq<int>
  {
    if s == [] then [] else Growths(s[..|s| - 1]) + [s[|s| - 1] - if |s| == 1 then 0 else s[|s| - 2]]
  }

  lemma {:induction false} GrowthsSnoc(s: seq<int>, n: int)
    ensures Growths(s + [n]) == Growths(s) + [n - if s == [] then 0 else s[|s| - 1]]
  {
    var t := s + [n];
    assert t[..|t| - 1] == s && t[|t| - 1] == n;
  }

  lemma AscendingSnoc(s: seq<nat>, n: nat)
    requires Ascending(s) && (s != [] ==> s[|s| - 1] <= n)
    ensures Ascending(s + [n])
  {
  }

  lemma LargestSnoc(g: seq<int>, x: int)
    ensures Largest(g + [x]) == if x > Largest(g) then x else Largest(g)
  {
    assert (g + [x])[..|g|] == g;
  }

  function Largest(g: seq<int>): (m: nat)
    ensures forall x :: x in g ==> x <= m
    ensures m == 0 || m in g
  {
    if g == [] then 0 else
      var m := Largest(g[..|g| - 1]);
      assert g == g[..|g| - 1] + [g[|g| - 1]];
      if g[|g| - 1] > m then g[|g| - 1] else m
  }

  function Total(g: seq<int>): int
  {
    if g == [] then 0 else Total(g[..|g| - 1]) + g[|g| - 1]
  }

  /** After n ticks the growths sum to the last sample, so n times the recorded
      maximum is at least that. */
  lemma {:induction false} PeriodMaximum(s: seq<nat>)
    ensures Total(Growths(s)) == (if s == [] then 0 else s[|s| - 1]) && |Growths(s)| == |s|
    ensures |s| * Largest(Growths(s)) >= Total(Growths(s))
  {
    if s != [] {
      var r := s[..|s| - 1];
      PeriodMaximum(r);
      var g := Growths(s);
      assert g[..|g| - 1] == Growths(r);
      MulMonotone(|r|, Largest(Growths(r)), Largest(g));
      MulSuccessor(|r|, Largest(g));
    }
  }

  lemma MulSuccessor(n: nat, m: nat)
    ensures (n + 1) * m == n * m + m
  {
  }

  lemma MulMonotone(n: nat, a: nat, b: nat)
    requires a <= b
    ensures n * a <= n * b
  {
  }
}
