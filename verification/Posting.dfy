/** Which messages one event posts, to whom, in which order, and what it counts. */
module Posting {
  import opened Text
  import opened World
  import opened Mentions
  import opened Invariants

  // ---------------------------------------------------- the calls of User.send

  function MentionCalls(w: World, text: string, names: seq<string>, order: map<string, seq<string>>,
          except: set<string>): seq<Delivery>
  {
    if names == [] then [] else
      var t := names[|names| - 1];
      MentionCalls(w, text, names[..|names| - 1], order, except) +
        (if t in w.topics then DeliverList(w.topics[t].subscribers, t, text, OrderOf(order, t), except) else [])
  }

  function TweetCalls(w: World, p: string, text: string, order: map<string, seq<string>>): seq<Delivery>
    requires p in w.topics
  {
    DeliverList(w.topics[p].subscribers, p, text, OrderOf(order, p), {}) +
      MentionCalls(w, text, FindMentions(text), order, w.topics[p].subscribers.Keys)
  }

  lemma {:induction false} DeliverAllConcat(w: World, a: seq<Delivery>, b: seq<Delivery>)
    ensures DeliverAll(w, a + b) == DeliverAll(DeliverAll(w, a), b)
  {
    if b == [] {
      assert a + b == a;
    } else {
      DeliverAllConcat(w, a, b[..|b| - 1]);
      assert (a + b)[..|a + b| - 1] == a + b[..|b| - 1];
    }
  }

  /** Delivering neither reads nor changes topics and totals. */
  lemma {:induction false} DeliverAllRestated(w: World, ds: seq<Delivery>, topics: map<string, TopicState>, total: nat)
    ensures DeliverAll(w.(topics := topics, total := total), ds) == DeliverAll(w, ds).(topics := topics, total := total)
  {
    if ds != [] {
      DeliverAllRestated(w, ds[..|ds| - 1], topics, total);
    }
  }

  function Occurrences(names: seq<string>, t: string): nat { multiset(names)[t] }

  lemma OccurrencesSnoc(names: seq<string>, n: string, t: string)
    ensures Occurrences(names + [n], t) == Occurrences(names, t) + (if n == t then 1 else 0)
  {
  }

  /** Counters after p's mention loop over names. */
  function Counted(s: TopicState, t: string, p: string, names: seq<string>): TopicState
  {
    s.(posted := s.posted + Occurrences(names, t), mentioned := s.mentioned + Occurrences(names, t),
       mentions := s.mentions + if t == p then |names| else 0)
  }

  lemma TopicSendEffect(w: World, t: string, text: string, order: seq<string>, except: set<string>)
    requires t in w.topics
    ensures var ds := DeliverList(w.topics[t].subscribers, t, text, order, except);
            TopicSend(w, t, text, order, except) ==
              DeliverAll(w, ds).(topics := w.topics[t := w.topics[t].(posted := w.topics[t].posted + 1)])
  {
    var ds := DeliverList(w.topics[t].subscribers, t, text, order, except);
    DeliverAllRestated(w, ds, w.topics, w.total);
  }

  /** One turn of p's mention loop delivers to t's list, if there is a t. */
  lemma SendMentionDelivers(w: World, p: string, t: string, text: string, order: seq<string>, except: set<string>)
    ensures var v := SendMention(w, p, t, text, order, except);
            var ds := if t in w.topics then DeliverList(w.topics[t].subscribers, t, text, order, except) else [];
            v == DeliverAll(w, ds).(topics := v.topics, total := w.total)
  {
    if t in w.topics {
      var v0 := CountMention(w, p);
      var ds := DeliverList(w.topics[t].subscribers, t, text, order, except);
      TopicSendEffect(v0, t, text, order, except);
      DeliverAllRestated(w, ds, v0.topics, w.total);
    }
  }

  /** The counters after one turn. */
  lemma SendMentionCounts(w: World, p: string, t: string, text: string, order: seq<string>, except: set<string>)
    requires p in w.topics
    ensures var v := SendMention(w, p, t, text, order, except);
            v.topics.Keys == w.topics.Keys && v.total == w.total &&
            forall x :: x in w.topics ==> v.topics[x] == Counted(w.topics[x], x, p, [t])
  {
    var v0 := CountMention(w, p);
    if t in w.topics {
      var ds := DeliverList(w.topics[t].subscribers, t, text, order, except);
      TopicSendEffect(v0, t, text, order, except);
      DeliverAllRestated(v0, ds, v0.topics, v0.total);
    }
  }

  ghost predicate CountedAll(w: World, v: World, p: string, names: seq<string>)
  {
    v.topics.Keys == w.topics.Keys && v.total == w.total &&
    forall x :: x in w.topics ==> v.topics[x] == Counted(w.topics[x], x, p, names)
  }

  lemma CountedTwice(s: TopicState, x: string, p: string, names: seq<string>, t: string)
    ensures Counted(Counted(s, x, p, names), x, p, [t]) == Counted(s, x, p, names + [t])
  {
    OccurrencesSnoc(names, t, x);
    assert [] + [t] == [t];
    OccurrencesSnoc([], t, x);
  }

  lemma {:induction false} SendMentionsCounts(w: World, p: string, text: string, names: seq<string>,
        order: map<string, seq<string>>, except: set<string>)
    requires p in w.topics
    ensures CountedAll(w, SendMentions(w, p, text, names, order, except), p, names)
  {
    if names != [] {
      var t, before := names[|names| - 1], names[..|names| - 1];
      SendMentionsCounts(w, p, text, before, order, except);
      var v0 := SendMentions(w, p, text, before, order, except);
      SendMentionCounts(v0, p, t, text, OrderOf(order, t), except);
      assert before + [t] == names;
      forall x | x in w.topics
        ensures SendMentions(w, p, text, names, order, except).topics[x] == Counted(w.topics[x], x, p, names)
      {
        CountedTwice(w.topics[x], x, p, before, t);
      }
    }
  }

  lemma {:induction false} SendMentionsDelivers(w: World, p: string, text: string, names: seq<string>,
        order: map<string, seq<string>>, except: set<string>)
    requires p in w.topics
    ensures var v := SendMentions(w, p, text, names, order, except);
            v == DeliverAll(w, MentionCalls(w, text, names, order, except)).(topics := v.topics, total := w.total)
  {
    if names == [] {
      return;
    }
    var t, before := names[|names| - 1], names[..|names| - 1];
    SendMentionsDelivers(w, p, text, before, order, except);
    SendMentionsCounts(w, p, text, before, order, except);
    var v0 := SendMentions(w, p, text, before, order, except);
    SendMentionDelivers(v0, p, t, text, OrderOf(order, t), except);
    var a := MentionCalls(w, text, before, order, except);
    var b := if t in w.topics then DeliverList(w.topics[t].subscribers, t, text, OrderOf(order, t), except) else [];
    DeliverAllRestated(DeliverAll(w, a), b, v0.topics, w.total);
    DeliverAllConcat(w, a, b);
    assert MentionCalls(w, text, names, order, except) == a + b;
  }

  /** An accepted tweet is exactly its calls of User.send. */
  lemma TweetDelivers(w: World, p: string, text: string, order: map<string, seq<string>>)
    requires p in w.topics
    ensures var v := Tweet(w, p, text, order);
            v == DeliverAll(w, TweetCalls(w, p, text, order)).(topics := v.topics, total := v.total)
  {
    var names, except := FindMentions(text), w.topics[p].subscribers.Keys;
    var a := DeliverList(w.topics[p].subscribers, p, text, OrderOf(order, p), {});
    var v0 := TopicSend(w, p, text, OrderOf(order, p), {});
    TopicSendEffect(w, p, text, OrderOf(order, p), {});
    DeliverAllRestated(w, a, w.topics, w.total);
    SendMentionsDelivers(v0, p, text, names, order, except);
    MentionCallsSame(w, v0, text, names, order, except);
    var b := MentionCalls(w, text, names, order, except);
    DeliverAllRestated(DeliverAll(w, a), b, v0.topics, v0.total);
    DeliverAllConcat(w, a, b);
  }

  /** What an accepted tweet by p counts: one post on p's own topic, one post
      and one "mentioned" for every mention of an existing topic, one "mention"
      on p's for every mention at all, and one on the engine's total. */
  ghost predicate TweetCounted(w: World, v: World, p: string, names: seq<string>)
  {
    v.topics.Keys == w.topics.Keys && v.total == w.total + 1 &&
    forall x :: x in w.topics ==>
      var s := Counted(w.topics[x], x, p, names);
      v.topics[x] == if x == p then s.(posted := s.posted + 1) else s
  }

  lemma TweetCounts(w: World, p: string, text: string, order: map<string, seq<string>>)
    requires p in w.topics
    ensures TweetCounted(w, Tweet(w, p, text, order), p, FindMentions(text))
  {
    var v0 := TopicSend(w, p, text, OrderOf(order, p), {});
    TopicSendEffect(w, p, text, OrderOf(order, p), {});
    DeliverAllRestated(w, DeliverList(w.topics[p].subscribers, p, text, OrderOf(order, p), {}), w.topics, w.total);
    SendMentionsCounts(v0, p, text, FindMentions(text), order, w.topics[p].subscribers.Keys);
  }

  /** Which calls the mention loop makes depends on the subscriber lists only. */
  lemma {:induction false} MentionCallsSame(w: World, v: World, text: string, names: seq<string>,
        order: map<string, seq<string>>, except: set<string>)
    requires v.topics.Keys == w.topics.Keys &&
             forall t :: t in w.topics ==> v.topics[t].subscribers == w.topics[t].subscribers
    ensures MentionCalls(v, text, names, order, except) == MentionCalls(w, text, names, order, except)
  {
    if names != [] {
      MentionCallsSame(w, v, text, names[..|names| - 1], order, except);
    }
  }

  // ------------------------------------------------------------ exact fan-out

  /** The messages among ds addressed to any of us, in order. */
  ghost function Project(ds: seq<Delivery>, us: iset<string>): seq<Message>
  {
    if ds == [] then [] else
      var d := ds[|ds| - 1];
      Project(ds[..|ds| - 1], us) + if d.0 in us then [d.1] else []
  }

  lemma {:induction false} ProjectConcat(a: seq<Delivery>, b: seq<Delivery>, us: iset<string>)
    ensures Project(a + b, us) == Project(a, us) + Project(b, us)
  {
    if b == [] {
      assert a + b == a;
    } else {
      ProjectConcat(a, b[..|b| - 1], us);
      assert (a + b)[..|a + b| - 1] == a + b[..|b| - 1];
    }
  }

  lemma {:induction false} ProjectNone(ds: seq<Delivery>, us: iset<string>)
    requires forall d :: d in ds ==> d.0 !in us
    ensures Project(ds, us) == []
  {
    if ds != [] {
      ProjectNone(ds[..|ds| - 1], us);
    }
  }

  /** One topic's delivery loop reaches each listed, unexcepted user once. */
  lemma {:induction false} ProjectDeliverList(subs: map<string, string>, t: string, text: string, order: seq<string>,
          except: set<string>, u: string)
    requires forall i, j :: 0 <= i < j < |order| ==> order[i] != order[j]
    ensures Project(DeliverList(subs, t, text, order, except), iset{u}) ==
              if u in order && u in subs && u !in except then [Message(t, subs[u], text)] else []
  {
    if order != [] {
      var before, last := order[..|order| - 1], order[|order| - 1];
      ProjectDeliverList(subs, t, text, before, except, u);
      assert order == before + [last];
    }
  }

  /** A copy for u from each mention of an existing topic u is subscribed to. */
  function MentionCopies(w: World, text: string, names: seq<string>, u: string): seq<Message>
  {
    if names == [] then [] else
      var t := names[|names| - 1];
      MentionCopies(w, text, names[..|names| - 1], u) +
        if t in w.topics && u in w.topics[t].subscribers then [Message(t, w.topics[t].subscribers[u], text)] else []
  }

  ghost predicate LegalOrder(w: World, order: map<string, seq<string>>)
  {
    forall t :: t in w.topics ==> t in order && Enumerates(order[t], w.topics[t].subscribers.Keys)
  }

  lemma {:induction false} ProjectMentions(w: World, text: string, names: seq<string>,
        order: map<string, seq<string>>, except: set<string>, u: string)
    requires LegalOrder(w, order)
    ensures Project(MentionCalls(w, text, names, order, except), iset{u}) ==
              if u in except then [] else MentionCopies(w, text, names, u)
  {
    if names != [] {
      var t := names[|names| - 1];
      ProjectMentions(w, text, names[..|names| - 1], order, except, u);
      if t in w.topics {
        ProjectDeliverList(w.topics[t].subscribers, t, text, order[t], except, u);
        ProjectConcat(MentionCalls(w, text, names[..|names| - 1], order, except),
                      DeliverList(w.topics[t].subscribers, t, text, order[t], except), iset{u});
      } else {
        assert MentionCalls(w, text, names, order, except) ==
                 MentionCalls(w, text, names[..|names| - 1], order, except);
      }
    }
  }

  /** What one accepted tweet by p posts to u. */
  function Copies(w: World, p: string, text: string, u: string): seq<Message>
    requires p in w.topics
  {
    if u in w.topics[p].subscribers then [Message(p, w.topics[p].subscribers[u], text)]
    else MentionCopies(w, text, FindMentions(text), u)
  }

  /** Exact fan-out: one message if u is subscribed to p; otherwise one for each
      mention, in textual order, of an existing topic u is subscribed to, with
      that topic's name and u's id there. */
  lemma FanOut(w: World, p: string, text: string, order: map<string, seq<string>>, u: string)
    requires p in w.topics && LegalOrder(w, order)
    ensures Project(TweetCalls(w, p, text, order), iset{u}) == Copies(w, p, text, u)
  {
    var subs := w.topics[p].subscribers;
    ProjectDeliverList(subs, p, text, order[p], {}, u);
    ProjectMentions(w, text, FindMentions(text), order, subs.Keys, u);
    ProjectConcat(DeliverList(subs, p, text, order[p], {}),
                  MentionCalls(w, text, FindMentions(text), order, subs.Keys), iset{u});
  }

  predicate Follows(w: World, u: string, t: string) { t in w.topics && u in w.topics[t].subscribers }

  ghost predicate FollowsTwo(w: World, u: string, names: seq<string>)
  {
    exists i, j :: 0 <= i < j < |names| && Follows(w, u, names[i]) && Follows(w, u, names[j])
  }

  lemma {:induction false} MentionCopiesCount(w: World, text: string, names: seq<string>, u: string)
    ensures MentionCopies(w, text, names, u) != [] <==> exists i :: 0 <= i < |names| && Follows(w, u, names[i])
    ensures |MentionCopies(w, text, names, u)| >= 2 <==> FollowsTwo(w, u, names)
  {
    if names != [] {
      var n := |names| - 1;
      var before := names[..n];
      MentionCopiesCount(w, text, before, u);
      assert forall i :: 0 <= i < n ==> before[i] == names[i];
      if Follows(w, u, names[n]) && MentionCopies(w, text, before, u) != [] {
        var i :| 0 <= i < |before| && Follows(w, u, before[i]);
        assert Follows(w, u, names[i]);
      }
      if FollowsTwo(w, u, before) {
        var i, j :| 0 <= i < j < |before| && Follows(w, u, before[i]) && Follows(w, u, before[j]);
        assert Follows(w, u, names[i]) && Follows(w, u, names[j]);
      }
      if FollowsTwo(w, u, names) {
        var i, j :| 0 <= i < j < |names| && Follows(w, u, names[i]) && Follows(w, u, names[j]);
        assert Follows(w, u, before[i]) && (j < n ==> Follows(w, u, before[j]));
      }
    }
  }

  /** A tweet by p reaches u more than once exactly when u does not follow p and the
      text mentions, at two places, topics that u does follow. */
  lemma MoreThanOnce(w: World, p: string, text: string, order: map<string, seq<string>>, u: string)
    requires p in w.topics && LegalOrder(w, order)
    ensures |Project(TweetCalls(w, p, text, order), iset{u})| > 1 <==>
              !Follows(w, u, p) && FollowsTwo(w, u, FindMentions(text))
  {
    FanOut(w, p, text, order, u);
    MentionCopiesCount(w, text, FindMentions(text), u);
  }

  lemma TwoNames()
    ensures FindMentions("@bo @cy") == ["bo", "cy"]
  {
    var text := "@bo @cy";
    assert MentionAt(text, 0) && MentionAt(text, 4);
    hide AlnumRun;
    assert AlnumRun(text[1..]) == 2 by { assert text[1..][0] == 'b' && text[1..][1] == 'o' && text[1..][2] == ' '; }
    assert AlnumRun(text[5..]) == 2 by { assert text[5..][0] == 'c' && text[5..][1] == 'y'; }
    assert NameAt(text, 0) == "bo" && NameAt(text, 4) == "cy";
    hide NameAt;
    assert MentionsFrom(text, 5) == [] by {
      assert MentionsFrom(text, 7) == [] && MentionsFrom(text, 6) == [];
    }
    assert MentionsFrom(text, 4) == ["cy"];
    NoMentionWithin(text, 1, 4);
    assert MentionsFrom(text, 0) == ["bo"] + MentionsFrom(text, 1);
  }

  /** A tweet can reach a follower of several mentioned users several times. */
  lemma TwoCopies(w: World)
    requires w.topics.Keys == {SERVER, "al", "bo", "cy", "di"}
    requires w.topics["al"].subscribers == map["al" := SELF_ID]
    requires w.topics["bo"].subscribers == map["bo" := SELF_ID, "di" := "2"]
    requires w.topics["cy"].subscribers == map["cy" := SELF_ID, "di" := "3"]
    ensures var text := "@bo @cy";
            Copies(w, "al", text, "di") == [Message("bo", "2", text), Message("cy", "3", text)]
  {
    var text := "@bo @cy";
    TwoNames();
    hide MentionsFrom;
    assert ["bo", "cy"][..1] == ["bo"] && ["bo"][..0] == [];
    assert MentionCopies(w, text, [], "di") == [];
    assert MentionCopies(w, text, ["bo"], "di") == [Message("bo", "2", text)];
  }

  // ------------------------------------------------ what delivering comes to

  lemma HandTwice(s: Session, a: seq<ServerFrame>, b: seq<ServerFrame>)
    ensures Hand(Hand(s, a), b) == Hand(s, a + b)
  {
    assert s.out + s.queue + a + [] + b == s.out + s.queue + (a + b);
    assert s.queue + a + b == s.queue + (a + b);
  }

  lemma ToFramesConcat(a: seq<Message>, b: seq<Message>)
    ensures ToFrames(a + b) == ToFrames(a) + ToFrames(b)
  {
  }

  /** The users whose messages go to session k. */
  ghost function Attached(w: World, k: nat): iset<string>
  {
    iset u | u in w.users && w.users[u].session == Some(k)
  }

  /** A disconnected user's queue grows by exactly the messages sent to it; the
      order of deliveries to other users does not matter. */
  lemma {:induction false} DeliverOffline(w: World, ds: seq<Delivery>, u: string)
    requires u in w.users && w.users[u].session.None?
    ensures var v := DeliverAll(w, ds);
            u in v.users && v.users[u] == w.users[u].(messages := w.users[u].messages + Project(ds, iset{u}))
  {
    if ds != [] {
      DeliverOffline(w, ds[..|ds| - 1], u);
    }
  }

  lemma OneFrame(m: Message)
    ensures ToFrames([m]) == [ToFrame(m)] && ToFrames([]) == []
  {
  }

  lemma DeliverToSession(w: World, u: string, m: Message, k: nat)
    requires Queues(w) && k in w.sessions
    ensures var v := Deliver(w, u, m);
            k in v.sessions && (forall x :: x in Attached(v, k) <==> x in Attached(w, k)) &&
            v.sessions[k] == Hand(w.sessions[k], if u in Attached(w, k) then [ToFrame(m)] else [])
  {
    if u in w.users {
      assert UserQueue(u, w.users[u]);
      if w.users[u].session == Some(k) {
        assert ToFrames([] + [m]) == [ToFrame(m)];
      }
    }
  }

  /** A session is handed exactly the messages for the users attached to it. */
  lemma {:induction false} DeliverOnline(w: World, ds: seq<Delivery>, k: nat)
    requires Queues(w) && SessionsExist(DirectoryOf(w)) && SelfAddressed(ds) && k in w.sessions
    ensures var v := DeliverAll(w, ds);
            k in v.sessions && v.sessions[k] == Hand(w.sessions[k], ToFrames(Project(ds, Attached(w, k)))) &&
            Attached(v, k) == Attached(w, k)
  {
    hide Deliver, Hand, ToFrames, SessionsExist;
    if ds == [] {
      HandNothing(w.sessions[k]);
    } else {
      var before, d := ds[..|ds| - 1], ds[|ds| - 1];
      DeliverOnline(w, before, k);
      DeliverAllKeeps(w, before);
      var v := DeliverAll(w, before);
      DeliverToSession(v, d.0, d.1, k);
      var ms := Project(before, Attached(w, k));
      var ms' := if d.0 in Attached(w, k) then [d.1] else [];
      ToFramesConcat(ms, ms');
      OneFrame(d.1);
      HandTwice(w.sessions[k], ToFrames(ms), ToFrames(ms'));
    }
  }
}
