/** Runs from the empty engine to the states in which stronger claims fail. */
module Witnesses {
  import opened Text
  import opened World
  import opened Mentions
  import opened Invariants
  import opened Subscriptions
  import opened Posting

  // ----------------------------------------------------------- making a run

  /** The elements of a set in some order. */
  ghost function Arranged(names: set<string>): (order: seq<string>)
    ensures Enumerates(order, names)
  {
    if names == {} then [] else
      var n :| n in names;
      var rest := Arranged(names - {n});
      [n] + rest
  }

  lemma StartReachable() returns (w: World)
    ensures Initial(w) && Reachable(w)
  {
    w := World(map[], map[SERVER := TopicState(map[], None, 0, 0, 0)], map[], 0);
    assert Run(w, []) == w && AllowedRun(w, []);
  }

  lemma StepReachable(w: World, e: Event)
    requires Reachable(w) && Allowed(w, e)
    ensures Reachable(Step(w, e))
  {
    hide Initial, Allowed, Step;
    var w0, es :| Initial(w0) && AllowedRun(w0, es) && Run(w0, es) == w;
    var longer := es + [e];
    assert longer[..|longer| - 1] == es;
    assert AllowedRun(w0, longer) && Run(w0, longer) == Step(w, e);
  }

  /** A new session. */
  lemma Opened(w: World, k: nat) returns (v: World)
    requires Reachable(w)
    ensures Reachable(v) && DirectoryOf(v) == DirectoryStep(DirectoryOf(w), Open(k))
  {
    hide Reachable, Step, DirectoryStep, Inv;
    v := Step(w, Open(k));
    StepReachable(w, Open(k));
    ReachableInv(w);
    StepDirectory(w, Open(k));
  }

  /** A frame read in some order of the lists. */
  lemma Received(w: World, k: nat, f: ClientFrame) returns (v: World)
    requires Reachable(w) && (f.Connect? ==> f.login != SERVER) && !f.Send?
    ensures Reachable(v) && DirectoryOf(v) == DirectoryStep(DirectoryOf(w), Receive(k, f, "", map[]))
  {
    hide Reachable, Step, DirectoryStep, Inv;
    var e := Receive(k, f, "", map t | t in w.topics :: Arranged(w.topics[t].subscribers.Keys));
    v := Step(w, e);
    StepReachable(w, e);
    ReachableInv(w);
    StepDirectory(w, e);
    DirectoryIgnoresOrder(DirectoryOf(w), k, f, "", e.order);
  }

  lemma DirectoryIgnoresOrder(d: Directory, k: nat, f: ClientFrame, report: string, order: map<string, seq<string>>)
    ensures DirectoryStep(d, Receive(k, f, report, order)) == DirectoryStep(d, Receive(k, f, "", map[]))
  {
  }

  lemma {:induction false} NothingToStrip(s: string)
    requires '/' !in s
    ensures StripTopics(s) == s
  {
    if s != "" {
      assert s[0] in s && !(TOPICS_LOCATION <= s);
      NothingToStrip(s[1..]);
    }
  }

  /** A new session on which a new user registers. */
  lemma Registers(w: World, k: nat, u: string) returns (v: World)
    requires Reachable(w) && k !in DirectoryOf(w).sessions && u !in DirectoryOf(w).users && u != SERVER
    ensures Reachable(v)
    ensures var d, e := DirectoryOf(w), DirectoryOf(v);
            e == Taken(Registered(d.(sessions := d.sessions[k := None]), u, "", k), k, u)
  {
    hide Reachable;
    var x := Opened(w, k);
    v := Received(x, k, Connect(u, ""));
  }

  /** Exactly these users, in this order, on sessions 0, 1, 2 and so on. */
  ghost predicate JustRegistered(d: Directory, names: seq<string>)
  {
    (forall u :: u in d.users <==> u in names) && (forall k: nat :: k in d.sessions <==> k < |names|) &&
    (forall t :: t in d.topics <==> t == SERVER || t in names) &&
    (forall i :: 0 <= i < |names| ==>
      d.sessions[i] == Some(names[i]) && d.users[names[i]].subs == map[SELF_ID := names[i]] &&
      d.topics[names[i]].subscribers == map[names[i] := SELF_ID])
  }

  lemma OneMoreRegistered(d: Directory, names: seq<string>, u: string)
    requires JustRegistered(d, names) && u !in names && u != SERVER
    ensures var k := |names|;
            JustRegistered(Taken(Registered(d.(sessions := d.sessions[k := None]), u, "", k), k, u), names + [u])
  {
  }

  lemma NotYet(d: Directory, names: seq<string>, u: string)
    requires JustRegistered(d, names) && u !in names
    ensures u !in d.users && |names| !in d.sessions
  {
  }

  lemma NobodyYet(w: World)
    requires Initial(w)
    ensures JustRegistered(DirectoryOf(w), [])
  {
  }

  lemma RegisteredAt(d: Directory, names: seq<string>, i: nat, n: string)
    requires JustRegistered(d, names) && i < |names| && names[i] == n
    ensures n in d.users && n in d.topics && i in d.sessions && d.sessions[i] == Some(n)
    ensures d.users[n].subs == map[SELF_ID := n] && d.topics[n].subscribers == map[n := SELF_ID]
  {
  }

  /** Any different names can register. */
  lemma {:induction false} AllRegister(names: seq<string>) returns (w: World)
    requires (forall i, j :: 0 <= i < j < |names| ==> names[i] != names[j]) && SERVER !in names
    ensures Reachable(w) && JustRegistered(DirectoryOf(w), names)
  {
    hide Reachable;
    if names == [] {
      w := StartReachable();
      NobodyYet(w);
    } else {
      var n := |names| - 1;
      w := AllRegister(names[..n]);
      NotYet(DirectoryOf(w), names[..n], names[n]);
      OneMoreRegistered(DirectoryOf(w), names[..n], names[n]);
      w := Registers(w, n, names[n]);
      assert names[..n] + [names[n]] == names;
    }
  }

  /** The user of session k follows an existing other topic under a new id. */
  lemma Follows(w: World, k: nat, u: string, id: string, t: string) returns (v: World)
    requires Reachable(w) && '/' !in t && t != u
    requires var d := DirectoryOf(w);
             k in d.sessions && d.sessions[k] == Some(u) && u in d.users && t in d.topics && id !in d.users[u].subs
    ensures Reachable(v) && DirectoryOf(v) == Joined(DirectoryOf(w), u, id, t)
  {
    hide Reachable, StripTopics;
    NothingToStrip(t);
    v := Received(w, k, Subscribe(t, id));
  }

  // ------------------------------------------------- one topic under two ids

  /** Alice and bob register, and bob follows alice twice. */
  lemma FollowsTwice() returns (d: Directory, w: World)
    ensures Indexes(d) && "alice" in d.users && "alice" in d.topics && "bob" in d.users &&
            d.users["bob"].subs == map[SELF_ID := "bob"]
    ensures 1 in d.sessions && d.sessions[1] == Some("bob")
    ensures Reachable(w) && DirectoryOf(w) == Joined(Joined(d, "bob", "1", "alice"), "bob", "2", "alice")
  {
    hide Reachable, JustRegistered, Indexes;
    var names := ["alice", "bob"];
    w := AllRegister(names);
    RegisteredAt(DirectoryOf(w), names, 0, "alice");
    RegisteredAt(DirectoryOf(w), names, 1, "bob");
    IndexesOf(w);
    d := DirectoryOf(w);
    w := Follows(w, 1, "bob", "1", "alice");
    w := Follows(w, 1, "bob", "2", "alice");
  }

  /** A run after which bob holds alice's topic under two ids, and one more step
      after which bob holds it still, but is not listed there. */
  lemma OneTopicUnderTwoIds() returns (two: World, one: World)
    ensures Reachable(two) && "bob" in two.users && "1" in two.users["bob"].subs && "2" in two.users["bob"].subs
    ensures two.users["bob"].subs["1"] == "alice" == two.users["bob"].subs["2"]
    ensures Reachable(one) && "bob" in one.users && "2" in one.users["bob"].subs &&
            one.users["bob"].subs["2"] == "alice"
    ensures "alice" in one.topics && "bob" !in one.topics["alice"].subscribers
  {
    hide Reachable, Indexes, DirectoryOf;
    var d: Directory;
    d, two := FollowsTwice();
    TwoIdsForOneTopic(d);
    one := Received(two, 1, Unsubscribe("1"));
    ByDirectory(two);
    ByDirectory(one);
  }

  lemma IndexesOf(w: World)
    requires Reachable(w)
    ensures Indexes(DirectoryOf(w))
  {
    ReachableInv(w);
  }

  /** The directory's subscriptions and lists are the state's. */
  lemma ByDirectory(w: World)
    ensures w.users.Keys == DirectoryOf(w).users.Keys && w.topics.Keys == DirectoryOf(w).topics.Keys
    ensures forall u :: u in w.users ==> w.users[u].subs == DirectoryOf(w).users[u].subs
    ensures forall t :: t in w.topics ==> w.topics[t].subscribers == DirectoryOf(w).topics[t].subscribers
  {
  }

  // ------------------------------------------------------------- two copies

  lemma TopicsOfFour(d: Directory)
    requires JustRegistered(d, ["al", "bo", "cy", "di"])
    ensures d.topics.Keys == {SERVER, "al", "bo", "cy", "di"}
  {
  }

  /** A run after which one tweet of al reaches di twice. */
  lemma TwoCopiesOfOneTweet() returns (w: World)
    ensures Reachable(w) && "al" in w.topics
    ensures Copies(w, "al", "@bo @cy", "di") == [Message("bo", "2", "@bo @cy"), Message("cy", "3", "@bo @cy")]
  {
    hide Reachable, JustRegistered, Indexes;
    var names := ["al", "bo", "cy", "di"];
    var x := AllRegister(names);
    RegisteredAt(DirectoryOf(x), names, 0, "al");
    RegisteredAt(DirectoryOf(x), names, 1, "bo");
    RegisteredAt(DirectoryOf(x), names, 2, "cy");
    RegisteredAt(DirectoryOf(x), names, 3, "di");
    TopicsOfFour(DirectoryOf(x));
    x := Follows(x, 3, "di", "2", "bo");
    w := Follows(x, 3, "di", "3", "cy");
    ByDirectory(w);
    assert w.topics["bo"].subscribers == map["bo" := SELF_ID, "di" := "2"];
    assert w.topics["cy"].subscribers == map["cy" := SELF_ID, "di" := "3"];
    TwoCopies(w);
  }
}
