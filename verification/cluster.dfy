/**
 One-hop publish forwarding between cluster nodes: pkg/cluster/manager.go, pkg/cluster/server.go and the routing calls of
 pkg/broker/broker.go.

 A node announces the filters of its clients to its peers; a node that gets a publish forwards it to every peer that
 announced exactly that topic string.  Messages travel in goroutines of their own: any order, possibly lost, never twice.
 Republishing by the rule engine is not part of this model.
 */
module Cluster {
  import D = Delivery

  datatype Route = Route(topic: string, nodeIDs: seq<string>)

  datatype Forward = Forward(from: string, to: string, topic: string, publish: nat)

  datatype Message = RouteUpdate(from: string, to: string, routes: seq<Route>) | PublishForward(f: Forward)

  type Routes = map<string, seq<string>>

  /** What one node knows: its connected peers and who announced which topic. */
  datatype Member = Member(peers: set<string>, remoteRoutes: Routes)

  /** `sent`, `received` and `lost` record every forward of the run; `announced` every announcement. */
  datatype State = State(
    members: map<string, Member>, network: multiset<Message>,
    sent: seq<Forward>, received: seq<Forward>, lost: multiset<Forward>,
    announced: set<(string, string)>, origins: seq<string>)

  const INIT := State(map[], multiset{}, [], [], multiset{}, {}, [])

  function MemberOf(s: State, n: string): Member {
    if n in s.members then s.members[n] else Member({}, map[])
  }

  function SubscribersOf(r: Routes, topic: string): seq<string> {
    if topic in r then r[topic] else []
  }

  // ----- manager.go and server.go -----

  function WithSubscriber(r: Routes, topic: string, nodeID: string): Routes {
    if nodeID in SubscribersOf(r, topic) then r else r[topic := SubscribersOf(r, topic) + [nodeID]]
  }

  function AddNodes(r: Routes, topic: string, nodeIDs: seq<string>): Routes {
    if nodeIDs == [] then r
    else WithSubscriber(AddNodes(r, topic, nodeIDs[..|nodeIDs| - 1]), topic, nodeIDs[|nodeIDs| - 1])
  }

  function AddRoutes(r: Routes, routes: seq<Route>): Routes {
    if routes == [] then r
    else
      var last := routes[|routes| - 1];
      AddNodes(AddRoutes(r, routes[..|routes| - 1]), last.topic, last.nodeIDs)
  }

  /** The routes a SUBSCRIBE announces: each filter with this node alone. */
  function OwnRoutes(n: string, filters: seq<string>): seq<Route> {
    seq(|filters|, i requires 0 <= i < |filters| => Route(filters[i], [n]))
  }

  function RouteUpdates(n: string, peers: set<string>, routes: seq<Route>): multiset<Message> {
    multiset(set p <- peers :: RouteUpdate(n, p, routes))
  }

  /** The nodes a publish is forwarded to: announced, not this node, and connected. */
  function Targets(n: string, m: Member, nodeIDs: seq<string>): seq<string> {
    if nodeIDs == [] then []
    else
      var last := nodeIDs[|nodeIDs| - 1];
      Targets(n, m, nodeIDs[..|nodeIDs| - 1]) + (if last != n && last in m.peers then [last] else [])
  }

  function Forwards(n: string, targets: seq<string>, topic: string, publish: nat): seq<Forward> {
    seq(|targets|, i requires 0 <= i < |targets| => Forward(n, targets[i], topic, publish))
  }

  function AsMessages(fs: seq<Forward>): multiset<Message> {
    if fs == [] then multiset{} else AsMessages(fs[..|fs| - 1]) + multiset{PublishForward(fs[|fs| - 1])}
  }

  // ----- Steps -----

  datatype Action =
    | AddPeer(n: string, peer: string)
    | Subscribe(n: string, filters: seq<string>)
    | Publish(n: string, topic: string)
    | Deliver(m: Message)
    | Lose(m: Message)

  function PublishedTo(s: State, n: string, topic: string): seq<Forward> {
    var m := MemberOf(s, n);
    Forwards(n, Targets(n, m, SubscribersOf(m.remoteRoutes, topic)), topic, |s.origins|)
  }

  function Step(s: State, a: Action): State {
    match a
    case AddPeer(n, peer) =>
      var m := MemberOf(s, n);
      s.(members := s.members[n := m.(peers := m.peers + {peer})])
    case Subscribe(n, filters) =>
      s.(network := s.network + RouteUpdates(n, MemberOf(s, n).peers, OwnRoutes(n, filters)),
         announced := s.announced + set i | 0 <= i < |filters| :: (n, filters[i]))
    case Publish(n, topic) =>
      var fs := PublishedTo(s, n, topic);
      s.(network := s.network + AsMessages(fs), sent := s.sent + fs, origins := s.origins + [n])
    case Deliver(m) =>
      if m !in s.network then s
      else
        var t := s.(network := s.network - multiset{m});
        (match m
         case RouteUpdate(_, to, routes) =>
           var member := MemberOf(s, to);
           t.(members := t.members[to := member.(remoteRoutes := AddRoutes(member.remoteRoutes, routes))])
         // The receiver routes to its local clients only.
         case PublishForward(f) => t.(received := t.received + [f]))
    case Lose(m) =>
      if m !in s.network then s
      else
        var t := s.(network := s.network - multiset{m});
        if m.PublishForward? then t.(lost := t.lost + multiset{m.f}) else t
  }

  function Run(actions: seq<Action>): State {
    if actions == [] then INIT else Step(Run(actions[..|actions| - 1]), actions[|actions| - 1])
  }

  // ----- Invariants -----

  ghost predicate Distinct<T>(s: seq<T>) {
    forall i, j :: 0 <= i < j < |s| ==> s[i] != s[j]
  }

  /** Every node listed for a topic has announced that topic, and is listed once. */
  ghost predicate Announced(r: Routes, announced: set<(string, string)>) {
    forall topic <- r :: Distinct(r[topic]) && forall n <- r[topic] :: (n, topic) in announced
  }

  predicate AllAnnounced(routes: seq<Route>, announced: set<(string, string)>) {
    forall i :: 0 <= i < |routes| ==> forall n <- routes[i].nodeIDs :: (n, routes[i].topic) in announced
  }

  ghost predicate RoutesGood(s: State) {
    && (forall n <- s.members :: Announced(s.members[n].remoteRoutes, s.announced))
    && (forall m <- s.network :: m.RouteUpdate? ==> AllAnnounced(m.routes, s.announced))
  }

  /** A forward leaves the origin of its publish, for another node that announced the topic. */
  predicate ForwardGood(s: State, f: Forward) {
    f.publish < |s.origins| && f.from == s.origins[f.publish] && f.to != f.from && (f.to, f.topic) in s.announced
  }

  predicate SamePublishAndNode(f: Forward, g: Forward) {
    f.publish == g.publish && f.to == g.to
  }

  ghost predicate SentGood(s: State) {
    && (forall i :: 0 <= i < |s.sent| ==> ForwardGood(s, s.sent[i]))
    && (forall i, j :: 0 <= i < j < |s.sent| ==> !SamePublishAndNode(s.sent[i], s.sent[j]))
  }

  /** Conservation: every forward ever sent is in flight, received or lost, exactly once. */
  ghost predicate Conserved(s: State) {
    forall f :: s.network[PublishForward(f)] + multiset(s.received)[f] + s.lost[f] == multiset(s.sent)[f]
  }

  ghost predicate Good(s: State) {
    RoutesGood(s) && SentGood(s) && Conserved(s)
  }

  // ----- Route lemmas -----

  lemma AddRemoteRouteKeeps(r: Routes, topic: string, n: string, announced: set<(string, string)>)
    requires Announced(r, announced) && (n, topic) in announced
    ensures Announced(WithSubscriber(r, topic, n), announced)
  {
  }

  lemma {:induction false} AddNodesKeeps(r: Routes, topic: string, ns: seq<string>, announced: set<(string, string)>)
    requires Announced(r, announced) && forall n <- ns :: (n, topic) in announced
    ensures Announced(AddNodes(r, topic, ns), announced)
  {
    if ns != [] {
      AddNodesKeeps(r, topic, ns[..|ns| - 1], announced);
      AddRemoteRouteKeeps(AddNodes(r, topic, ns[..|ns| - 1]), topic, ns[|ns| - 1], announced);
    }
  }

  lemma {:induction false} AddRoutesKeeps(r: Routes, routes: seq<Route>, announced: set<(string, string)>)
    requires Announced(r, announced) && AllAnnounced(routes, announced)
    ensures Announced(AddRoutes(r, routes), announced)
  {
    if routes != [] {
      var front, last := routes[..|routes| - 1], routes[|routes| - 1];
      assert forall i :: 0 <= i < |front| ==> front[i] == routes[i];
      AddRoutesKeeps(r, front, announced);
      AddNodesKeeps(AddRoutes(r, front), last.topic, last.nodeIDs, announced);
    }
  }

  lemma {:induction false} TargetsFacts(n: string, m: Member, ids: seq<string>)
    ensures forall x :: x in Targets(n, m, ids) <==> x in ids && x != n && x in m.peers
    ensures Distinct(ids) ==> Distinct(Targets(n, m, ids))
  {
    if ids != [] {
      var front, last := ids[..|ids| - 1], ids[|ids| - 1];
      assert ids == front + [last];
      TargetsFacts(n, m, front);
      var w := Targets(n, m, front);
      forall x ensures x in Targets(n, m, ids) <==> x in ids && x != n && x in m.peers {
        assert x in ids <==> x in front || x == last;
        if last != n && last in m.peers {
          assert x in w + [last] <==> x in w || x == last;
        }
      }
      if Distinct(ids) {
        assert last !in front;
      }
    }
  }

  lemma {:induction false} AsMessagesCounts(fs: seq<Forward>, f: Forward)
    ensures AsMessages(fs)[PublishForward(f)] == multiset(fs)[f]
    ensures forall m <- AsMessages(fs) :: m.PublishForward?
  {
    if fs != [] {
      AsMessagesCounts(fs[..|fs| - 1], f);
      assert fs == fs[..|fs| - 1] + [fs[|fs| - 1]];
    }
  }

  // ----- Steps keep the invariant -----

  lemma AnnounceKeeps(s: State, more: set<(string, string)>)
    requires Good(s)
    ensures Good(s.(announced := s.announced + more))
  {
    var t := s.(announced := s.announced + more);
    forall n | n in t.members ensures Announced(t.members[n].remoteRoutes, t.announced) {
      assert Announced(s.members[n].remoteRoutes, s.announced);
    }
    forall i | 0 <= i < |t.sent| ensures ForwardGood(t, t.sent[i]) {
      assert ForwardGood(s, s.sent[i]);
    }
  }

  lemma SubscribeKeeps(s: State, n: string, filters: seq<string>)
    requires Good(s)
    ensures Good(Step(s, Subscribe(n, filters)))
  {
    var more := set i | 0 <= i < |filters| :: (n, filters[i]);
    var u := s.(announced := s.announced + more);
    AnnounceKeeps(s, more);
    var t := Step(s, Subscribe(n, filters));
    var updates := RouteUpdates(n, MemberOf(s, n).peers, OwnRoutes(n, filters));
    assert t == u.(network := u.network + updates);
    assert AllAnnounced(OwnRoutes(n, filters), t.announced);
    assert RoutesGood(t);
    assert SentGood(t) by {
      assert forall i :: 0 <= i < |t.sent| ==> (ForwardGood(u, u.sent[i]) ==> ForwardGood(t, t.sent[i]));
    }
    assert Conserved(t) by {
      forall f ensures t.network[PublishForward(f)] == s.network[PublishForward(f)] {
        assert PublishForward(f) !in updates;
      }
    }
  }

  lemma PublishSent(s: State, n: string, topic: string)
    requires Good(s)
    ensures SentGood(Step(s, Publish(n, topic)))
  {
    var t, fs := Step(s, Publish(n, topic)), PublishedTo(s, n, topic);
    assert t.sent == s.sent + fs && t.origins == s.origins + [n] && t.announced == s.announced;
    PublishedToGood(s, n, topic);
    hide Step, PublishedTo, RoutesGood, Conserved;
    forall i | 0 <= i < |t.sent| ensures ForwardGood(t, t.sent[i]) {
      if i < |s.sent| {
        assert ForwardGood(s, s.sent[i]);
      }
    }
    forall i, j | 0 <= i < j < |t.sent| ensures !SamePublishAndNode(t.sent[i], t.sent[j]) {
      if i < |s.sent| <= j {
        assert ForwardGood(s, s.sent[i]);
      }
    }
  }

  lemma PublishedToGood(s: State, n: string, topic: string)
    requires Good(s)
    ensures var fs := PublishedTo(s, n, topic);
            && (forall i :: 0 <= i < |fs| ==> fs[i].from == n && fs[i].publish == |s.origins| && fs[i].to != n
                                              && (fs[i].to, fs[i].topic) in s.announced)
            && (forall i, j :: 0 <= i < j < |fs| ==> !SamePublishAndNode(fs[i], fs[j]))
  {
    var m := MemberOf(s, n);
    var ids := SubscribersOf(m.remoteRoutes, topic);
    TargetsFacts(n, m, ids);
    assert Announced(m.remoteRoutes, s.announced);
    var targets := Targets(n, m, ids);
    assert forall i :: 0 <= i < |targets| ==> targets[i] in targets;
    hide Targets, SentGood, Conserved, RoutesGood;
  }

  lemma PublishConserved(s: State, n: string, topic: string)
    requires Conserved(s)
    ensures Conserved(Step(s, Publish(n, topic)))
  {
    var t := Step(s, Publish(n, topic));
    var fs := PublishedTo(s, n, topic);
    hide PublishedTo, AsMessages;
    forall f ensures t.network[PublishForward(f)] + multiset(t.received)[f] + t.lost[f] == multiset(t.sent)[f] {
      AsMessagesCounts(fs, f);
      assert multiset(t.sent)[f] == multiset(s.sent)[f] + multiset(fs)[f];
    }
  }

  lemma PublishRoutes(s: State, n: string, topic: string)
    requires RoutesGood(s)
    ensures RoutesGood(Step(s, Publish(n, topic)))
  {
    var t := Step(s, Publish(n, topic));
    hide AsMessages, PublishedTo;
    AsMessagesCounts(PublishedTo(s, n, topic), Forward("", "", "", 0));
    assert forall m <- t.network :: m.RouteUpdate? ==> m in s.network;
  }

  lemma PublishKeeps(s: State, n: string, topic: string)
    requires Good(s)
    ensures Good(Step(s, Publish(n, topic)))
  {
    hide Step, RoutesGood, SentGood, Conserved;
    PublishSent(s, n, topic);
    PublishRoutes(s, n, topic);
    PublishConserved(s, n, topic);
  }

  /** Taking a message off the network touches neither routes nor the record of what was sent. */
  lemma TakeOff(s: State, t: State, m: Message)
    requires RoutesGood(s) && SentGood(s) && m in s.network
    requires t.network == s.network - multiset{m} && t.members == s.members && t.announced == s.announced
    requires t.sent == s.sent && t.origins == s.origins
    ensures RoutesGood(t) && SentGood(t)
  {
    assert forall x <- t.network :: x in s.network;
    forall i | 0 <= i < |t.sent| ensures ForwardGood(t, t.sent[i]) { assert ForwardGood(s, s.sent[i]); }
  }

  lemma DeliverRoutes(s: State, m: Message)
    requires RoutesGood(s) && SentGood(s) && m in s.network
    ensures RoutesGood(Step(s, Deliver(m))) && SentGood(Step(s, Deliver(m)))
  {
    var t := s.(network := s.network - multiset{m});
    TakeOff(s, t, m);
    var u := Step(s, Deliver(m));
    assert u.network == t.network && u.sent == t.sent && u.announced == t.announced && u.origins == t.origins;
    if m.RouteUpdate? {
      AddRoutesKeeps(MemberOf(s, m.to).remoteRoutes, m.routes, s.announced);
    }
    forall n | n in u.members ensures Announced(u.members[n].remoteRoutes, u.announced) {
      hide Announced;
    }
    forall i | 0 <= i < |u.sent| ensures ForwardGood(u, u.sent[i]) { assert ForwardGood(t, t.sent[i]); }
  }

  /** A message leaves the network and is entered in one of the two records. */
  lemma MoveConserved(s: State, t: State, m: Message, got: int, dropped: int)
    requires Conserved(s) && m in s.network && t.sent == s.sent
    requires t.network == s.network - multiset{m}
    requires got + dropped == (if m.PublishForward? then 1 else 0) && 0 <= got && 0 <= dropped
    requires forall f :: multiset(t.received)[f] == multiset(s.received)[f] + (if m == PublishForward(f) then got else 0)
    requires forall f :: t.lost[f] == s.lost[f] + (if m == PublishForward(f) then dropped else 0)
    ensures Conserved(t)
  {
    forall f ensures t.network[PublishForward(f)] + multiset(t.received)[f] + t.lost[f] == multiset(t.sent)[f] {
      assert s.network[PublishForward(f)] + multiset(s.received)[f] + s.lost[f] == multiset(s.sent)[f];
    }
  }

  lemma DeliverConserved(s: State, m: Message)
    requires Conserved(s) && m in s.network
    ensures Conserved(Step(s, Deliver(m)))
  {
    var t := Step(s, Deliver(m));
    hide AddRoutes, MemberOf, Conserved;
    MoveConserved(s, t, m, if m.PublishForward? then 1 else 0, 0);
  }

  lemma LoseConserved(s: State, m: Message)
    requires Conserved(s) && m in s.network
    ensures Conserved(Step(s, Lose(m)))
  {
    var t := Step(s, Lose(m));
    hide Conserved;
    MoveConserved(s, t, m, 0, if m.PublishForward? then 1 else 0);
  }

  lemma DeliverKeeps(s: State, m: Message)
    requires Good(s) && m in s.network
    ensures Good(Step(s, Deliver(m)))
  {
    hide Step, RoutesGood, SentGood, Conserved;
    DeliverRoutes(s, m);
    DeliverConserved(s, m);
  }

  lemma LoseKeeps(s: State, m: Message)
    requires Good(s) && m in s.network
    ensures Good(Step(s, Lose(m)))
  {
    LoseConserved(s, m);
    var t := Step(s, Lose(m));
    hide Conserved, RoutesGood, SentGood;
    TakeOff(s, t, m);
  }

  lemma StepKeeps(s: State, a: Action)
    requires Good(s)
    ensures Good(Step(s, a))
  {
    match a {
      case AddPeer(n, peer) =>
        var t := Step(s, a);
        assert forall i :: 0 <= i < |s.sent| ==> (ForwardGood(s, s.sent[i]) ==> ForwardGood(t, t.sent[i]));
      case Subscribe(n, filters) => SubscribeKeeps(s, n, filters);
      case Publish(n, topic) => PublishKeeps(s, n, topic);
      case Deliver(m) => if m in s.network { DeliverKeeps(s, m); }
      case Lose(m) => if m in s.network { LoseKeeps(s, m); }
    }
  }

  lemma {:induction false} RunIsGood(actions: seq<Action>)
    ensures Good(Run(actions))
  {
    if actions != [] {
      var front := actions[..|actions| - 1];
      RunIsGood(front);
      hide Good, Step;
      StepKeeps(Run(front), actions[|actions| - 1]);
    }
  }

  // ----- Results -----

  /** Call k of the run is the publish that sent this forward, and its target had announced the topic by then. */
  ghost predicate SentBy(actions: seq<Action>, k: nat, f: Forward)
    requires k < |actions|
  {
    var s := Run(actions[..k]);
    actions[k] == Publish(f.from, f.topic) && f.publish == |s.origins| && (f.to, f.topic) in s.announced
  }

  lemma {:induction false} SomeoneSent(actions: seq<Action>, i: nat) returns (k: nat)
    requires i < |Run(actions).sent|
    ensures k < |actions| && SentBy(actions, k, Run(actions).sent[i])
  {
    var last := |actions| - 1;
    var front, s := actions[..last], Run(actions[..last]);
    if i < |s.sent| {
      SentOnlyGrows(s, actions[last]);
      k := SomeoneSent(front, i);
      assert front[..k] == actions[..k];
    } else {
      k := last;
      RunIsGood(front);
      SentOnlyGrows(s, actions[last]);
      var n, topic := actions[last].n, actions[last].topic;
      assert Run(actions).sent == s.sent + PublishedTo(s, n, topic);
      PublishedToAnnounced(s, n, topic, i - |s.sent|);
      hide Good, PublishedTo, Step;
    }
  }

  lemma PublishedToAnnounced(s: State, n: string, topic: string, j: nat)
    requires Good(s) && j < |PublishedTo(s, n, topic)|
    ensures var f := PublishedTo(s, n, topic)[j];
            f.from == n && f.topic == topic && f.publish == |s.origins| && (f.to, topic) in s.announced
  {
    var m := MemberOf(s, n);
    var ids := SubscribersOf(m.remoteRoutes, topic);
    TargetsFacts(n, m, ids);
    assert Targets(n, m, ids)[j] in Targets(n, m, ids);
    assert Announced(m.remoteRoutes, s.announced);
    hide Targets, SentGood, Conserved;
  }

  lemma SentOnlyGrows(s: State, a: Action)
    ensures s.sent <= Step(s, a).sent && (!a.Publish? ==> Step(s, a).sent == s.sent)
  {
  }

  /**
   One hop.  In every run each publish is forwarded at most once to any node, by the node that got it from its client,
   never to that node, and only to nodes that had announced exactly that topic before it was published.
   */
  lemma OneHop(actions: seq<Action>, i: nat, j: nat)
    requires i < |Run(actions).sent| && j < |Run(actions).sent|
    ensures var s := Run(actions); var f := s.sent[i];
            && f.publish < |s.origins| && f.from == s.origins[f.publish]
            && f.to != f.from
            && (exists k :: 0 <= k < |actions| && SentBy(actions, k, f))
            && (i != j ==> !SamePublishAndNode(f, s.sent[j]))
  {
    RunIsGood(actions);
    var s := Run(actions);
    var k := SomeoneSent(actions, i);
    hide Run, SentBy;
    assert ForwardGood(s, s.sent[i]);
    if j < i {
      assert !SamePublishAndNode(s.sent[j], s.sent[i]);
    }
  }

  /** And to all of them: a publish goes to every connected node, other than this one, that is listed for its topic. */
  lemma PublishReachesEverySubscriber(s: State, n: string, topic: string, p: string)
    ensures (exists i :: 0 <= i < |PublishedTo(s, n, topic)| && PublishedTo(s, n, topic)[i] == Forward(n, p, topic, |s.origins|))
            <==> p in SubscribersOf(MemberOf(s, n).remoteRoutes, topic) && p != n && p in MemberOf(s, n).peers
  {
    var m := MemberOf(s, n);
    var ids := SubscribersOf(m.remoteRoutes, topic);
    TargetsFacts(n, m, ids);
    var targets := Targets(n, m, ids);
    if p in targets {
      var i :| 0 <= i < |targets| && targets[i] == p;
      assert PublishedTo(s, n, topic)[i] == Forward(n, p, topic, |s.origins|);
    }
  }

  /** Each node receives each publish at most once, and only what was sent to it. */
  lemma ReceivedAtMostOnce(actions: seq<Action>, i: nat)
    requires i < |Run(actions).received|
    ensures var s := Run(actions); var f := s.received[i];
            && f in s.sent
            && multiset(s.received)[f] == 1
            && (forall j :: 0 <= j < |s.received| && j != i ==> !SamePublishAndNode(f, s.received[j]))
  {
    RunIsGood(actions);
    var s := Run(actions);
    hide Run;
    forall k | 0 <= k < |s.received| ensures s.received[k] in s.sent && multiset(s.received)[s.received[k]] == 1 {
      assert s.received[k] in multiset(s.received);
      SentOnce(s, s.received[k]);
    }
    forall j | 0 <= j < |s.received| && j != i ensures !SamePublishAndNode(s.received[i], s.received[j]) {
      if SamePublishAndNode(s.received[i], s.received[j]) {
        SameForward(s, s.received[i], s.received[j]);
        TwiceInSeq(s.received, i, j);
        assert false;
      }
    }
  }

  lemma SentOnce(s: State, f: Forward)
    requires SentGood(s) && Conserved(s) && multiset(s.received)[f] > 0
    ensures f in s.sent && multiset(s.received)[f] == 1
  {
    assert multiset(s.sent)[f] > 0;
    assert f in multiset(s.sent);
    NoRepeats(s.sent, f);
  }

  lemma SameForward(s: State, f: Forward, g: Forward)
    requires SentGood(s) && f in s.sent && g in s.sent && SamePublishAndNode(f, g)
    ensures f == g
  {
    var i, j :| 0 <= i < |s.sent| && 0 <= j < |s.sent| && s.sent[i] == f && s.sent[j] == g;
    assert SamePublishAndNode(s.sent[i], s.sent[j]) && SamePublishAndNode(s.sent[j], s.sent[i]);
  }

  lemma {:induction false} NoRepeats(fs: seq<Forward>, f: Forward)
    requires forall i, j :: 0 <= i < j < |fs| ==> !SamePublishAndNode(fs[i], fs[j])
    ensures multiset(fs)[f] <= 1
  {
    if fs != [] {
      var front, last := fs[..|fs| - 1], fs[|fs| - 1];
      assert fs == front + [last];
      NoRepeats(front, f);
      if last == f {
        assert f !in front by {
          assert forall i :: 0 <= i < |front| ==> front[i] == fs[i] && !SamePublishAndNode(fs[i], last);
        }
        assert multiset(front)[f] == 0;
      }
    }
  }

  lemma TwiceInSeq(fs: seq<Forward>, i: nat, j: nat)
    requires i < |fs| && j < |fs| && i != j && fs[i] == fs[j]
    ensures multiset(fs)[fs[i]] >= 2
  {
    var a, b := if i < j then i else j, if i < j then j else i;
    assert fs == fs[..a] + [fs[a]] + fs[a + 1..b] + [fs[b]] + fs[b + 1..];
  }

  // ----- The manager and the server of one node -----

  class Manager {
    const nodeID: string
    var peers: set<string>
    var remoteRoutes: Routes
    var outbox: multiset<Message>

    constructor (nodeID: string)
      ensures this.nodeID == nodeID && peers == {} && remoteRoutes == map[] && outbox == multiset{}
    {
      this.nodeID := nodeID;
      peers, remoteRoutes, outbox := {}, map[], multiset{};
    }

    method AddRemoteRoute(topic: string, node: string)
      modifies this`remoteRoutes
      ensures remoteRoutes == WithSubscriber(old(remoteRoutes), topic, node)
    {
      var existing := GetRemoteSubscribers(topic);
      for i := 0 to |existing|
        invariant node !in existing[..i]
        invariant remoteRoutes == old(remoteRoutes)
      {
        if existing[i] == node {
          return;
        }
      }
      assert existing[..|existing|] == existing;
      remoteRoutes := remoteRoutes[topic := existing + [node]];
    }

    method GetRemoteSubscribers(topic: string) returns (nodeIDs: seq<string>)
      ensures nodeIDs == SubscribersOf(remoteRoutes, topic)
    {
      nodeIDs := if topic in remoteRoutes then remoteRoutes[topic] else [];
    }

    method BroadcastRouteUpdate(routes: seq<Route>)
      modifies this`outbox
      ensures outbox == old(outbox) + RouteUpdates(nodeID, peers, routes)
    {
      var todo := peers;
      ghost var seen: set<string> := {};
      assert RouteUpdates(nodeID, {}, routes) == multiset{};
      while todo != {}
        invariant seen !! todo && seen + todo == peers
        invariant outbox == old(outbox) + RouteUpdates(nodeID, seen, routes)
        decreases todo
      {
        var p :| p in todo;
        OneMoreUpdate(nodeID, seen, routes, p);
        todo, seen := todo - {p}, seen + {p};
        outbox := outbox + multiset{RouteUpdate(nodeID, p, routes)};
      }
      assert seen == peers;
    }

    method ForwardPublish(topic: string, publish: nat, node: string)
      modifies this`outbox
      ensures outbox == old(outbox)
                        + if node in peers then multiset{PublishForward(Forward(nodeID, node, topic, publish))} else multiset{}
    {
      if node in peers {
        outbox := outbox + multiset{PublishForward(Forward(nodeID, node, topic, publish))};
      }
    }

    /** The server's handler for route announcements. */
    method BatchUpdateRoutes(routes: seq<Route>)
      modifies this`remoteRoutes
      ensures remoteRoutes == AddRoutes(old(remoteRoutes), routes)
    {
      for i := 0 to |routes|
        invariant remoteRoutes == AddRoutes(old(remoteRoutes), routes[..i])
      {
        ghost var before := remoteRoutes;
        var ids := routes[i].nodeIDs;
        for j := 0 to |ids|
          invariant remoteRoutes == AddNodes(before, routes[i].topic, ids[..j])
        {
          assert ids[..j + 1][..j] == ids[..j];
          AddRemoteRoute(routes[i].topic, ids[j]);
        }
        assert ids[..|ids|] == ids;
        assert routes[..i + 1][..i] == routes[..i];
      }
      assert routes[..|routes|] == routes;
    }

    /**
     The server's handler for a forwarded publish: the clients of this node that match get their copies, and nothing is
     sent or announced.
     */
    method HandleForwardPublish(subs: seq<D.Subscription>, topic: string, payload: D.Bytes)
      modifies D.Mailboxes(subs)
      ensures forall m <- D.Mailboxes(subs) :: m.queue == old(m.queue) + D.CopiesFor(subs, topic, payload, 0, m)
      ensures outbox == old(outbox) && remoteRoutes == old(remoteRoutes) && peers == old(peers)
    {
      D.RouteForwarded(subs, topic, payload);
    }

    /** The remote part of the broker's publish routing. */
    method RoutePublish(topic: string, publish: nat)
      modifies this`outbox
      ensures outbox == old(outbox)
                        + Routed(nodeID, Member(peers, remoteRoutes), SubscribersOf(remoteRoutes, topic), topic, publish)
    {
      var ids := GetRemoteSubscribers(topic);
      ghost var m := Member(peers, remoteRoutes);
      RoutedNone(nodeID, m, topic, publish);
      hide *;
      for i := 0 to |ids|
        invariant outbox == old(outbox) + Routed(nodeID, m, ids[..i], topic, publish)
      {
        RoutedAppend(nodeID, m, ids, i, topic, publish);
        if ids[i] == nodeID {
          continue;
        }
        ForwardPublish(topic, publish, ids[i]);
      }
      assert ids[..|ids|] == ids;
    }
  }

  /** What routing a publish puts on the network after going through a list of node IDs. */
  ghost function Routed(n: string, m: Member, ids: seq<string>, topic: string, publish: nat): multiset<Message> {
    AsMessages(Forwards(n, Targets(n, m, ids), topic, publish))
  }

  lemma RoutedNone(n: string, m: Member, topic: string, publish: nat)
    ensures Routed(n, m, [], topic, publish) == multiset{}
  {}

  lemma RoutedAppend(n: string, m: Member, ids: seq<string>, i: nat, topic: string, publish: nat)
    requires i < |ids|
    ensures Routed(n, m, ids[..i + 1], topic, publish)
            == Routed(n, m, ids[..i], topic, publish)
               + if ids[i] != n && ids[i] in m.peers then multiset{PublishForward(Forward(n, ids[i], topic, publish))}
                 else multiset{}
  {
    assert ids[..i + 1] == ids[..i] + [ids[i]];
    TargetsAppend(n, m, ids[..i], ids[i]);
    hide AsMessages, Forwards, Targets;
    if ids[i] != n && ids[i] in m.peers {
      OneMoreForward(n, Targets(n, m, ids[..i]), topic, publish, ids[i]);
    }
  }

  lemma TargetsAppend(n: string, m: Member, ids: seq<string>, x: string)
    ensures Targets(n, m, ids + [x]) == if x != n && x in m.peers then Targets(n, m, ids) + [x] else Targets(n, m, ids)
  {
    assert (ids + [x])[..|ids|] == ids;
  }

  lemma OneMoreUpdate(n: string, peers: set<string>, routes: seq<Route>, p: string)
    requires p !in peers
    ensures RouteUpdates(n, peers + {p}, routes) == RouteUpdates(n, peers, routes) + multiset{RouteUpdate(n, p, routes)}
  {
    assert (set q <- peers + {p} :: RouteUpdate(n, q, routes))
           == (set q <- peers :: RouteUpdate(n, q, routes)) + {RouteUpdate(n, p, routes)};
  }

  lemma OneMoreForward(n: string, targets: seq<string>, topic: string, publish: nat, p: string)
    ensures AsMessages(Forwards(n, targets + [p], topic, publish))
            == AsMessages(Forwards(n, targets, topic, publish)) + multiset{PublishForward(Forward(n, p, topic, publish))}
  {
    var fs := Forwards(n, targets + [p], topic, publish);
    assert fs[..|fs| - 1] == Forwards(n, targets, topic, publish);
  }
}
