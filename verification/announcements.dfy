/**
 Who is forwarded what, read off the steps of a cluster run: pkg/cluster/manager.go and pkg/cluster/server.go.

 A node's table of remote subscribers is compared with the announcements that reached it, the announcements on the
 network with the subscribes that sent them, and the forwards of a publish with both.
 */
module Announcements {
  import opened Cluster

  // ----- Peers -----

  predicate Connected(actions: seq<Action>, n: string, p: string) {
    AddPeer(n, p) in actions
  }

  lemma {:induction false} PeersIff(actions: seq<Action>, n: string, p: string)
    ensures p in MemberOf(Run(actions), n).peers <==> Connected(actions, n, p)
  {
    if actions != [] {
      var front, a := actions[..|actions| - 1], actions[|actions| - 1];
      assert actions == front + [a];
      PeersIff(front, n, p);
      PeersStep(Run(front), a, n, p);
      hide Step, MemberOf;
    }
  }

  lemma PeersStep(s: State, a: Action, n: string, p: string)
    ensures p in MemberOf(Step(s, a), n).peers <==> p in MemberOf(s, n).peers || a == AddPeer(n, p)
  {
    hide AddRoutes, PublishedTo, AsMessages, RouteUpdates;
  }

  // ----- Announcements on the network -----

  /** The announcement lists exactly the filters of the subscribe, each with the subscribing node alone. */
  predicate ListsFilters(routes: seq<Route>, n: string, filters: seq<string>) {
    && |routes| == |filters|
    && forall i :: 0 <= i < |filters| ==> routes[i].topic == filters[i] && routes[i].nodeIDs == [n]
  }

  /** The step sends this announcement: its sender subscribes, and the addressee is one of its peers by then. */
  predicate Announces(before: seq<Action>, a: Action, u: Message)
    requires u.RouteUpdate?
  {
    a.Subscribe? && a.n == u.from && ListsFilters(u.routes, u.from, a.filters) && Connected(before, u.from, u.to)
  }

  /** How many copies of an announcement are on their way. */
  function OnTheWay(actions: seq<Action>, u: Message): nat
    requires u.RouteUpdate?
  {
    if actions == [] then 0
    else
      var front, a := actions[..|actions| - 1], actions[|actions| - 1];
      var n := OnTheWay(front, u);
      if Announces(front, a, u) then n + 1
      else if (a.Deliver? || a.Lose?) && a.m == u && n > 0 then n - 1
      else n
  }

  lemma OwnRoutesAreFilters(n: string, filters: seq<string>, routes: seq<Route>)
    ensures routes == OwnRoutes(n, filters) <==> ListsFilters(routes, n, filters)
  {
    if ListsFilters(routes, n, filters) {
      forall i | 0 <= i < |filters| ensures routes[i] == OwnRoutes(n, filters)[i] {
        assert routes[i] == Route(filters[i], [n]);
      }
    }
  }

  lemma UpdateCount(n: string, peers: set<string>, routes: seq<Route>, u: Message)
    requires u.RouteUpdate?
    ensures RouteUpdates(n, peers, routes)[u] == if u.from == n && u.to in peers && u.routes == routes then 1 else 0
  {
    var us := set p <- peers :: RouteUpdate(n, p, routes);
    assert multiset(us)[u] == if u in us then 1 else 0;
    if u.from == n && u.to in peers && u.routes == routes {
      assert u == RouteUpdate(n, u.to, routes);
    }
  }

  lemma NoUpdateAmongForwards(fs: seq<Forward>, u: Message)
    requires u.RouteUpdate?
    ensures AsMessages(fs)[u] == 0
  {
    AsMessagesCounts(fs, Forward("", "", "", 0));
  }

  /** The network holds exactly the announcements sent and not yet delivered or lost. */
  lemma {:induction false} NetworkHoldsAnnouncements(actions: seq<Action>, u: Message)
    requires u.RouteUpdate?
    ensures Run(actions).network[u] == OnTheWay(actions, u)
  {
    if actions != [] {
      var front, a := actions[..|actions| - 1], actions[|actions| - 1];
      NetworkHoldsAnnouncements(front, u);
      NetworkStep(Run(front), a, u);
      if a.Subscribe? {
        PeersIff(front, a.n, u.to);
        OwnRoutesAreFilters(a.n, a.filters, u.routes);
      }
      hide Step, OwnRoutes, ListsFilters, MemberOf;
    }
  }

  lemma NetworkStep(s: State, a: Action, u: Message)
    requires u.RouteUpdate?
    ensures Step(s, a).network[u]
            == if a.Subscribe? && a.n == u.from && u.to in MemberOf(s, a.n).peers
                  && u.routes == OwnRoutes(a.n, a.filters)
               then s.network[u] + 1
               else if (a.Deliver? || a.Lose?) && a.m == u && s.network[u] > 0 then s.network[u] - 1
               else s.network[u]
  {
    hide MemberOf, AddRoutes, RouteUpdates, AsMessages, OwnRoutes;
    if a.Subscribe? {
      UpdateCount(a.n, MemberOf(s, a.n).peers, OwnRoutes(a.n, a.filters), u);
    } else if a.Publish? {
      NoUpdateAmongForwards(PublishedTo(s, a.n, a.topic), u);
    }
  }

  // ----- The table of remote subscribers -----

  /** The announcement names the node under the topic. */
  ghost predicate Names(routes: seq<Route>, topic: string, p: string) {
    exists i :: 0 <= i < |routes| && routes[i].topic == topic && p in routes[i].nodeIDs
  }

  lemma WithSubscriberLists(r: Routes, topic: string, n: string, t: string, p: string)
    ensures p in SubscribersOf(WithSubscriber(r, topic, n), t) <==> p in SubscribersOf(r, t) || (t == topic && p == n)
  {
    assert p in SubscribersOf(r, topic) + [n] <==> p in SubscribersOf(r, topic) || p == n;
  }

  lemma {:induction false} AddNodesLists(r: Routes, topic: string, ns: seq<string>, t: string, p: string)
    ensures p in SubscribersOf(AddNodes(r, topic, ns), t) <==> p in SubscribersOf(r, t) || (t == topic && p in ns)
  {
    if ns != [] {
      var front, last := ns[..|ns| - 1], ns[|ns| - 1];
      assert ns == front + [last];
      AddNodesLists(r, topic, front, t, p);
      WithSubscriberLists(AddNodes(r, topic, front), topic, last, t, p);
      hide SubscribersOf, WithSubscriber;
    }
  }

  lemma NamesAppend(front: seq<Route>, last: Route, topic: string, p: string)
    ensures Names(front + [last], topic, p) <==> Names(front, topic, p) || (last.topic == topic && p in last.nodeIDs)
  {
    var routes := front + [last];
    assert forall i :: 0 <= i < |front| ==> routes[i] == front[i];
    assert routes[|front|] == last;
  }

  lemma {:induction false} AddRoutesLists(r: Routes, routes: seq<Route>, t: string, p: string)
    ensures p in SubscribersOf(AddRoutes(r, routes), t) <==> p in SubscribersOf(r, t) || Names(routes, t, p)
  {
    if routes != [] {
      var front, last := routes[..|routes| - 1], routes[|routes| - 1];
      assert routes == front + [last];
      AddRoutesLists(r, front, t, p);
      AddNodesLists(AddRoutes(r, front), last.topic, last.nodeIDs, t, p);
      NamesAppend(front, last, t, p);
      hide SubscribersOf, AddNodes, Names;
    }
  }

  /** Step k delivers an announcement, still on its way, that names the node under the topic. */
  ghost predicate ArrivesAt(actions: seq<Action>, k: nat, to: string, topic: string, p: string)
    requires k < |actions|
  {
    && actions[k].Deliver? && actions[k].m.RouteUpdate? && actions[k].m.to == to
    && OnTheWay(actions[..k], actions[k].m) > 0 && Names(actions[k].m.routes, topic, p)
  }

  ghost predicate HasArrived(actions: seq<Action>, to: string, topic: string, p: string) {
    exists k :: 0 <= k < |actions| && ArrivesAt(actions, k, to, topic, p)
  }

  lemma HasArrivedAppend(front: seq<Action>, a: Action, to: string, topic: string, p: string)
    ensures HasArrived(front + [a], to, topic, p)
            <==> HasArrived(front, to, topic, p)
                 || (a.Deliver? && a.m.RouteUpdate? && a.m.to == to && OnTheWay(front, a.m) > 0
                     && Names(a.m.routes, topic, p))
  {
    var actions := front + [a];
    assert actions[..|front|] == front && actions[|front|] == a;
    forall k | 0 <= k < |front| ensures ArrivesAt(actions, k, to, topic, p) <==> ArrivesAt(front, k, to, topic, p) {
      assert actions[..k] == front[..k];
    }
    if HasArrived(front, to, topic, p) {
      var k :| 0 <= k < |front| && ArrivesAt(front, k, to, topic, p);
      assert ArrivesAt(actions, k, to, topic, p);
    }
    assert ArrivesAt(actions, |front|, to, topic, p)
        <==> a.Deliver? && a.m.RouteUpdate? && a.m.to == to && OnTheWay(front, a.m) > 0 && Names(a.m.routes, topic, p);
  }

  lemma ListedStep(s: State, a: Action, to: string, topic: string, p: string)
    ensures p in SubscribersOf(MemberOf(Step(s, a), to).remoteRoutes, topic)
            <==> p in SubscribersOf(MemberOf(s, to).remoteRoutes, topic)
                 || (a.Deliver? && a.m.RouteUpdate? && a.m.to == to && a.m in s.network && Names(a.m.routes, topic, p))
  {
    hide AddRoutes, RouteUpdates, AsMessages, PublishedTo, Names, SubscribersOf;
    if a.Deliver? && a.m.RouteUpdate? && a.m in s.network {
      AddRoutesLists(MemberOf(s, a.m.to).remoteRoutes, a.m.routes, topic, p);
    }
  }

  /** In every run a node lists another under a topic exactly when an announcement that says so was delivered to it. */
  lemma {:induction false} ListedIff(actions: seq<Action>, to: string, topic: string, p: string)
    ensures p in SubscribersOf(MemberOf(Run(actions), to).remoteRoutes, topic) <==> HasArrived(actions, to, topic, p)
  {
    if actions != [] {
      var front, a := actions[..|actions| - 1], actions[|actions| - 1];
      assert actions == front + [a];
      ListedIff(front, to, topic, p);
      ListedStep(Run(front), a, to, topic, p);
      HasArrivedAppend(front, a, to, topic, p);
      if a.Deliver? && a.m.RouteUpdate? {
        NetworkHoldsAnnouncements(front, a.m);
      }
      hide Step, MemberOf, SubscribersOf, HasArrived, Names, OnTheWay;
    }
  }

  // ----- Forwards -----

  /** How many publishes there were; the next one gets this number. */
  function Publishes(actions: seq<Action>): nat {
    if actions == [] then 0
    else Publishes(actions[..|actions| - 1]) + if actions[|actions| - 1].Publish? then 1 else 0
  }

  lemma {:induction false} OriginsArePublishes(actions: seq<Action>)
    ensures |Run(actions).origins| == Publishes(actions)
  {
    if actions != [] {
      OriginsArePublishes(actions[..|actions| - 1]);
    }
  }

  lemma {:induction false} DistinctCount<T>(s: seq<T>, x: T)
    requires Distinct(s)
    ensures multiset(s)[x] == if x in s then 1 else 0
  {
    if s != [] {
      var front, last := s[..|s| - 1], s[|s| - 1];
      assert s == front + [last];
      DistinctCount(front, x);
      if x == last {
        assert x !in front;
      }
    }
  }

  lemma PublishedOnce(s: State, n: string, topic: string, p: string)
    requires Good(s)
    ensures var f := Forward(n, p, topic, |s.origins|); var m := MemberOf(s, n);
            multiset(PublishedTo(s, n, topic))[f]
            == if p != n && p in m.peers && p in SubscribersOf(m.remoteRoutes, topic) then 1 else 0
  {
    var fs, f := PublishedTo(s, n, topic), Forward(n, p, topic, |s.origins|);
    PublishReachesEverySubscriber(s, n, topic, p);
    PublishedToGood(s, n, topic);
    hide PublishedTo, Good, MemberOf, SubscribersOf;
    assert Distinct(fs);
    DistinctCount(fs, f);
    assert f in fs <==> exists i :: 0 <= i < |fs| && fs[i] == f;
  }

  lemma NewForward(s: State, f: Forward)
    requires Good(s) && f.publish == |s.origins|
    ensures multiset(s.sent)[f] == 0
  {
    assert forall i :: 0 <= i < |s.sent| ==> ForwardGood(s, s.sent[i]) && s.sent[i] != f;
    assert f !in s.sent;
  }

  /**
   After every run, a publish is forwarded exactly once to each other node that is a connected peer and whose
   announcement of exactly that topic has been delivered, and not at all to any other node.
   */
  lemma ForwardedExactlyOnce(actions: seq<Action>, n: string, topic: string, p: string)
    ensures multiset(Run(actions + [Publish(n, topic)]).sent)[Forward(n, p, topic, Publishes(actions))]
            == if p != n && Connected(actions, n, p) && HasArrived(actions, n, topic, p) then 1 else 0
  {
    var s, f := Run(actions), Forward(n, p, topic, Publishes(actions));
    assert (actions + [Publish(n, topic)])[..|actions|] == actions;
    assert Run(actions + [Publish(n, topic)]).sent == s.sent + PublishedTo(s, n, topic);
    hide *;
    OriginsArePublishes(actions);
    RunIsGood(actions);
    PublishedOnce(s, n, topic, p);
    NewForward(s, f);
    PeersIff(actions, n, p);
    ListedIff(actions, n, topic, p);
  }
}
