/**
 The other nodes in the routes of a core node: pkg/mria/integration.go.

 A route should list another node exactly when one of that node's clients is subscribed to the filter.  The code adds
 and removes nodes change by change and never looks at the remaining subscriptions; the lemmas say, for every event,
 exactly when that is right.
 */
module RemoteRoutes {
  import opened Common
  import opened Replication
  import opened RouteTable

  /** A client of the node is subscribed to the filter. */
  ghost predicate HasSubscription(t: map<string, Subscription>, f: string, x: string) {
    exists k <- t :: t[k].topicFilter == f && t[k].nodeID == x
  }

  /** Another node is in a route exactly when one of its clients is subscribed. */
  ghost predicate RemoteListed(n: Node) {
    forall f, x :: x != n.nodeID ==> (x in RouteOf(n, f) <==> HasSubscription(n.replica.tables.subscriptions, f, x))
  }

  /**
   After a replicated subscription change: its own node is listed as the change says, and a node whose row the change
   has overwritten stays listed.
   */
  ghost predicate ChangeIsWhole(n: Node, e: Entry) {
    var was, t := n.replica.tables.subscriptions, ApplyTables(n.replica.tables, e).subscriptions;
    var s := DecodeSubscription(e.data);
    var key := SubscriptionKey(s.clientID, s.topicFilter);
    && (s.nodeID != n.nodeID ==> (HasSubscription(t, s.topicFilter, s.nodeID) <==> e.operation != Delete))
    && (key in was && was[key].nodeID != n.nodeID
        && (was[key].topicFilter != s.topicFilter || was[key].nodeID != s.nodeID)
        ==> HasSubscription(t, was[key].topicFilter, was[key].nodeID))
  }

  /**
   A replicated subscription change keeps the routes of other nodes right exactly when it is whole: a withdrawal must be
   the last subscription of its node to the filter, because the code takes the node off the route without looking for
   another one.
   */
  lemma RemoteListedIff(s: Site, e: Entry, now: Stamp)
    requires WellKeyed(s.node.replica.tables) && RemoteListed(s.node) && e.table.Subscriptions?
    ensures RemoteListed(Receive(s, e, now).node) <==> ChangeIsWhole(s.node, e)
  {
    var n, m, sub := s.node, Receive(s, e, now).node, DecodeSubscription(e.data);
    var was, t := n.replica.tables.subscriptions, ApplyTables(n.replica.tables, e).subscriptions;
    var key := SubscriptionKey(sub.clientID, sub.topicFilter);
    ReceivedRoutes(s, e, now);
    forall f, x | x != n.nodeID
      ensures (f, x) != (sub.topicFilter, sub.nodeID) ==>
                ((x in RouteOf(m, f) <==> HasSubscription(t, f, x))
                 <==> !(key in was && (f, x) == (was[key].topicFilter, was[key].nodeID)) || HasSubscription(t, f, x))
      ensures (f, x) == (sub.topicFilter, sub.nodeID) ==>
                ((x in RouteOf(m, f) <==> HasSubscription(t, f, x))
                 <==> (HasSubscription(t, f, x) <==> e.operation != Delete))
    {
      if (f, x) != (sub.topicFilter, sub.nodeID) {
        OtherSubscriptions(n.replica.tables, e, f, x);
        assert x in RouteOf(n, f) <==> HasSubscription(was, f, x);
      }
    }
    hide Receive, RouteOf, HasSubscription, ApplyTables;
    if !ChangeIsWhole(n, e) {
      var ofEntry := sub.nodeID != n.nodeID
                     && !(HasSubscription(t, sub.topicFilter, sub.nodeID) <==> e.operation != Delete);
      var f := if ofEntry then sub.topicFilter else was[key].topicFilter;
      var x := if ofEntry then sub.nodeID else was[key].nodeID;
      assert !(x in RouteOf(m, f) <==> HasSubscription(t, f, x));
    }
  }

  /** An entry changes, of all pairs of filter and node, its own and the one whose row it overwrites. */
  lemma OtherSubscriptions(t: Tables, e: Entry, f: string, x: string)
    requires e.table.Subscriptions? && (f, x) != (e.data.topicFilter, e.data.nodeID)
    ensures var was, now := t.subscriptions, ApplyTables(t, e).subscriptions;
            var key := SubscriptionKey(e.data.clientID, e.data.topicFilter);
            && (HasSubscription(now, f, x) ==> HasSubscription(was, f, x))
            && (key in was && (f, x) == (was[key].topicFilter, was[key].nodeID) ==> HasSubscription(was, f, x))
            && (!(key in was && (f, x) == (was[key].topicFilter, was[key].nodeID)) && HasSubscription(was, f, x)
                ==> HasSubscription(now, f, x))
  {
    var was, now := t.subscriptions, ApplyTables(t, e).subscriptions;
    var key := SubscriptionKey(e.data.clientID, e.data.topicFilter);
    if HasSubscription(was, f, x) && !(key in was && (f, x) == (was[key].topicFilter, was[key].nodeID)) {
      var k :| k in was && was[k].topicFilter == f && was[k].nodeID == x;
      assert k in now && now[k] == was[k];
    }
    if HasSubscription(now, f, x) {
      var k :| k in now && now[k].topicFilter == f && now[k].nodeID == x;
      assert k in was && was[k] == now[k];
    }
  }

  lemma ReceivedRoutes(s: Site, e: Entry, now: Stamp)
    requires WellKeyed(s.node.replica.tables) && e.table.Subscriptions?
    ensures var n, m, sub := s.node, Receive(s, e, now).node, DecodeSubscription(e.data);
            && m.nodeID == n.nodeID
            && m.replica.tables.subscriptions == ApplyTables(n.replica.tables, e).subscriptions
            && (forall f, x :: x != n.nodeID && (f, x) != (sub.topicFilter, sub.nodeID)
                               ==> (x in RouteOf(m, f) <==> x in RouteOf(n, f)))
            && (sub.nodeID != n.nodeID ==> (sub.nodeID in RouteOf(m, sub.topicFilter) <==> e.operation != Delete))
  {
    var sub := DecodeSubscription(e.data);
    var a := s.node.(replica := Apply(s.node.replica, e));
    ApplyKeepsKeys(s.node.replica.tables, e);
    assert forall f :: RouteOf(a, f) == RouteOf(s.node, f);
    RemoteRouteFacts(a, sub.topicFilter, sub.nodeID, e.operation != Delete, now);
    hide RemoteRoute, RouteOf, WellKeyed, ApplyTables;
  }

  // ----- Every other event -----

  /** Who else is listed in which route is the same in both. */
  ghost predicate OthersListedAlike(n: Node, m: Node) {
    m.nodeID == n.nodeID && forall f, x :: x != n.nodeID ==> (x in RouteOf(m, f) <==> x in RouteOf(n, f))
  }

  /** A row is taken away from another node: that node must have another subscription to the filter. */
  ghost predicate SpareRow(own: string, was: map<string, Subscription>, key: string) {
    key in was && was[key].nodeID != own ==> HasSubscription(was - {key}, was[key].topicFilter, was[key].nodeID)
  }

  /** A row is withdrawn for another node: it must have been that node's last subscription to the filter. */
  ghost predicate LastRow(own: string, was: map<string, Subscription>, key: string) {
    key in was && was[key].nodeID != own ==> !HasSubscription(was - {key}, was[key].topicFilter, was[key].nodeID)
  }

  /** The route lists exactly the other nodes that have a subscription to the filter. */
  ghost predicate ListsSubscribers(n: Node, f: string, nodeIDs: seq<string>) {
    forall x :: x != n.nodeID ==> (x in nodeIDs <==> HasSubscription(n.replica.tables.subscriptions, f, x))
  }

  ghost predicate RouteIsWhole(n: Node, e: Entry) {
    match e.operation
    case Delete => ListsSubscribers(n, e.data.topicFilter, [])
    case OtherOperation(_) => true
    case _ => ListsSubscribers(n, e.data.topicFilter, e.data.nodeIDs)
  }

  predicate RowOf(t: map<string, Subscription>, k: string, f: string, x: string) {
    k in t && t[k].topicFilter == f && t[k].nodeID == x
  }

  /** For every filter the walk covers all subscriptions of the departed node, or none of them and not the route either. */
  ghost predicate WalkIsWhole(t: map<string, Subscription>, gone: string, w: Walk) {
    forall f :: HasSubscription(t, f, gone) ==>
                  || (forall k <- t :: RowOf(t, k, f, gone) ==> k in w.subscriptions)
                  || (f !in w.routes && forall k <- t :: RowOf(t, k, f, gone) ==> k !in w.subscriptions)
  }

  /** The exact condition for each event. */
  ghost predicate RemoteBenign(n: Node, e: Event) {
    var t := n.replica.tables.subscriptions;
    match e
    case SubscribeEvent(c, f, _, _) => SpareRow(n.nodeID, t, SubscriptionKey(c, f))
    case UnsubscribeEvent(c, f, _) => LastRow(n.nodeID, t, SubscriptionKey(c, f))
    case ReceiveEvent(entry, _) =>
      (entry.table.Subscriptions? ==> ChangeIsWhole(n, entry)) && (entry.table.Routes? ==> RouteIsWhole(n, entry))
    case CleanupEvent(gone, w, _) => gone != n.nodeID ==> WalkIsWhole(t, gone, w)
    case _ => true
  }

  /** Subscriptions of a table without one row. */
  lemma WithoutRow(t: map<string, Subscription>, key: string, f: string, x: string)
    ensures HasSubscription(t - {key}, f, x) ==> HasSubscription(t, f, x)
    ensures HasSubscription(t, f, x) && !RowOf(t, key, f, x) ==> HasSubscription(t - {key}, f, x)
  {
    if HasSubscription(t, f, x) && !RowOf(t, key, f, x) {
      var k :| k in t && t[k].topicFilter == f && t[k].nodeID == x;
      assert k in t - {key};
    }
  }

  /** Putting a row of the node itself in place of another leaves, of the other nodes, what is left without that row. */
  lemma WithOwnRow(t: map<string, Subscription>, key: string, row: Subscription, f: string, x: string)
    requires row.nodeID != x
    ensures HasSubscription(t[key := row], f, x) <==> HasSubscription(t - {key}, f, x)
  {
    if HasSubscription(t[key := row], f, x) {
      var k :| k in t[key := row] && t[key := row][k].topicFilter == f && t[key := row][k].nodeID == x;
      assert k in t - {key};
    }
    if HasSubscription(t - {key}, f, x) {
      var k :| k in t - {key} && (t - {key})[k].topicFilter == f && (t - {key})[k].nodeID == x;
      assert k in t[key := row];
    }
  }

  lemma RefreshLeavesOthers(s: Site, f: string, now: Stamp)
    requires WellKeyed(s.node.replica.tables)
    ensures var m := RefreshRoute(s, f, now).node;
            OthersListedAlike(s.node, m) && m.replica.tables.subscriptions == s.node.replica.tables.subscriptions
  {
    var others := Without(RouteOf(s.node, f), s.node.nodeID);
    WithoutFacts(RouteOf(s.node, f), s.node.nodeID);
    UpdateRouteFacts(s.node, f, if f in s.local && |s.local[f]| > 0 then [s.node.nodeID] + others else others, now);
    hide Execute, WellKeyed, Without, Distinct;
  }

  lemma SubscribeIff(s: Site, c: string, f: string, qos: int, now: Stamp)
    requires WellKeyed(s.node.replica.tables) && RemoteListed(s.node)
    ensures RemoteListed(Subscribe(s, c, f, qos, now).node)
            <==> SpareRow(s.node.nodeID, s.node.replica.tables.subscriptions, SubscriptionKey(c, f))
  {
    var n, key := s.node, SubscriptionKey(c, f);
    var was, row := n.replica.tables.subscriptions, Subscription(c, f, qos, n.nodeID);
    var a := Execute(n, AddSubscription(c, f, qos), now);
    OtherTableFacts(n, AddSubscription(c, f, qos), now);
    assert a.replica.tables.subscriptions == was[key := row];
    assert forall g :: RouteOf(a, g) == RouteOf(n, g);
    RefreshLeavesOthers(Site(AddClient(s.local, c, f), a), f, now);
    var m := Subscribe(s, c, f, qos, now).node;
    assert OthersListedAlike(n, m) && m.replica.tables.subscriptions == was[key := row];
    hide Subscribe, Execute, WellKeyed, RouteOf, AddClient;
    OverwriteIff(n, m, key, row);
  }

  lemma OverwriteIff(n: Node, m: Node, key: string, row: Subscription)
    requires RemoteListed(n) && OthersListedAlike(n, m) && row.nodeID == n.nodeID
    requires m.replica.tables.subscriptions == n.replica.tables.subscriptions[key := row]
    ensures RemoteListed(m) <==> SpareRow(n.nodeID, n.replica.tables.subscriptions, key)
  {
    var was := n.replica.tables.subscriptions;
    forall g, x | x != n.nodeID
      ensures (x in RouteOf(m, g) <==> HasSubscription(was[key := row], g, x))
              <==> (RowOf(was, key, g, x) ==> HasSubscription(was - {key}, g, x))
    {
      WithOwnRow(was, key, row, g, x);
      WithoutRow(was, key, g, x);
      assert RowOf(was, key, g, x) ==> HasSubscription(was, g, x);
      assert x in RouteOf(n, g) <==> HasSubscription(was, g, x);
    }
    hide RouteOf, HasSubscription;
    if key in was && was[key].nodeID != n.nodeID {
      var g, x := was[key].topicFilter, was[key].nodeID;
      assert RowOf(was, key, g, x);
      assert RemoteListed(m) ==> (x in RouteOf(m, g) <==> HasSubscription(was[key := row], g, x));
    }
  }

  lemma UnsubscribeIff(s: Site, c: string, f: string, now: Stamp)
    requires WellKeyed(s.node.replica.tables) && RemoteListed(s.node)
    ensures RemoteListed(Unsubscribe(s, c, f, now).node)
            <==> LastRow(s.node.nodeID, s.node.replica.tables.subscriptions, SubscriptionKey(c, f))
  {
    var n, key := s.node, SubscriptionKey(c, f);
    var was, a := n.replica.tables.subscriptions, RemoveWithCallback(n, c, f, now);
    RemovedRoutes(n, c, f, now);
    RefreshLeavesOthers(Site(DropClient(s.local, c, f), a), f, now);
    var m := Unsubscribe(s, c, f, now).node;
    assert OthersListedAlike(a, m) && m.replica.tables.subscriptions == was - {key};
    hide Unsubscribe, RemoveWithCallback, WellKeyed, RouteOf, DropClient;
    WithdrawIff(n, m, key);
  }

  /** A withdrawal takes the row's node off the row's filter, and nobody else off anything. */
  ghost predicate TakenOff(n: Node, m: Node, key: string) {
    var was := n.replica.tables.subscriptions;
    && m.nodeID == n.nodeID && m.replica.tables.subscriptions == was - {key}
    && forall g, x :: x != n.nodeID ==> (x in RouteOf(m, g) <==> x in RouteOf(n, g) && !RowOf(was, key, g, x))
  }

  lemma RemovedRoutes(n: Node, c: string, f: string, now: Stamp)
    requires WellKeyed(n.replica.tables)
    ensures var m := RemoveWithCallback(n, c, f, now); WellKeyed(m.replica.tables) && TakenOff(n, m, SubscriptionKey(c, f))
  {
    var key, was := SubscriptionKey(c, f), n.replica.tables.subscriptions;
    RemoveFacts(n, c, f, now);
    if key in was {
      var a := Execute(n, RemoveSubscription(c, f), now);
      OtherTableFacts(n, RemoveSubscription(c, f), now);
      assert forall g :: RouteOf(a, g) == RouteOf(n, g);
      RemoteRouteFacts(a, was[key].topicFilter, was[key].nodeID, false, now);
      hide RemoteRoute, RouteOf, WellKeyed, Execute, Distinct;
    }
  }

  lemma WithdrawIff(n: Node, m: Node, key: string)
    requires RemoteListed(n) && TakenOff(n, m, key)
    ensures RemoteListed(m) <==> LastRow(n.nodeID, n.replica.tables.subscriptions, key)
  {
    var was := n.replica.tables.subscriptions;
    forall g, x | x != n.nodeID
      ensures (x in RouteOf(m, g) <==> HasSubscription(was - {key}, g, x))
              <==> (RowOf(was, key, g, x) ==> !HasSubscription(was - {key}, g, x))
    {
      WithoutRow(was, key, g, x);
      assert x in RouteOf(n, g) <==> HasSubscription(was, g, x);
    }
    hide RouteOf, HasSubscription;
    if key in was && was[key].nodeID != n.nodeID {
      var g, x := was[key].topicFilter, was[key].nodeID;
      assert RowOf(was, key, g, x);
      assert RemoteListed(m) ==> (x in RouteOf(m, g) <==> HasSubscription(was - {key}, g, x));
    }
  }

  lemma ReceiveRouteListedIff(s: Site, e: Entry, now: Stamp)
    requires RemoteListed(s.node) && e.table.Routes?
    ensures RemoteListed(Receive(s, e, now).node) <==> RouteIsWhole(s.node, e)
  {
    var n, m, f := s.node, Receive(s, e, now).node, e.data.topicFilter;
    var t := n.replica.tables.subscriptions;
    assert m.nodeID == n.nodeID && m.replica.tables.subscriptions == t;
    assert forall g :: g != f ==> RouteOf(m, g) == RouteOf(n, g);
    var ids := match e.operation
               case Delete => []
               case OtherOperation(_) => RouteOf(n, f)
               case _ => e.data.nodeIDs;
    assert RouteOf(m, f) == ids;
    hide Receive, RouteOf, HasSubscription;
    assert ListsSubscribers(n, f, RouteOf(n, f));
    assert RemoteListed(m) <==> ListsSubscribers(n, f, ids) by {
      if RemoteListed(m) {
        forall x | x != n.nodeID ensures x in ids <==> HasSubscription(t, f, x) { assert x in RouteOf(m, f) <==> HasSubscription(t, f, x); }
      }
      if ListsSubscribers(n, f, ids) {
        forall g, x | x != n.nodeID ensures x in RouteOf(m, g) <==> HasSubscription(t, g, x) {
          assert x in RouteOf(n, g) <==> HasSubscription(t, g, x);
        }
      }
    }
  }

  // ----- Cleanup -----

  function Remaining(t: map<string, Subscription>, gone: string, order: seq<string>): map<string, Subscription> {
    map k | k in t && !(t[k].nodeID == gone && k in order) :: t[k]
  }

  /** The walk has come across a subscription of the node to the filter. */
  ghost predicate Walked(t: map<string, Subscription>, order: seq<string>, f: string, gone: string) {
    exists k <- order :: RowOf(t, k, f, gone)
  }

  ghost predicate WalkedOff(n: Node, m: Node, gone: string, order: seq<string>) {
    var t := n.replica.tables.subscriptions;
    && m.nodeID == n.nodeID && m.replica.tables.subscriptions == Remaining(t, gone, order)
    && forall g, x :: x != n.nodeID ==> (x in RouteOf(m, g) <==> x in RouteOf(n, g) && !(x == gone && Walked(t, order, g, gone)))
  }

  lemma {:induction false} WalkTakesOff(n: Node, gone: string, order: seq<string>, now: Stamp)
    requires WellKeyed(n.replica.tables)
    ensures var m := CleanSubscriptions(n, gone, order, now);
            WellKeyed(m.replica.tables) && WalkedOff(n, m, gone, order)
  {
    var t := n.replica.tables.subscriptions;
    if order == [] {
      assert Remaining(t, gone, []) == t;
    } else {
      var front, key := order[..|order| - 1], order[|order| - 1];
      assert order == front + [key];
      WalkTakesOff(n, gone, front, now);
      var m := CleanSubscriptions(n, gone, front, now);
      var u, v := m.replica.tables.subscriptions, CleanSubscription(m, gone, key, now);
      if key in u && u[key].nodeID == gone {
        assert key == SubscriptionKey(u[key].clientID, u[key].topicFilter);
        RemovedRoutes(m, u[key].clientID, u[key].topicFilter, now);
        hide CleanSubscriptions, RemoveWithCallback, WellKeyed, RouteOf;
        WalkOneMore(n, m, v, gone, front, key);
      } else {
        hide CleanSubscriptions, WellKeyed, RouteOf;
        WalkNoMore(n, m, gone, front, key);
      }
    }
  }

  lemma WalkOneMore(n: Node, m: Node, v: Node, gone: string, front: seq<string>, key: string)
    requires WalkedOff(n, m, gone, front) && TakenOff(m, v, key)
    requires key in m.replica.tables.subscriptions && m.replica.tables.subscriptions[key].nodeID == gone
    ensures WalkedOff(n, v, gone, front + [key])
  {
    var t, u := n.replica.tables.subscriptions, m.replica.tables.subscriptions;
    assert Remaining(t, gone, front) - {key} == Remaining(t, gone, front + [key]);
    hide RouteOf;
    forall g ensures Walked(t, front + [key], g, gone) <==> Walked(t, front, g, gone) || RowOf(u, key, g, gone) {
      WalkedAppend(t, front, key, g, gone);
      assert u[key] == t[key];
    }
  }

  lemma WalkedAppend(t: map<string, Subscription>, front: seq<string>, key: string, f: string, gone: string)
    ensures Walked(t, front + [key], f, gone) <==> Walked(t, front, f, gone) || RowOf(t, key, f, gone)
  {
    assert forall k :: k in front + [key] <==> k in front || k == key;
  }

  lemma WalkNoMore(n: Node, m: Node, gone: string, front: seq<string>, key: string)
    requires WalkedOff(n, m, gone, front)
    requires !(key in m.replica.tables.subscriptions && m.replica.tables.subscriptions[key].nodeID == gone)
    ensures WalkedOff(n, m, gone, front + [key])
  {
    var t := n.replica.tables.subscriptions;
    assert Remaining(t, gone, front) == Remaining(t, gone, front + [key]);
    hide RouteOf;
    forall g ensures Walked(t, front + [key], g, gone) <==> Walked(t, front, g, gone) {
      WalkedAppend(t, front, key, g, gone);
      if RowOf(t, key, g, gone) {
        assert key in front;
      }
    }
  }

  lemma RemainingRows(t: map<string, Subscription>, gone: string, order: seq<string>, f: string, x: string)
    ensures x != gone ==> (HasSubscription(Remaining(t, gone, order), f, x) <==> HasSubscription(t, f, x))
    ensures HasSubscription(Remaining(t, gone, order), f, gone) <==> exists k <- t :: RowOf(t, k, f, gone) && k !in order
  {
    var u := Remaining(t, gone, order);
    if HasSubscription(t, f, x) && x != gone {
      var k :| k in t && t[k].topicFilter == f && t[k].nodeID == x;
      assert k in u && u[k] == t[k];
    }
    if k :| k in t && RowOf(t, k, f, gone) && k !in order {
      assert k in u && u[k] == t[k];
    }
    if HasSubscription(u, f, gone) {
      var k :| k in u && u[k].topicFilter == f && u[k].nodeID == gone;
      assert k in t && RowOf(t, k, f, gone) && k !in order;
    }
  }

  /** Listed and subscribed agree for the departed node and one filter after the walks. */
  lemma WholeForFilter(t: map<string, Subscription>, gone: string, w: Walk, f: string)
    ensures (HasSubscription(t, f, gone) && f !in w.routes && !Walked(t, w.subscriptions, f, gone)
             <==> HasSubscription(Remaining(t, gone, w.subscriptions), f, gone))
            <==> (HasSubscription(t, f, gone) ==>
                    || (forall k <- t :: RowOf(t, k, f, gone) ==> k in w.subscriptions)
                    || (f !in w.routes && forall k <- t :: RowOf(t, k, f, gone) ==> k !in w.subscriptions))
  {
    RemainingRows(t, gone, w.subscriptions, f, gone);
    assert HasSubscription(t, f, gone) <==> exists k <- t :: RowOf(t, k, f, gone);
    assert Walked(t, w.subscriptions, f, gone) <==> exists k <- t :: RowOf(t, k, f, gone) && k in w.subscriptions;
    hide HasSubscription, Walked, Remaining;
  }

  lemma CleanupListedIff(n: Node, gone: string, w: Walk, now: Stamp)
    requires WellKeyed(n.replica.tables) && RemoteListed(n)
    ensures RemoteListed(Cleanup(n, gone, w, now))
            <==> (gone != n.nodeID ==> WalkIsWhole(n.replica.tables.subscriptions, gone, w))
  {
    var t, m := n.replica.tables.subscriptions, Cleanup(n, gone, w, now);
    CleanedRoutes(n, gone, w, now);
    hide Cleanup, WellKeyed, RouteOf;
    forall f, x | x != n.nodeID
      ensures x != gone ==> (x in RouteOf(m, f) <==> HasSubscription(m.replica.tables.subscriptions, f, x))
      ensures x == gone ==>
                ((x in RouteOf(m, f) <==> HasSubscription(m.replica.tables.subscriptions, f, x))
                 <==> (HasSubscription(t, f, gone) ==>
                         || (forall k <- t :: RowOf(t, k, f, gone) ==> k in w.subscriptions)
                         || (f !in w.routes && forall k <- t :: RowOf(t, k, f, gone) ==> k !in w.subscriptions)))
    {
      assert x in RouteOf(n, f) <==> HasSubscription(t, f, x);
      RemainingRows(t, gone, w.subscriptions, f, x);
      WholeForFilter(t, gone, w, f);
    }
    hide HasSubscription, RowOf;
    if RemoteListed(m) && gone != n.nodeID {
      forall f | HasSubscription(t, f, gone)
        ensures (forall k <- t :: RowOf(t, k, f, gone) ==> k in w.subscriptions)
                || (f !in w.routes && forall k <- t :: RowOf(t, k, f, gone) ==> k !in w.subscriptions)
      {
        assert gone in RouteOf(m, f) <==> HasSubscription(m.replica.tables.subscriptions, f, gone);
      }
    }
  }

  lemma CleanedRoutes(n: Node, gone: string, w: Walk, now: Stamp)
    requires WellKeyed(n.replica.tables)
    ensures var t, m := n.replica.tables.subscriptions, Cleanup(n, gone, w, now);
            && m.nodeID == n.nodeID && m.replica.tables.subscriptions == Remaining(t, gone, w.subscriptions)
            && forall f, x :: x != n.nodeID ==>
                 (x in RouteOf(m, f)
                  <==> x in RouteOf(n, f) && !(x == gone && (f in w.routes || Walked(t, w.subscriptions, f, gone))))
  {
    hide CleanRoutes, CleanSessions, CleanSubscriptions, WellKeyed, Distinct, Remaining, Walked;
    var a := CleanRoutes(n, gone, w.routes, now);
    CleanRoutesMembers(n, gone, w.routes, now);
    var b := CleanSessions(a, gone, w.sessions, now);
    SessionsLeaveRoutes(a, gone, w.sessions, now);
    WalkTakesOff(b, gone, w.subscriptions, now);
    hide RouteOf;
  }

  lemma {:induction false} SessionsLeaveRoutes(n: Node, gone: string, order: seq<string>, now: Stamp)
    requires WellKeyed(n.replica.tables)
    ensures var m := CleanSessions(n, gone, order, now);
            && m.nodeID == n.nodeID && WellKeyed(m.replica.tables) && m.replica.tables.routes == n.replica.tables.routes
            && m.replica.tables.subscriptions == n.replica.tables.subscriptions
  {
    if order != [] {
      var front, c := order[..|order| - 1], order[|order| - 1];
      SessionsLeaveRoutes(n, gone, front, now);
      OtherTableFacts(CleanSessions(n, gone, front, now), RemoveSession(c), now);
    }
  }

  /** A walk of whole maps, as the code makes it, is always right. */
  lemma CoveringWalkIsWhole(n: Node, gone: string, w: Walk)
    requires Covers(w, n.replica.tables)
    ensures WalkIsWhole(n.replica.tables.subscriptions, gone, w)
  {
  }

  // ----- Runs -----

  /** From a state where it holds, an event keeps other nodes listed exactly by their subscriptions iff it is benign. */
  lemma StepListedIff(s: Site, e: Event)
    requires WellKeyed(s.node.replica.tables) && RemoteListed(s.node)
    ensures RemoteListed(RouteTable.Step(s, e).node) <==> RemoteBenign(s.node, e)
  {
    match e {
      case SubscribeEvent(c, f, qos, now) => SubscribeIff(s, c, f, qos, now);
      case UnsubscribeEvent(c, f, now) => UnsubscribeIff(s, c, f, now);
      case ReceiveEvent(entry, now) => ReceiveListedIff(s, entry, now);
      case CleanupEvent(gone, w, now) => CleanupListedIff(s.node, gone, w, now);
      case SessionEvent(c, connected, clean, expiry, now) =>
        OtherTableFacts(s.node, AddSession(c, connected, clean, expiry), now);
        SameTablesListed(s.node, Execute(s.node, AddSession(c, connected, clean, expiry), now));
      case ProcessEvent => SameTablesListed(s.node, Drain(s.node));
    }
  }

  lemma SameTablesListed(n: Node, m: Node)
    requires RemoteListed(n) && m.nodeID == n.nodeID && m.replica.tables.routes == n.replica.tables.routes
    requires m.replica.tables.subscriptions == n.replica.tables.subscriptions
    ensures RemoteListed(m)
  {
    assert forall f :: RouteOf(m, f) == RouteOf(n, f);
    hide RouteOf;
    forall f, x | x != m.nodeID
      ensures x in RouteOf(m, f) <==> HasSubscription(m.replica.tables.subscriptions, f, x)
    {
      assert x in RouteOf(n, f) <==> HasSubscription(n.replica.tables.subscriptions, f, x);
    }
  }

  lemma ReceiveListedIff(s: Site, e: Entry, now: Stamp)
    requires WellKeyed(s.node.replica.tables) && RemoteListed(s.node)
    ensures RemoteListed(Receive(s, e, now).node)
            <==> (e.table.Subscriptions? ==> ChangeIsWhole(s.node, e)) && (e.table.Routes? ==> RouteIsWhole(s.node, e))
  {
    if e.table.Subscriptions? {
      RemoteListedIff(s, e, now);
    } else if e.table.Routes? {
      ReceiveRouteListedIff(s, e, now);
    } else {
      SameTablesListed(s.node, Receive(s, e, now).node);
    }
  }

  ghost predicate RemoteBenignRun(nodeID: string, events: seq<Event>) {
    forall i :: 0 <= i < |events| ==> RemoteBenign(RouteTable.Run(nodeID, events[..i]).node, events[i])
  }

  /**
   In every run of events that are benign in this sense, a route lists another node exactly when one of its clients is
   subscribed; the next event keeps that exactly when it is benign too.
   */
  lemma {:induction false} RoutesTrackRemoteClients(nodeID: string, events: seq<Event>, e: Event)
    requires RemoteBenignRun(nodeID, events)
    ensures RemoteListed(RouteTable.Run(nodeID, events).node)
    ensures var s := RouteTable.Run(nodeID, events);
            RemoteListed(RouteTable.Step(s, e).node) <==> RemoteBenign(s.node, e)
  {
    if events != [] {
      var k := |events| - 1;
      var front := events[..k];
      forall i | 0 <= i < |front| ensures RemoteBenign(RouteTable.Run(nodeID, front[..i]).node, front[i]) {
        assert front[..i] == events[..i] && RemoteBenign(RouteTable.Run(nodeID, events[..i]).node, events[i]);
      }
      assert RemoteBenign(RouteTable.Run(nodeID, front).node, events[k]);
      hide RouteTable.Step, RemoteBenign, RemoteListed;
      RoutesTrackRemoteClients(nodeID, front, events[k]);
    }
    RouteTable.RunKeepsKeys(nodeID, events);
    StepListedIff(RouteTable.Run(nodeID, events), e);
  }

  /** Of two clients of another node with the same filter, the first to withdraw takes the node off the route. */
  lemma SharedFilterBreaks(n: Node, e: Entry, spare: string, now: Stamp)
    requires WellKeyed(n.replica.tables) && RemoteListed(n) && e.table.Subscriptions? && e.operation == Delete
    requires e.data.nodeID != n.nodeID && spare != SubscriptionKey(e.data.clientID, e.data.topicFilter)
    requires RowOf(n.replica.tables.subscriptions, spare, e.data.topicFilter, e.data.nodeID)
    ensures !RemoteBenign(n, ReceiveEvent(e, now))
  {
    var left := ApplyTables(n.replica.tables, e).subscriptions;
    assert spare in left && RowOf(left, spare, e.data.topicFilter, e.data.nodeID);
  }
}
