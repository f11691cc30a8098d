/**
 The cluster route table of a core node: pkg/mria/integration.go on top of the replication manager.

 `local` maps a filter to the local clients subscribed to it.  The replicated route of a filter lists the nodes with
 subscribers.  The callback of the replication manager (handleSubscriptionChange) is part of every step that triggers it.
 */
module RouteTable {
  import opened Common
  import opened Replication

  datatype Site = Site(local: map<string, seq<string>>, node: Node)

  function NewSite(nodeID: string): Site {
    Site(map[], NewNode(nodeID, CoreNode))
  }

  function RouteOf(n: Node, f: string): seq<string> {
    if f in n.replica.tables.routes then n.replica.tables.routes[f].nodeIDs else []
  }

  function Without(s: seq<string>, x: string): seq<string> {
    if s == [] then [] else Without(s[..|s| - 1], x) + (if s[|s| - 1] != x then [s[|s| - 1]] else [])
  }

  // ----- Route updates -----

  /** updateClusterRoute: this node first, if it has local clients, then the other nodes as they were. */
  function RefreshRoute(s: Site, f: string, now: Stamp): Site {
    var others := Without(RouteOf(s.node, f), s.node.nodeID);
    var nodeIDs := if f in s.local && |s.local[f]| > 0 then [s.node.nodeID] + others else others;
    s.(node := Execute(s.node, UpdateRoute(f, nodeIDs), now))
  }

  /** updateRemoteRoute: a node announces, or withdraws, a filter. */
  function RemoteRoute(n: Node, f: string, nodeID: string, add: bool, now: Stamp): Node {
    if f !in n.replica.tables.routes then
      if add then Execute(n, UpdateRoute(f, [nodeID]), now) else n
    else
      var ids := RouteOf(n, f);
      Execute(n, UpdateRoute(f, if !add then Without(ids, nodeID) else if nodeID in ids then ids else ids + [nodeID]), now)
  }

  /** handleSubscriptionChange: only changes of other nodes touch the route. */
  function OnSubscriptionChange(n: Node, s: Subscription, op: Operation, now: Stamp): Node {
    if s.nodeID != n.nodeID then RemoteRoute(n, s.topicFilter, s.nodeID, op != Delete, now) else n
  }

  function RemoveWithCallback(n: Node, clientID: string, f: string, now: Stamp): Node {
    var key := SubscriptionKey(clientID, f);
    if key !in n.replica.tables.subscriptions then n
    else OnSubscriptionChange(Execute(n, RemoveSubscription(clientID, f), now), n.replica.tables.subscriptions[key], Delete, now)
  }

  // ----- Events -----

  function AddClient(local: map<string, seq<string>>, c: string, f: string): map<string, seq<string>> {
    if f in local then (if c in local[f] then local else local[f := local[f] + [c]]) else local[f := [c]]
  }

  function DropClient(local: map<string, seq<string>>, c: string, f: string): map<string, seq<string>> {
    if f !in local then local
    else if Without(local[f], c) == [] then local - {f}
    else local[f := Without(local[f], c)]
  }

  function Subscribe(s: Site, c: string, f: string, qos: int, now: Stamp): Site {
    var node := Execute(s.node, AddSubscription(c, f, qos), now);
    RefreshRoute(Site(AddClient(s.local, c, f), node), f, now)
  }

  function Unsubscribe(s: Site, c: string, f: string, now: Stamp): Site {
    RefreshRoute(Site(DropClient(s.local, c, f), RemoveWithCallback(s.node, c, f, now)), f, now)
  }

  /** A replication entry arrives from another node. */
  function Receive(s: Site, e: Entry, now: Stamp): Site {
    var node := s.node.(replica := Apply(s.node.replica, e));
    s.(node := if e.table.Subscriptions? then OnSubscriptionChange(node, DecodeSubscription(e.data), e.operation, now) else node)
  }

  function SessionChange(s: Site, c: string, connected: bool, clean: bool, expiry: int, now: Stamp): Site {
    s.(node := Execute(s.node, AddSession(c, connected, clean, expiry), now))
  }

  // ----- Cleanup after a departed node, in the orders the maps are walked -----

  function CleanRoute(n: Node, gone: string, f: string, now: Stamp): Node {
    var ids := Without(RouteOf(n, f), gone);
    if |ids| != |RouteOf(n, f)| then Execute(n, UpdateRoute(f, ids), now) else n
  }

  function CleanRoutes(n: Node, gone: string, order: seq<string>, now: Stamp): Node {
    if order == [] then n
    else CleanRoute(CleanRoutes(n, gone, order[..|order| - 1], now), gone, order[|order| - 1], now)
  }

  function CleanSession(n: Node, gone: string, c: string, now: Stamp): Node {
    var t := n.replica.tables.sessions;
    if c in t && t[c].nodeID == gone then Execute(n, RemoveSession(c), now) else n
  }

  function CleanSessions(n: Node, gone: string, order: seq<string>, now: Stamp): Node {
    if order == [] then n
    else CleanSession(CleanSessions(n, gone, order[..|order| - 1], now), gone, order[|order| - 1], now)
  }

  function CleanSubscription(n: Node, gone: string, key: string, now: Stamp): Node {
    var t := n.replica.tables.subscriptions;
    if key in t && t[key].nodeID == gone then RemoveWithCallback(n, t[key].clientID, t[key].topicFilter, now) else n
  }

  function CleanSubscriptions(n: Node, gone: string, order: seq<string>, now: Stamp): Node {
    if order == [] then n
    else CleanSubscription(CleanSubscriptions(n, gone, order[..|order| - 1], now), gone, order[|order| - 1], now)
  }

  /** The three walks; each order lists all keys of its table. */
  datatype Walk = Walk(routes: seq<string>, sessions: seq<string>, subscriptions: seq<string>)

  ghost predicate Covers(w: Walk, t: Tables) {
    && (forall k :: k in w.routes <==> k in t.routes)
    && (forall k :: k in w.sessions <==> k in t.sessions)
    && (forall k :: k in w.subscriptions <==> k in t.subscriptions)
  }

  function Cleanup(n: Node, gone: string, w: Walk, now: Stamp): Node {
    CleanSubscriptions(CleanSessions(CleanRoutes(n, gone, w.routes, now), gone, w.sessions, now), gone, w.subscriptions, now)
  }

  // ----- Runs -----

  datatype Event =
    | SubscribeEvent(c: string, f: string, qos: int, now: Stamp)
    | UnsubscribeEvent(c: string, f: string, now: Stamp)
    | SessionEvent(c: string, connected: bool, clean: bool, expiry: int, now: Stamp)
    | ReceiveEvent(e: Entry, now: Stamp)
    | CleanupEvent(gone: string, w: Walk, now: Stamp)
    | ProcessEvent

  function Step(s: Site, e: Event): Site {
    match e
    case SubscribeEvent(c, f, qos, now) => Subscribe(s, c, f, qos, now)
    case UnsubscribeEvent(c, f, now) => Unsubscribe(s, c, f, now)
    case SessionEvent(c, connected, clean, expiry, now) => SessionChange(s, c, connected, clean, expiry, now)
    case ReceiveEvent(entry, now) => Receive(s, entry, now)
    case CleanupEvent(gone, w, now) => s.(node := Cleanup(s.node, gone, w, now))
    case ProcessEvent => s.(node := Drain(s.node))
  }

  function Run(nodeID: string, events: seq<Event>): Site {
    if events == [] then NewSite(nodeID) else Step(Run(nodeID, events[..|events| - 1]), events[|events| - 1])
  }

  // ----- List lemmas -----

  ghost predicate Distinct(s: seq<string>) {
    forall i, j :: 0 <= i < j < |s| ==> s[i] != s[j]
  }

  lemma {:induction false} WithoutMembers(s: seq<string>, x: string)
    ensures forall y :: y in Without(s, x) <==> y in s && y != x
  {
    if s != [] {
      var front, last := s[..|s| - 1], s[|s| - 1];
      assert s == front + [last];
      WithoutMembers(front, x);
      var w := Without(front, x);
      forall y ensures y in Without(s, x) <==> y in s && y != x {
        assert y in s <==> y in front || y == last;
        if last != x {
          assert y in w + [last] <==> y in w || y == last;
        }
      }
    }
  }

  lemma {:induction false} WithoutLength(s: seq<string>, x: string)
    ensures |Without(s, x)| <= |s|
    ensures x !in s ==> Without(s, x) == s
    ensures |Without(s, x)| == |s| ==> x !in s
  {
    if s != [] {
      WithoutLength(s[..|s| - 1], x);
      assert s == s[..|s| - 1] + [s[|s| - 1]];
    }
  }

  lemma {:induction false} WithoutDistinct(s: seq<string>, x: string)
    requires Distinct(s)
    ensures Distinct(Without(s, x))
  {
    if s != [] {
      var front, last := s[..|s| - 1], s[|s| - 1];
      WithoutDistinct(front, x);
      WithoutMembers(front, x);
      assert last !in front;
    }
  }

  lemma WithoutFacts(s: seq<string>, x: string)
    ensures forall y :: y in Without(s, x) <==> y in s && y != x
    ensures Distinct(s) ==> Distinct(Without(s, x))
    ensures |Without(s, x)| <= |s|
    ensures x !in s ==> Without(s, x) == s
    ensures |Without(s, x)| == |s| ==> x !in s
  {
    WithoutMembers(s, x);
    WithoutLength(s, x);
    if Distinct(s) {
      WithoutDistinct(s, x);
    }
  }

  // ----- The invariant -----

  /** A filter's own-node entry, its list without repetition, and its local clients belong together. */
  predicate OwnNodeListed(s: Site, f: string) {
    s.node.nodeID in RouteOf(s.node, f) <==> f in s.local
  }

  ghost predicate GoodRoutes(s: Site) {
    && WellKeyed(s.node.replica.tables)
    && (forall f <- s.local :: s.local[f] != [] && Distinct(s.local[f]))
    && (forall f :: Distinct(RouteOf(s.node, f)))
    && (forall f :: OwnNodeListed(s, f))
  }

  /** A replicated route that lists no node twice, and this node just when the filter has local clients. */
  ghost predicate ConsistentRoute(s: Site, e: Entry) {
    match e.operation
    case Delete => e.data.topicFilter !in s.local
    case OtherOperation(_) => true
    case _ => Distinct(e.data.nodeIDs) && (s.node.nodeID in e.data.nodeIDs <==> e.data.topicFilter in s.local)
  }

  /** Replicated routes are consistent, and a node that cleans up after itself walks no route it still serves. */
  ghost predicate Benign(s: Site, e: Event) {
    && (e.ReceiveEvent? && e.e.table.Routes? ==> ConsistentRoute(s, e.e))
    && (e.CleanupEvent? && e.gone == s.node.nodeID ==> forall f <- e.w.routes :: f !in s.local)
  }

  ghost predicate BenignRun(nodeID: string, events: seq<Event>) {
    forall i :: 0 <= i < |events| ==> Benign(Run(nodeID, events[..i]), events[i])
  }

  /** The route of one filter changes, its own-node entry does not, and the rest stays. */
  ghost predicate OnlyRoute(n: Node, m: Node, f: string) {
    && m.nodeID == n.nodeID && WellKeyed(m.replica.tables)
    && (forall g :: g != f ==> RouteOf(m, g) == RouteOf(n, g))
  }

  lemma UpdateRouteFacts(n: Node, f: string, ids: seq<string>, now: Stamp)
    requires WellKeyed(n.replica.tables)
    ensures var m := Execute(n, UpdateRoute(f, ids), now);
            && OnlyRoute(n, m, f) && RouteOf(m, f) == ids
            && m.replica.tables.sessions == n.replica.tables.sessions
            && m.replica.tables.subscriptions == n.replica.tables.subscriptions
            && m.role == n.role
  {
  }

  lemma RemoteRouteFacts(n: Node, f: string, nodeID: string, add: bool, now: Stamp)
    requires WellKeyed(n.replica.tables)
    ensures var m := RemoteRoute(n, f, nodeID, add, now);
            && OnlyRoute(n, m, f)
            && m.replica.tables.sessions == n.replica.tables.sessions
            && m.replica.tables.subscriptions == n.replica.tables.subscriptions
            && (forall x :: x != nodeID ==> (x in RouteOf(m, f) <==> x in RouteOf(n, f)))
            && (nodeID in RouteOf(m, f) <==> add)
            && (Distinct(RouteOf(n, f)) ==> Distinct(RouteOf(m, f)))
  {
    var ids := RouteOf(n, f);
    WithoutFacts(ids, nodeID);
    if f !in n.replica.tables.routes {
      UpdateRouteFacts(n, f, [nodeID], now);
    } else {
      UpdateRouteFacts(n, f, if !add then Without(ids, nodeID) else if nodeID in ids then ids else ids + [nodeID], now);
    }
    hide Execute, Without;
  }

  /** Operations on the other tables leave all routes alone. */
  lemma OtherTableFacts(n: Node, op: Op, now: Stamp)
    requires WellKeyed(n.replica.tables) && !op.UpdateRoute?
    ensures var m := Execute(n, op, now);
            && m.nodeID == n.nodeID && WellKeyed(m.replica.tables) && m.replica.tables.routes == n.replica.tables.routes
  {
  }

  lemma OnChangeFacts(n: Node, s: Subscription, op: Operation, now: Stamp)
    requires WellKeyed(n.replica.tables)
    ensures var m := OnSubscriptionChange(n, s, op, now);
            && OnlyRoute(n, m, s.topicFilter)
            && m.replica.tables.sessions == n.replica.tables.sessions
            && m.replica.tables.subscriptions == n.replica.tables.subscriptions
            && (forall f :: n.nodeID in RouteOf(m, f) <==> n.nodeID in RouteOf(n, f))
            && (forall f :: Distinct(RouteOf(n, f)) ==> Distinct(RouteOf(m, f)))
            && (op == Delete ==> forall f, x :: x in RouteOf(m, f) ==> x in RouteOf(n, f))
  {
    hide RemoteRoute;
    RemoteRouteFacts(n, s.topicFilter, s.nodeID, op != Delete, now);
  }

  /** Routes may lose nodes, but not this node; everything stays well keyed. */
  ghost predicate RoutesShrink(n: Node, m: Node) {
    && m.nodeID == n.nodeID && WellKeyed(m.replica.tables)
    && (forall f :: n.nodeID in RouteOf(m, f) <==> n.nodeID in RouteOf(n, f))
    && (forall f :: Distinct(RouteOf(n, f)) ==> Distinct(RouteOf(m, f)))
    && (forall f, x :: x in RouteOf(m, f) ==> x in RouteOf(n, f))
  }

  lemma ShrinkIsTransitive(a: Node, b: Node, c: Node)
    requires RoutesShrink(a, b) && RoutesShrink(b, c)
    ensures RoutesShrink(a, c)
  {
    hide RouteOf, Distinct, WellKeyed;
  }

  lemma ShrinkIsReflexive(a: Node)
    requires WellKeyed(a.replica.tables)
    ensures RoutesShrink(a, a)
  {
  }

  lemma RemoveFacts(n: Node, c: string, f: string, now: Stamp)
    requires WellKeyed(n.replica.tables)
    ensures RoutesShrink(n, RemoveWithCallback(n, c, f, now))
    ensures RemoveWithCallback(n, c, f, now).replica.tables.sessions == n.replica.tables.sessions
    ensures RemoveWithCallback(n, c, f, now).replica.tables.subscriptions
            == n.replica.tables.subscriptions - {SubscriptionKey(c, f)}
  {
    var key := SubscriptionKey(c, f);
    if key in n.replica.tables.subscriptions {
      var m := Execute(n, RemoveSubscription(c, f), now);
      OtherTableFacts(n, RemoveSubscription(c, f), now);
      assert m.replica.tables.subscriptions == n.replica.tables.subscriptions - {key};
      assert m.replica.tables.sessions == n.replica.tables.sessions;
      assert forall g :: RouteOf(m, g) == RouteOf(n, g);
      OnChangeFacts(m, n.replica.tables.subscriptions[key], Delete, now);
      hide Execute, RouteOf, Distinct, OnSubscriptionChange, WellKeyed;
    } else {
      ShrinkIsReflexive(n);
      assert n.replica.tables.subscriptions - {key} == n.replica.tables.subscriptions;
    }
  }

  // ----- Every benign event keeps the invariant -----

  lemma NodeChangeKeeps(s: Site, m: Node)
    requires GoodRoutes(s)
    requires m.nodeID == s.node.nodeID && WellKeyed(m.replica.tables)
    requires forall f :: s.node.nodeID in RouteOf(m, f) <==> s.node.nodeID in RouteOf(s.node, f)
    requires forall f :: Distinct(RouteOf(m, f))
    ensures GoodRoutes(s.(node := m))
  {
    hide RouteOf, Distinct, WellKeyed;
    forall f ensures OwnNodeListed(s.(node := m), f) {
      assert OwnNodeListed(s, f);
    }
  }

  /** Refreshing the route of the one filter whose clients changed restores the invariant. */
  lemma RefreshRestores(s: Site, f: string, now: Stamp)
    requires WellKeyed(s.node.replica.tables)
    requires forall g <- s.local :: s.local[g] != [] && Distinct(s.local[g])
    requires forall g :: Distinct(RouteOf(s.node, g))
    requires forall g :: g != f ==> OwnNodeListed(s, g)
    ensures GoodRoutes(RefreshRoute(s, f, now))
  {
    var own := s.node.nodeID;
    var others := Without(RouteOf(s.node, f), own);
    WithoutFacts(RouteOf(s.node, f), own);
    var ids := if f in s.local && |s.local[f]| > 0 then [own] + others else others;
    assert Distinct(ids);
    UpdateRouteFacts(s.node, f, ids, now);
    var t := RefreshRoute(s, f, now);
    assert t.node == Execute(s.node, UpdateRoute(f, ids), now) && t.local == s.local;
    hide Execute, RouteOf, Distinct, WellKeyed, Without, RefreshRoute;
    forall g ensures Distinct(RouteOf(t.node, g)) && OwnNodeListed(t, g) {
      if g != f {
        assert OwnNodeListed(s, g);
      }
    }
  }

  lemma LocalFacts(local: map<string, seq<string>>, c: string, f: string)
    requires forall g <- local :: local[g] != [] && Distinct(local[g])
    ensures var a, d := AddClient(local, c, f), DropClient(local, c, f);
            && (forall g <- a :: a[g] != [] && Distinct(a[g]))
            && (forall g <- d :: d[g] != [] && Distinct(d[g]))
            && (forall g :: g != f ==> (g in a <==> g in local) && (g in d <==> g in local))
  {
    if f in local {
      WithoutFacts(local[f], c);
    }
  }

  lemma SubscribeKeeps(s: Site, c: string, f: string, qos: int, now: Stamp)
    requires GoodRoutes(s)
    ensures GoodRoutes(Subscribe(s, c, f, qos, now))
  {
    var m := Execute(s.node, AddSubscription(c, f, qos), now);
    OtherTableFacts(s.node, AddSubscription(c, f, qos), now);
    assert forall g :: RouteOf(m, g) == RouteOf(s.node, g);
    LocalFacts(s.local, c, f);
    var t := Site(AddClient(s.local, c, f), m);
    assert Subscribe(s, c, f, qos, now) == RefreshRoute(t, f, now);
    hide Execute, RouteOf, Distinct, WellKeyed, RefreshRoute, Subscribe, AddClient;
    forall g | g != f ensures OwnNodeListed(t, g) {
      assert OwnNodeListed(s, g);
    }
    RefreshRestores(t, f, now);
  }

  lemma UnsubscribeKeeps(s: Site, c: string, f: string, now: Stamp)
    requires GoodRoutes(s)
    ensures GoodRoutes(Unsubscribe(s, c, f, now))
  {
    var m := RemoveWithCallback(s.node, c, f, now);
    RemoveFacts(s.node, c, f, now);
    LocalFacts(s.local, c, f);
    var t := Site(DropClient(s.local, c, f), m);
    assert Unsubscribe(s, c, f, now) == RefreshRoute(t, f, now);
    hide RemoveWithCallback, RouteOf, Distinct, WellKeyed, RefreshRoute, Unsubscribe, DropClient;
    forall g | g != f ensures OwnNodeListed(t, g) {
      assert OwnNodeListed(s, g);
    }
    RefreshRestores(t, f, now);
  }

  lemma ReceiveKeeps(s: Site, e: Entry, now: Stamp)
    requires GoodRoutes(s) && !e.table.Routes?
    ensures GoodRoutes(Receive(s, e, now))
  {
    var m := s.node.(replica := Apply(s.node.replica, e));
    ApplyKeepsKeys(s.node.replica.tables, e);
    assert m.replica.tables.routes == s.node.replica.tables.routes;
    assert forall g :: RouteOf(m, g) == RouteOf(s.node, g);
    NodeChangeKeeps(s, m);
    OnChangeFacts(m, DecodeSubscription(e.data), e.operation, now);
    hide RouteOf, Distinct, WellKeyed, OnSubscriptionChange, GoodRoutes, Apply;
    if e.table.Subscriptions? {
      GoodFacts(s.(node := m));
      NodeChangeKeeps(s.(node := m), OnSubscriptionChange(m, DecodeSubscription(e.data), e.operation, now));
    }
  }

  lemma GoodFacts(s: Site)
    requires GoodRoutes(s)
    ensures WellKeyed(s.node.replica.tables) && forall f :: Distinct(RouteOf(s.node, f))
  {
  }

  // ----- Cleanup -----

  lemma CleanRouteFacts(n: Node, gone: string, f: string, now: Stamp)
    requires WellKeyed(n.replica.tables) && gone != n.nodeID
    ensures var m := CleanRoute(n, gone, f, now);
            && RoutesShrink(n, m) && gone !in RouteOf(m, f)
            && m.replica.tables.sessions == n.replica.tables.sessions
            && m.replica.tables.subscriptions == n.replica.tables.subscriptions
            && m.replica.tables.routes.Keys == n.replica.tables.routes.Keys
  {
    WithoutFacts(RouteOf(n, f), gone);
    UpdateRouteFacts(n, f, Without(RouteOf(n, f), gone), now);
    if |Without(RouteOf(n, f), gone)| == |RouteOf(n, f)| {
      ShrinkIsReflexive(n);
    } else {
      assert f in n.replica.tables.routes;
      var m := Execute(n, UpdateRoute(f, Without(RouteOf(n, f), gone)), now);
      assert m.replica.tables.routes.Keys == n.replica.tables.routes.Keys;
    }
    hide Execute, Distinct, WellKeyed, Without;
  }

  lemma {:induction false} CleanRoutesFacts(n: Node, gone: string, order: seq<string>, now: Stamp)
    requires WellKeyed(n.replica.tables) && gone != n.nodeID
    ensures var m := CleanRoutes(n, gone, order, now);
            && RoutesShrink(n, m) && (forall f <- order :: gone !in RouteOf(m, f))
            && m.replica.tables.sessions == n.replica.tables.sessions
            && m.replica.tables.subscriptions == n.replica.tables.subscriptions
  {
    if order == [] {
      ShrinkIsReflexive(n);
    } else {
      var front, f := order[..|order| - 1], order[|order| - 1];
      assert order == front + [f];
      CleanRoutesFacts(n, gone, front, now);
      var m := CleanRoutes(n, gone, front, now);
      CleanRouteFacts(m, gone, f, now);
      ShrinkIsTransitive(n, m, CleanRoute(m, gone, f, now));
      assert forall g :: gone in RouteOf(CleanRoute(m, gone, f, now), g) ==> gone in RouteOf(m, g);
      hide RouteOf, CleanRoute, Distinct, WellKeyed, RoutesShrink;
    }
  }

  lemma {:induction false} CleanSessionsFacts(n: Node, gone: string, order: seq<string>, now: Stamp)
    requires WellKeyed(n.replica.tables)
    ensures var m := CleanSessions(n, gone, order, now);
            && RoutesShrink(n, m)
            && m.replica.tables.subscriptions == n.replica.tables.subscriptions
            && (forall c <- m.replica.tables.sessions :: c in n.replica.tables.sessions
                                                         && m.replica.tables.sessions[c] == n.replica.tables.sessions[c])
            && (forall c <- order :: c in m.replica.tables.sessions ==> m.replica.tables.sessions[c].nodeID != gone)
  {
    if order == [] {
      ShrinkIsReflexive(n);
    } else {
      var front, c := order[..|order| - 1], order[|order| - 1];
      assert order == front + [c];
      CleanSessionsFacts(n, gone, front, now);
      var m := CleanSessions(n, gone, front, now);
      CleanSessionFacts(m, gone, c, now);
      ShrinkIsTransitive(n, m, CleanSession(m, gone, c, now));
      hide RouteOf, CleanSession, Distinct, WellKeyed, RoutesShrink;
    }
  }

  lemma CleanSessionFacts(n: Node, gone: string, c: string, now: Stamp)
    requires WellKeyed(n.replica.tables)
    ensures var m := CleanSession(n, gone, c, now);
            && RoutesShrink(n, m)
            && m.replica.tables.subscriptions == n.replica.tables.subscriptions
            && (c in m.replica.tables.sessions ==> m.replica.tables.sessions[c].nodeID != gone)
            && (forall d <- m.replica.tables.sessions :: d in n.replica.tables.sessions
                                                         && m.replica.tables.sessions[d] == n.replica.tables.sessions[d])
  {
    OtherTableFacts(n, RemoveSession(c), now);
    var m := CleanSession(n, gone, c, now);
    assert m.replica.tables.routes == n.replica.tables.routes;
    assert forall g :: RouteOf(m, g) == RouteOf(n, g);
  }

  lemma CleanSubscriptionFacts(n: Node, gone: string, key: string, now: Stamp)
    requires WellKeyed(n.replica.tables)
    ensures var m := CleanSubscription(n, gone, key, now);
            && RoutesShrink(n, m)
            && m.replica.tables.sessions == n.replica.tables.sessions
            && (key in m.replica.tables.subscriptions ==> m.replica.tables.subscriptions[key].nodeID != gone)
            && (forall k <- m.replica.tables.subscriptions :: k in n.replica.tables.subscriptions
                  && m.replica.tables.subscriptions[k] == n.replica.tables.subscriptions[k])
  {
    var t := n.replica.tables.subscriptions;
    if key in t && t[key].nodeID == gone {
      assert key == SubscriptionKey(t[key].clientID, t[key].topicFilter);
      RemoveFacts(n, t[key].clientID, t[key].topicFilter, now);
      hide RemoveWithCallback, RouteOf, Distinct, WellKeyed, RoutesShrink;
    } else {
      ShrinkIsReflexive(n);
    }
  }

  lemma {:induction false} CleanSubscriptionsFacts(n: Node, gone: string, order: seq<string>, now: Stamp)
    requires WellKeyed(n.replica.tables)
    ensures var m := CleanSubscriptions(n, gone, order, now);
            && RoutesShrink(n, m)
            && m.replica.tables.sessions == n.replica.tables.sessions
            && (forall k <- m.replica.tables.subscriptions :: k in n.replica.tables.subscriptions
                  && m.replica.tables.subscriptions[k] == n.replica.tables.subscriptions[k])
            && (forall k <- order :: k in m.replica.tables.subscriptions ==> m.replica.tables.subscriptions[k].nodeID != gone)
  {
    if order == [] {
      ShrinkIsReflexive(n);
    } else {
      var front, k := order[..|order| - 1], order[|order| - 1];
      assert order == front + [k];
      CleanSubscriptionsFacts(n, gone, front, now);
      var m := CleanSubscriptions(n, gone, front, now);
      CleanSubscriptionFacts(m, gone, k, now);
      ShrinkIsTransitive(n, m, CleanSubscription(m, gone, k, now));
      hide RouteOf, CleanSubscription, Distinct, WellKeyed, RoutesShrink;
    }
  }

  /** No route, session or subscription names the node. */
  ghost predicate Forgotten(t: Tables, gone: string) {
    && (forall f <- t.routes :: gone !in t.routes[f].nodeIDs)
    && (forall c <- t.sessions :: t.sessions[c].nodeID != gone)
    && (forall k <- t.subscriptions :: t.subscriptions[k].nodeID != gone)
  }

  /** The walk takes the node off the routes it covers, and changes nothing else about who is listed. */
  lemma CleanRouteMembers(n: Node, gone: string, f: string, now: Stamp)
    requires WellKeyed(n.replica.tables)
    ensures var m := CleanRoute(n, gone, f, now);
            && m.nodeID == n.nodeID && WellKeyed(m.replica.tables)
            && m.replica.tables.sessions == n.replica.tables.sessions
            && m.replica.tables.subscriptions == n.replica.tables.subscriptions
            && forall g, x :: x in RouteOf(m, g) <==> x in RouteOf(n, g) && !(x == gone && g == f)
  {
    WithoutFacts(RouteOf(n, f), gone);
    UpdateRouteFacts(n, f, Without(RouteOf(n, f), gone), now);
    hide Execute, Distinct, WellKeyed, Without;
  }

  lemma {:induction false} CleanRoutesMembers(n: Node, gone: string, order: seq<string>, now: Stamp)
    requires WellKeyed(n.replica.tables)
    ensures var m := CleanRoutes(n, gone, order, now);
            && m.nodeID == n.nodeID && WellKeyed(m.replica.tables)
            && m.replica.tables.sessions == n.replica.tables.sessions
            && m.replica.tables.subscriptions == n.replica.tables.subscriptions
            && forall g, x :: x in RouteOf(m, g) <==> x in RouteOf(n, g) && !(x == gone && g in order)
  {
    if order != [] {
      var front, f := order[..|order| - 1], order[|order| - 1];
      assert order == front + [f];
      CleanRoutesMembers(n, gone, front, now);
      CleanRouteMembers(CleanRoutes(n, gone, front, now), gone, f, now);
      hide RouteOf, CleanRoute, WellKeyed;
    }
  }

  /** Whatever order the maps are walked in, afterwards nothing names the node that was cleaned up after. */
  lemma CleanupForgets(n: Node, gone: string, w: Walk, now: Stamp)
    requires WellKeyed(n.replica.tables) && Covers(w, n.replica.tables)
    ensures Forgotten(Cleanup(n, gone, w, now).replica.tables, gone)
    ensures gone != n.nodeID ==> RoutesShrink(n, Cleanup(n, gone, w, now))
  {
    hide CleanRoutes, CleanSessions, CleanSubscriptions, WellKeyed, Distinct;
    var a := CleanRoutes(n, gone, w.routes, now);
    CleanRoutesMembers(n, gone, w.routes, now);
    var b := CleanSessions(a, gone, w.sessions, now);
    CleanSessionsFacts(a, gone, w.sessions, now);
    var c := CleanSubscriptions(b, gone, w.subscriptions, now);
    CleanSubscriptionsFacts(b, gone, w.subscriptions, now);
    if gone != n.nodeID {
      CleanRoutesFacts(n, gone, w.routes, now);
      ShrinkIsTransitive(n, a, b);
      ShrinkIsTransitive(n, b, c);
    }
    forall f | f in c.replica.tables.routes ensures gone !in c.replica.tables.routes[f].nodeIDs {
      assert gone in RouteOf(c, f) ==> gone in RouteOf(a, f);
      assert gone in RouteOf(n, f) ==> f in w.routes;
    }
  }

  lemma CleanupKeepsGood(s: Site, gone: string, w: Walk, now: Stamp)
    requires GoodRoutes(s) && gone != s.node.nodeID
    ensures GoodRoutes(s.(node := Cleanup(s.node, gone, w, now)))
  {
    GoodFacts(s);
    var n := s.node;
    hide GoodRoutes, WellKeyed, CleanRoutes, CleanSessions, CleanSubscriptions, RouteOf, Distinct;
    var a := CleanRoutes(n, gone, w.routes, now);
    CleanRoutesFacts(n, gone, w.routes, now);
    var b := CleanSessions(a, gone, w.sessions, now);
    CleanSessionsFacts(a, gone, w.sessions, now);
    var c := CleanSubscriptions(b, gone, w.subscriptions, now);
    CleanSubscriptionsFacts(b, gone, w.subscriptions, now);
    ShrinkIsTransitive(n, a, b);
    ShrinkIsTransitive(n, b, c);
    NodeChangeKeeps(s, c);
  }

  lemma OwnRouteFacts(n: Node, f: string, now: Stamp)
    requires WellKeyed(n.replica.tables)
    ensures var m := CleanRoute(n, n.nodeID, f, now);
            && m.nodeID == n.nodeID && WellKeyed(m.replica.tables)
            && (forall g :: n.nodeID in RouteOf(m, g) <==> n.nodeID in RouteOf(n, g) && g != f)
            && (forall g :: Distinct(RouteOf(n, g)) ==> Distinct(RouteOf(m, g)))
  {
    WithoutFacts(RouteOf(n, f), n.nodeID);
    UpdateRouteFacts(n, f, Without(RouteOf(n, f), n.nodeID), now);
    hide Execute, Distinct, WellKeyed, Without;
  }

  lemma {:induction false} OwnRoutesFacts(n: Node, order: seq<string>, now: Stamp)
    requires WellKeyed(n.replica.tables)
    ensures var m := CleanRoutes(n, n.nodeID, order, now);
            && m.nodeID == n.nodeID && WellKeyed(m.replica.tables)
            && (forall g :: n.nodeID in RouteOf(m, g) <==> n.nodeID in RouteOf(n, g) && g !in order)
            && (forall g :: Distinct(RouteOf(n, g)) ==> Distinct(RouteOf(m, g)))
  {
    if order != [] {
      var front, f := order[..|order| - 1], order[|order| - 1];
      assert order == front + [f];
      OwnRoutesFacts(n, front, now);
      OwnRouteFacts(CleanRoutes(n, n.nodeID, front, now), f, now);
      hide RouteOf, CleanRoute, Distinct, WellKeyed;
    }
  }

  /** A node that cleans up after itself keeps the invariant exactly when it walks no route it still serves. */
  lemma SelfCleanupIff(s: Site, w: Walk, now: Stamp)
    requires GoodRoutes(s)
    ensures var t := s.(node := Cleanup(s.node, s.node.nodeID, w, now));
            t.node.nodeID == s.node.nodeID && (GoodRoutes(t) <==> forall f <- w.routes :: f !in s.local)
  {
    var n, own := s.node, s.node.nodeID;
    assert forall g :: OwnNodeListed(s, g);
    GoodFacts(s);
    var a := CleanRoutes(n, own, w.routes, now);
    OwnRoutesFacts(n, w.routes, now);
    var b := CleanSessions(a, own, w.sessions, now);
    CleanSessionsFacts(a, own, w.sessions, now);
    var c := CleanSubscriptions(b, own, w.subscriptions, now);
    CleanSubscriptionsFacts(b, own, w.subscriptions, now);
    ShrinkIsTransitive(a, b, c);
    hide WellKeyed, CleanRoutes, CleanSessions, CleanSubscriptions, RouteOf, Distinct;
    var t := s.(node := c);
    forall g ensures OwnNodeListed(t, g) <==> (g in s.local ==> g !in w.routes) {
      assert OwnNodeListed(s, g);
    }
  }

  /** A replicated route keeps the invariant exactly when it is consistent. */
  lemma ReceiveRouteIff(s: Site, e: Entry, now: Stamp)
    requires GoodRoutes(s) && e.table.Routes?
    ensures GoodRoutes(Receive(s, e, now)) <==> ConsistentRoute(s, e)
  {
    var t, f := Receive(s, e, now), e.data.topicFilter;
    ApplyKeepsKeys(s.node.replica.tables, e);
    assert forall g :: g != f ==> RouteOf(t.node, g) == RouteOf(s.node, g);
    assert RouteOf(t.node, f) == match e.operation
                                 case Delete => []
                                 case OtherOperation(_) => RouteOf(s.node, f)
                                 case _ => e.data.nodeIDs;
    assert t.local == s.local && t.node.nodeID == s.node.nodeID && WellKeyed(t.node.replica.tables);
    hide Receive, WellKeyed, RouteOf;
    assert OwnNodeListed(s, f);
    forall g | g != f ensures OwnNodeListed(t, g) { assert OwnNodeListed(s, g); }
    assert GoodRoutes(t) <==> Distinct(RouteOf(t.node, f)) && OwnNodeListed(t, f);
  }

  /** From a good state, an event keeps the invariant exactly when it is benign. */
  lemma StepKeepsGoodIff(s: Site, e: Event)
    requires GoodRoutes(s)
    ensures Step(s, e).node.nodeID == s.node.nodeID && (GoodRoutes(Step(s, e)) <==> Benign(s, e))
  {
    GoodFacts(s);
    match e {
      case SubscribeEvent(c, f, qos, now) => SubscribeKeeps(s, c, f, qos, now);
      case UnsubscribeEvent(c, f, now) =>
        RemoveFacts(s.node, c, f, now);
        UnsubscribeKeeps(s, c, f, now);
      case SessionEvent(c, connected, clean, expiry, now) =>
        OtherTableFacts(s.node, AddSession(c, connected, clean, expiry), now);
        var m := Execute(s.node, AddSession(c, connected, clean, expiry), now);
        assert forall g :: RouteOf(m, g) == RouteOf(s.node, g);
        NodeChangeKeeps(s, m);
      case ReceiveEvent(entry, now) => ReceiveKeepsIff(s, entry, now);
      case CleanupEvent(gone, w, now) => CleanupKeepsIff(s, gone, w, now);
      case ProcessEvent =>
        assert forall g :: RouteOf(Drain(s.node), g) == RouteOf(s.node, g);
        NodeChangeKeeps(s, Drain(s.node));
    }
  }

  lemma ReceiveKeepsIff(s: Site, e: Entry, now: Stamp)
    requires GoodRoutes(s)
    ensures var t := Receive(s, e, now);
            t.node.nodeID == s.node.nodeID && (GoodRoutes(t) <==> (e.table.Routes? ==> ConsistentRoute(s, e)))
  {
    if e.table.Routes? {
      ReceiveRouteIff(s, e, now);
    } else {
      ReceiveKeeps(s, e, now);
      ApplyKeepsKeys(s.node.replica.tables, e);
      OnChangeFacts(s.node.(replica := Apply(s.node.replica, e)), DecodeSubscription(e.data), e.operation, now);
    }
    hide GoodRoutes, ConsistentRoute, WellKeyed, RouteOf, ApplyTables;
  }

  lemma CleanupKeepsIff(s: Site, gone: string, w: Walk, now: Stamp)
    requires GoodRoutes(s)
    ensures var t := s.(node := Cleanup(s.node, gone, w, now));
            && t.node.nodeID == s.node.nodeID
            && (GoodRoutes(t) <==> (gone == s.node.nodeID ==> forall f <- w.routes :: f !in s.local))
  {
    GoodFacts(s);
    hide GoodRoutes, WellKeyed, Cleanup;
    if gone == s.node.nodeID {
      SelfCleanupIff(s, w, now);
    } else {
      CleanupKeepsGood(s, gone, w, now);
      CleanupKeepsKeys(s.node, gone, w, now);
    }
  }

  lemma {:induction false} RunIsGood(nodeID: string, events: seq<Event>)
    requires BenignRun(nodeID, events)
    ensures Run(nodeID, events).node.nodeID == nodeID && GoodRoutes(Run(nodeID, events))
  {
    if events != [] {
      var k := |events| - 1;
      var front := events[..k];
      assert Benign(Run(nodeID, front), events[k]);
      forall i | 0 <= i < |front| ensures Benign(Run(nodeID, front[..i]), front[i]) {
        assert front[..i] == events[..i] && Benign(Run(nodeID, events[..i]), events[i]);
      }
      hide Step, Benign, GoodRoutes;
      RunIsGood(nodeID, front);
      StepKeepsGoodIff(Run(nodeID, front), events[k]);
    }
  }

  /**
   In every run of benign events a node lists itself in the route of a filter exactly when the filter has local clients,
   and no route lists a node twice.  The first event that is not benign ends that.
   */
  lemma RoutesTrackLocalClients(nodeID: string, events: seq<Event>, e: Event)
    requires BenignRun(nodeID, events)
    ensures var s := Run(nodeID, events);
            && s.node.nodeID == nodeID
            && (forall f :: Distinct(RouteOf(s.node, f)))
            && (forall f :: nodeID in RouteOf(s.node, f) <==> f in s.local && |s.local[f]| > 0)
            && (GoodRoutes(Step(s, e)) <==> Benign(s, e))
  {
    RunIsGood(nodeID, events);
    var s := Run(nodeID, events);
    StepKeepsGoodIff(s, e);
    hide Run, Step, RouteOf;
    forall f ensures nodeID in RouteOf(s.node, f) <==> f in s.local && |s.local[f]| > 0 {
      assert OwnNodeListed(s, f);
    }
  }

  lemma RefreshKeepsKeys(s: Site, f: string, now: Stamp)
    requires WellKeyed(s.node.replica.tables)
    ensures WellKeyed(RefreshRoute(s, f, now).node.replica.tables) && RefreshRoute(s, f, now).node.nodeID == s.node.nodeID
  {
    var others := Without(RouteOf(s.node, f), s.node.nodeID);
    UpdateRouteFacts(s.node, f, if f in s.local && |s.local[f]| > 0 then [s.node.nodeID] + others else others, now);
    hide Execute, WellKeyed, RouteOf, Without;
  }

  /** Every event, benign or not, keeps rows under their own keys. */
  lemma StepKeepsKeys(s: Site, e: Event)
    requires WellKeyed(s.node.replica.tables)
    ensures WellKeyed(Step(s, e).node.replica.tables) && Step(s, e).node.nodeID == s.node.nodeID
  {
    hide WellKeyed, Execute, RefreshRoute, RemoveWithCallback, OnSubscriptionChange, ApplyTables, Cleanup, RouteOf;
    match e {
      case SubscribeEvent(c, f, qos, now) =>
        OtherTableFacts(s.node, AddSubscription(c, f, qos), now);
        RefreshKeepsKeys(Site(AddClient(s.local, c, f), Execute(s.node, AddSubscription(c, f, qos), now)), f, now);
      case UnsubscribeEvent(c, f, now) =>
        RemoveFacts(s.node, c, f, now);
        RefreshKeepsKeys(Site(DropClient(s.local, c, f), RemoveWithCallback(s.node, c, f, now)), f, now);
      case SessionEvent(c, connected, clean, expiry, now) =>
        OtherTableFacts(s.node, AddSession(c, connected, clean, expiry), now);
      case ReceiveEvent(entry, now) =>
        ApplyKeepsKeys(s.node.replica.tables, entry);
        OnChangeFacts(s.node.(replica := Apply(s.node.replica, entry)), DecodeSubscription(entry.data), entry.operation, now);
      case CleanupEvent(gone, w, now) => CleanupKeepsKeys(s.node, gone, w, now);
      case ProcessEvent =>
    }
  }

  lemma CleanupKeepsKeys(n: Node, gone: string, w: Walk, now: Stamp)
    requires WellKeyed(n.replica.tables)
    ensures WellKeyed(Cleanup(n, gone, w, now).replica.tables) && Cleanup(n, gone, w, now).nodeID == n.nodeID
  {
    hide CleanRoutes, CleanSessions, CleanSubscriptions, WellKeyed, RouteOf, Distinct;
    var a := CleanRoutes(n, gone, w.routes, now);
    CleanRoutesMembers(n, gone, w.routes, now);
    var b := CleanSessions(a, gone, w.sessions, now);
    CleanSessionsFacts(a, gone, w.sessions, now);
    CleanSubscriptionsFacts(b, gone, w.subscriptions, now);
  }

  lemma {:induction false} RunKeepsKeys(nodeID: string, events: seq<Event>)
    ensures WellKeyed(Run(nodeID, events).node.replica.tables) && Run(nodeID, events).node.nodeID == nodeID
  {
    if events != [] {
      RunKeepsKeys(nodeID, events[..|events| - 1]);
      hide Step, WellKeyed;
      StepKeepsKeys(Run(nodeID, events[..|events| - 1]), events[|events| - 1]);
    }
  }

  /** After any run, a cleanup removes the name of the departed node from all three tables. */
  lemma CleanupAfterRun(nodeID: string, events: seq<Event>, gone: string, w: Walk, now: Stamp)
    requires Covers(w, Run(nodeID, events).node.replica.tables)
    ensures Forgotten(Step(Run(nodeID, events), CleanupEvent(gone, w, now)).node.replica.tables, gone)
  {
    RunKeepsKeys(nodeID, events);
    CleanupForgets(Run(nodeID, events).node, gone, w, now);
  }

  /** Such events exist: an empty route for a filter that is served, or a cleanup of the node itself. */
  lemma ForeignRouteBreaks(nodeID: string, c: string, f: string, now: Stamp)
    ensures var s := Subscribe(NewSite(nodeID), c, f, 0, now);
            var e := Entry(LogID("", 0, 0), 0, "", Update, Routes, EncodeRoute(Route(f, [])), 1);
            && GoodRoutes(s) && f in s.local
            && !Benign(s, ReceiveEvent(e, now)) && !Benign(s, CleanupEvent(nodeID, Walk([f], [], []), now))
  {
    var s := Subscribe(NewSite(nodeID), c, f, 0, now);
    SubscribeKeeps(NewSite(nodeID), c, f, 0, now);
    assert f in s.local;
    assert f in [f];
  }

  // ----- BrokerIntegration -----

  class BrokerIntegration {
    const replicationManager: ReplicationManager
    var localRoutes: map<string, seq<string>>

    ghost function View(): Site
      reads this, replicationManager
    {
      Site(localRoutes, replicationManager.View())
    }

    constructor (nodeID: string)
      ensures View() == NewSite(nodeID) && fresh(replicationManager)
    {
      replicationManager := new ReplicationManager(nodeID, CoreNode);
      localRoutes := map[];
    }

    method AllBut(s: seq<string>, x: string) returns (r: seq<string>)
      ensures r == Without(s, x)
    {
      r := [];
      for i := 0 to |s|
        invariant r == Without(s[..i], x)
      {
        assert s[..i + 1][..i] == s[..i];
        if s[i] != x {
          r := r + [s[i]];
        }
      }
      assert s[..|s|] == s;
    }

    method HandleSubscribe(clientID: string, topicFilter: string, qos: int, now: Stamp)
      modifies this, replicationManager
      ensures View() == Subscribe(old(View()), clientID, topicFilter, qos, now)
    {
      if topicFilter in localRoutes {
        var clients := localRoutes[topicFilter];
        var found := false;
        for i := 0 to |clients|
          invariant found <==> clientID in clients[..i]
        {
          if clients[i] == clientID {
            found := true;
            break;
          }
        }
        assert clients[..|clients|] == clients;
        if !found {
          localRoutes := localRoutes[topicFilter := clients + [clientID]];
        }
      } else {
        localRoutes := localRoutes[topicFilter := [clientID]];
      }
      assert localRoutes == AddClient(old(localRoutes), clientID, topicFilter);
      replicationManager.AddSubscription(clientID, topicFilter, qos, now);
      UpdateClusterRoute(topicFilter, now);
    }

    method HandleUnsubscribe(clientID: string, topicFilter: string, now: Stamp)
      modifies this, replicationManager
      ensures View() == Unsubscribe(old(View()), clientID, topicFilter, now)
    {
      if topicFilter in localRoutes {
        var newClients := AllBut(localRoutes[topicFilter], clientID);
        if |newClients| == 0 {
          localRoutes := localRoutes - {topicFilter};
        } else {
          localRoutes := localRoutes[topicFilter := newClients];
        }
      }
      assert localRoutes == DropClient(old(localRoutes), clientID, topicFilter);
      RemoveSubscriptionWithCallback(clientID, topicFilter, now);
      UpdateClusterRoute(topicFilter, now);
    }

    method UpdateClusterRoute(topicFilter: string, now: Stamp)
      modifies replicationManager
      ensures View() == RefreshRoute(old(View()), topicFilter, now)
    {
      var nodeIDs := [];
      if topicFilter in localRoutes && |localRoutes[topicFilter]| > 0 {
        nodeIDs := [replicationManager.nodeID];
      }
      if topicFilter in replicationManager.routes {
        var others := AllBut(replicationManager.routes[topicFilter].nodeIDs, replicationManager.nodeID);
        nodeIDs := nodeIDs + others;
      }
      assert nodeIDs == var others := Without(RouteOf(replicationManager.View(), topicFilter), replicationManager.nodeID);
                        if topicFilter in localRoutes && |localRoutes[topicFilter]| > 0
                        then [replicationManager.nodeID] + others else others;
      replicationManager.UpdateRoute(topicFilter, nodeIDs, now);
    }

    method UpdateRemoteRoute(topicFilter: string, nodeID: string, add: bool, now: Stamp)
      modifies replicationManager
      ensures replicationManager.View() == RemoteRoute(old(replicationManager.View()), topicFilter, nodeID, add, now)
    {
      if topicFilter !in replicationManager.routes {
        if add {
          replicationManager.UpdateRoute(topicFilter, [nodeID], now);
        }
        return;
      }
      var ids := replicationManager.routes[topicFilter].nodeIDs;
      var nodeIDs := [];
      var found := false;
      for i := 0 to |ids|
        invariant found <==> nodeID in ids[..i]
        invariant nodeIDs == if add then ids[..i] else Without(ids[..i], nodeID)
      {
        assert ids[..i + 1][..i] == ids[..i] && ids[..i + 1] == ids[..i] + [ids[i]];
        if ids[i] == nodeID {
          found := true;
          if add {
            nodeIDs := nodeIDs + [ids[i]];
          }
        } else {
          nodeIDs := nodeIDs + [ids[i]];
        }
      }
      assert ids[..|ids|] == ids;
      if add && !found {
        nodeIDs := nodeIDs + [nodeID];
      }
      replicationManager.UpdateRoute(topicFilter, nodeIDs, now);
    }

    method HandleSubscriptionChange(subscription: Subscription, operation: Operation, now: Stamp)
      modifies replicationManager
      ensures replicationManager.View()
              == OnSubscriptionChange(old(replicationManager.View()), subscription, operation, now)
    {
      if subscription.nodeID != replicationManager.nodeID {
        UpdateRemoteRoute(subscription.topicFilter, subscription.nodeID, operation != Delete, now);
      }
    }

    /** RemoveSubscription of the replication manager, followed by the callback it triggers on success. */
    method RemoveSubscriptionWithCallback(clientID: string, topicFilter: string, now: Stamp)
      modifies replicationManager
      ensures replicationManager.View() == RemoveWithCallback(old(replicationManager.View()), clientID, topicFilter, now)
    {
      var key := SubscriptionKey(clientID, topicFilter);
      if key in replicationManager.subscriptions {
        var subscription := replicationManager.subscriptions[key];
        var ok := replicationManager.RemoveSubscription(clientID, topicFilter, now);
        HandleSubscriptionChange(subscription, Delete, now);
      }
    }

    method ReceiveEntry(e: Entry, now: Stamp)
      modifies replicationManager
      ensures View() == Receive(old(View()), e, now)
    {
      var ok := replicationManager.ApplyReplicationLog(e);
      if e.table == Subscriptions {
        HandleSubscriptionChange(DecodeSubscription(e.data), e.operation, now);
      }
    }

    /** One filter of the first walk; `nodeIDs` comes from the snapshot. */
    method CleanupRoute(topicFilter: string, nodeIDs: seq<string>, gone: string, now: Stamp)
      requires nodeIDs == RouteOf(replicationManager.View(), topicFilter)
      modifies replicationManager
      ensures replicationManager.View() == CleanRoute(old(replicationManager.View()), gone, topicFilter, now)
      ensures replicationManager.sessions == old(replicationManager.sessions)
      ensures replicationManager.subscriptions == old(replicationManager.subscriptions)
      ensures forall f :: f != topicFilter && f in old(replicationManager.routes) ==>
                            f in replicationManager.routes && replicationManager.routes[f] == old(replicationManager.routes)[f]
    {
      var newNodeIDs := AllBut(nodeIDs, gone);
      if |newNodeIDs| != |nodeIDs| {
        replicationManager.UpdateRoute(topicFilter, newNodeIDs, now);
      }
    }

    method CleanupRoutes(gone: string, now: Stamp) returns (ghost order: seq<string>)
      modifies replicationManager
      ensures forall f :: f in order <==> f in old(replicationManager.routes)
      ensures replicationManager.View() == CleanRoutes(old(replicationManager.View()), gone, order, now)
      ensures replicationManager.sessions == old(replicationManager.sessions)
      ensures replicationManager.subscriptions == old(replicationManager.subscriptions)
    {
      ghost var start := replicationManager.View();
      var allRoutes := replicationManager.routes;
      var todo := allRoutes.Keys;
      order := [];
      while todo != {}
        invariant todo <= allRoutes.Keys && forall f :: f in order <==> f in allRoutes && f !in todo
        invariant replicationManager.View() == CleanRoutes(start, gone, order, now)
        invariant replicationManager.sessions == old(replicationManager.sessions)
        invariant replicationManager.subscriptions == old(replicationManager.subscriptions)
        invariant forall f <- todo :: f in replicationManager.routes && replicationManager.routes[f] == allRoutes[f]
        decreases todo
      {
        var f :| f in todo;
        hide CleanRoutes, CleanRoute;
        CleanRoutesAppend(start, gone, order, f, now);
        todo := todo - {f};
        order := order + [f];
        CleanupRoute(f, allRoutes[f].nodeIDs, gone, now);
      }
    }

    method CleanupSessions(gone: string, now: Stamp) returns (ghost order: seq<string>)
      modifies replicationManager
      ensures forall c :: c in order <==> c in old(replicationManager.sessions)
      ensures replicationManager.View() == CleanSessions(old(replicationManager.View()), gone, order, now)
      ensures replicationManager.subscriptions == old(replicationManager.subscriptions)
    {
      ghost var start := replicationManager.View();
      var allSessions := replicationManager.sessions;
      var todo := allSessions.Keys;
      order := [];
      while todo != {}
        invariant todo <= allSessions.Keys && forall c :: c in order <==> c in allSessions && c !in todo
        invariant replicationManager.View() == CleanSessions(start, gone, order, now)
        invariant replicationManager.subscriptions == old(replicationManager.subscriptions)
        invariant forall c <- todo :: c in replicationManager.sessions && replicationManager.sessions[c] == allSessions[c]
        decreases todo
      {
        var c :| c in todo;
        CleanSessionsAppend(start, gone, order, c, now);
        todo := todo - {c};
        order := order + [c];
        if allSessions[c].nodeID == gone {
          var ok := replicationManager.RemoveSession(c, now);
        }
      }
    }

    method CleanupSubscriptions(gone: string, now: Stamp) returns (ghost order: seq<string>)
      requires WellKeyed(replicationManager.View().replica.tables)
      modifies replicationManager
      ensures forall k :: k in order <==> k in old(replicationManager.subscriptions)
      ensures replicationManager.View() == CleanSubscriptions(old(replicationManager.View()), gone, order, now)
    {
      ghost var start := replicationManager.View();
      var allSubscriptions := replicationManager.subscriptions;
      var todo := allSubscriptions.Keys;
      order := [];
      while todo != {}
        invariant todo <= allSubscriptions.Keys && forall k :: k in order <==> k in allSubscriptions && k !in todo
        invariant WellKeyed(replicationManager.View().replica.tables)
        invariant replicationManager.View() == CleanSubscriptions(start, gone, order, now)
        invariant forall k <- todo ::
                    k in replicationManager.subscriptions && replicationManager.subscriptions[k] == allSubscriptions[k]
        decreases todo
      {
        var k :| k in todo;
        CleanSubscriptionsAppend(start, gone, order, k, now);
        todo := todo - {k};
        order := order + [k];
        var subscription := allSubscriptions[k];
        if subscription.nodeID == gone {
          RemoveFacts(replicationManager.View(), subscription.clientID, subscription.topicFilter, now);
          RemoveSubscriptionWithCallback(subscription.clientID, subscription.topicFilter, now);
        }
      }
    }

    /** `w` records the orders in which the three maps were walked. */
    method CleanupNodeData(gone: string, now: Stamp) returns (ghost w: Walk)
      requires WellKeyed(replicationManager.View().replica.tables)
      modifies replicationManager
      ensures Covers(w, old(replicationManager.View()).replica.tables)
      ensures replicationManager.View() == Cleanup(old(replicationManager.View()), gone, w, now)
    {
      ghost var start := replicationManager.View();
      ghost var routes := CleanupRoutes(gone, now);
      CleanRoutesMembers(start, gone, routes, now);
      ghost var middle := replicationManager.View();
      ghost var sessions := CleanupSessions(gone, now);
      CleanSessionsFacts(middle, gone, sessions, now);
      ghost var subscriptions := CleanupSubscriptions(gone, now);
      w := Walk(routes, sessions, subscriptions);
    }
  }

  lemma CleanRoutesAppend(n: Node, gone: string, order: seq<string>, f: string, now: Stamp)
    ensures CleanRoutes(n, gone, order + [f], now) == CleanRoute(CleanRoutes(n, gone, order, now), gone, f, now)
  {
    assert (order + [f])[..|order|] == order;
  }

  lemma CleanSessionsAppend(n: Node, gone: string, order: seq<string>, c: string, now: Stamp)
    ensures CleanSessions(n, gone, order + [c], now) == CleanSession(CleanSessions(n, gone, order, now), gone, c, now)
  {
    assert (order + [c])[..|order|] == order;
  }

  lemma CleanSubscriptionsAppend(n: Node, gone: string, order: seq<string>, k: string, now: Stamp)
    ensures CleanSubscriptions(n, gone, order + [k], now)
            == CleanSubscription(CleanSubscriptions(n, gone, order, now), gone, k, now)
  {
    assert (order + [k])[..|order|] == order;
  }
}
