/**
 The broker integration of a core node read off its events: pkg/mria/integration.go.

 Who is subscribed locally, which routes the node is in, and what the replicated subscription and session rows hold are
 computed from the list of events alone and compared with the tables.
 */
module SiteEvents {
  import opened Common
  import opened Replication
  import opened RouteTable

  // ----- Local clients -----

  /** The event is a subscribe or an unsubscribe of this client for this filter. */
  predicate Concerns(e: Event, c: string, f: string) {
    (e.SubscribeEvent? || e.UnsubscribeEvent?) && e.c == c && e.f == f
  }

  /** The last event about this client and this filter is a subscribe. */
  predicate Subscribed(events: seq<Event>, c: string, f: string) {
    if events == [] then false
    else
      var e := events[|events| - 1];
      if Concerns(e, c, f) then e.SubscribeEvent? else Subscribed(events[..|events| - 1], c, f)
  }

  predicate Serves(local: map<string, seq<string>>, c: string, f: string) {
    f in local && c in local[f]
  }

  lemma AddServes(local: map<string, seq<string>>, d: string, g: string, c: string, f: string)
    ensures Serves(AddClient(local, d, g), c, f) <==> Serves(local, c, f) || (c == d && f == g)
  {
    if g in local {
      assert c in local[g] + [d] <==> c in local[g] || c == d;
    }
  }

  lemma DropServes(local: map<string, seq<string>>, d: string, g: string, c: string, f: string)
    ensures Serves(DropClient(local, d, g), c, f) <==> Serves(local, c, f) && !(c == d && f == g)
  {
    if g in local {
      WithoutMembers(local[g], d);
    }
  }

  lemma StepServes(s: Site, e: Event, c: string, f: string)
    ensures Serves(RouteTable.Step(s, e).local, c, f)
            <==> if Concerns(e, c, f) then e.SubscribeEvent? else Serves(s.local, c, f)
  {
    hide AddClient, DropClient, Execute, RemoveWithCallback, Apply, OnSubscriptionChange, Cleanup, Drain, Serves;
    if e.SubscribeEvent? {
      AddServes(s.local, e.c, e.f, c, f);
    } else if e.UnsubscribeEvent? {
      DropServes(s.local, e.c, e.f, c, f);
    }
  }

  /** In every run a client is in the list of a filter exactly when its last event for the filter is a subscribe. */
  lemma {:induction false} LocalClientsIff(nodeID: string, events: seq<Event>, c: string, f: string)
    ensures Serves(RouteTable.Run(nodeID, events).local, c, f) <==> Subscribed(events, c, f)
  {
    if events != [] {
      LocalClientsIff(nodeID, events[..|events| - 1], c, f);
      hide RouteTable.Step, Serves, Concerns;
      StepServes(RouteTable.Run(nodeID, events[..|events| - 1]), events[|events| - 1], c, f);
    }
  }

  ghost predicate ListsAreSets(local: map<string, seq<string>>) {
    forall f <- local :: local[f] != [] && Distinct(local[f])
  }

  lemma StepKeepsSets(s: Site, e: Event)
    requires ListsAreSets(s.local)
    ensures ListsAreSets(RouteTable.Step(s, e).local)
  {
    if e.SubscribeEvent? || e.UnsubscribeEvent? {
      LocalFacts(s.local, e.c, e.f);
    }
    hide AddClient, DropClient, Execute, RemoveWithCallback, Apply, OnSubscriptionChange, Cleanup, Drain, Distinct;
  }

  /** No list is empty, and no client is in one twice. */
  lemma {:induction false} LocalListsAreSets(nodeID: string, events: seq<Event>)
    ensures ListsAreSets(RouteTable.Run(nodeID, events).local)
  {
    if events != [] {
      LocalListsAreSets(nodeID, events[..|events| - 1]);
      hide RouteTable.Step, ListsAreSets;
      StepKeepsSets(RouteTable.Run(nodeID, events[..|events| - 1]), events[|events| - 1]);
    }
  }

  ghost predicate SomeoneSubscribed(events: seq<Event>, f: string) {
    exists c :: Subscribed(events, c, f)
  }

  /**
   In every run of benign events the node is in the route of a filter exactly when the last event of some client for
   that filter is a subscribe.
   */
  lemma OwnRouteIff(nodeID: string, events: seq<Event>, f: string)
    requires BenignRun(nodeID, events)
    ensures nodeID in RouteOf(RouteTable.Run(nodeID, events).node, f) <==> SomeoneSubscribed(events, f)
  {
    RunIsGood(nodeID, events);
    var s := RouteTable.Run(nodeID, events);
    assert OwnNodeListed(s, f);
    hide RouteTable.Run, RouteOf, Subscribed;
    if f in s.local {
      var c := s.local[f][0];
      LocalClientsIff(nodeID, events, c, f);
      assert Subscribed(events, c, f);
    } else {
      forall c ensures !Subscribed(events, c, f) { LocalClientsIff(nodeID, events, c, f); }
    }
  }

  // ----- Session rows -----

  function At<V>(m: map<string, V>, k: string): Option<V> {
    if k in m then Some(m[k]) else None
  }

  /** What a session row should hold after the events. */
  function SessionAt(nodeID: string, events: seq<Event>, c: string): Option<Session> {
    if events == [] then None
    else NextSession(nodeID, SessionAt(nodeID, events[..|events| - 1], c), events[|events| - 1], c)
  }

  /** Own and replicated changes of the client count, and a cleanup that comes across a row of the departed node. */
  function NextSession(nodeID: string, was: Option<Session>, e: Event, c: string): (r: Option<Session>)
    ensures e.SessionEvent? && e.c == c ==>
              && r.Some? && r.value.clientID == c && r.value.nodeID == nodeID
              && r.value.connected == e.connected && r.value.cleanSession == e.clean && r.value.expiryTime == e.expiry
  {
    match e
    case SessionEvent(d, connected, clean, expiry, _) =>
      if d == c then Some(Session(c, nodeID, connected, clean, expiry)) else was
    case ReceiveEvent(entry, _) =>
      if entry.table != Sessions || entry.data.clientID != c || entry.operation.OtherOperation? then was
      else if entry.operation.Delete? then None
      else Some(Session(c, entry.data.nodeID, entry.data.connected, entry.data.cleanSession, entry.data.expiryTime))
    case CleanupEvent(gone, w, _) => if was.Some? && was.value.nodeID == gone && c in w.sessions then None else was
    case _ => was
  }

  lemma CleanSessionAt(n: Node, gone: string, d: string, now: Stamp, c: string)
    ensures var was := At(n.replica.tables.sessions, c);
            At(CleanSession(n, gone, d, now).replica.tables.sessions, c)
            == if was.Some? && was.value.nodeID == gone && c == d then None else was
  {
  }

  lemma {:induction false} CleanSessionsAt(n: Node, gone: string, order: seq<string>, now: Stamp, c: string)
    ensures var was := At(n.replica.tables.sessions, c);
            At(CleanSessions(n, gone, order, now).replica.tables.sessions, c)
            == if was.Some? && was.value.nodeID == gone && c in order then None else was
  {
    if order != [] {
      var front, d := order[..|order| - 1], order[|order| - 1];
      assert order == front + [d];
      CleanSessionsAt(n, gone, front, now, c);
      CleanSessionAt(CleanSessions(n, gone, front, now), gone, d, now, c);
      hide CleanSession, At;
    }
  }

  /** A cleanup drops exactly the walked rows of the departed node. */
  lemma CleanupAtSession(n: Node, gone: string, w: Walk, now: Stamp, c: string)
    requires WellKeyed(n.replica.tables)
    ensures var was, row := At(n.replica.tables.sessions, c), At(Cleanup(n, gone, w, now).replica.tables.sessions, c);
            row == if was.Some? && was.value.nodeID == gone && c in w.sessions then None else was
  {
    hide *;
    var a := CleanRoutes(n, gone, w.routes, now);
    CleanRoutesMembers(n, gone, w.routes, now);
    var b := CleanSessions(a, gone, w.sessions, now);
    CleanSessionsFacts(a, gone, w.sessions, now);
    ShrunkKeys(a, b);
    CleanSessionsAt(a, gone, w.sessions, now, c);
    CleanSubscriptionsFacts(b, gone, w.subscriptions, now);
    CleanupIs(n, gone, w, now);
  }

  lemma ShrunkKeys(n: Node, m: Node)
    requires RoutesShrink(n, m)
    ensures WellKeyed(m.replica.tables) && m.nodeID == n.nodeID
  {
  }

  lemma CleanupIs(n: Node, gone: string, w: Walk, now: Stamp)
    ensures Cleanup(n, gone, w, now)
            == CleanSubscriptions(CleanSessions(CleanRoutes(n, gone, w.routes, now), gone, w.sessions, now),
                                  gone, w.subscriptions, now)
  {
  }

  lemma ReceiveAtSession(s: Site, e: Entry, now: Stamp, c: string)
    requires WellKeyed(s.node.replica.tables)
    ensures At(Receive(s, e, now).node.replica.tables.sessions, c)
            == NextSession(s.node.nodeID, At(s.node.replica.tables.sessions, c), ReceiveEvent(e, now), c)
  {
    var m := s.node.(replica := Apply(s.node.replica, e));
    ApplyKeepsKeys(s.node.replica.tables, e);
    OnChangeFacts(m, DecodeSubscription(e.data), e.operation, now);
    hide OnSubscriptionChange, WellKeyed, RouteOf, Distinct;
  }

  lemma RefreshLeavesTables(s: Site, f: string, now: Stamp)
    ensures var t, u := s.node.replica.tables, RefreshRoute(s, f, now).node.replica.tables;
            u.sessions == t.sessions && u.subscriptions == t.subscriptions
  {
    hide Without;
  }

  lemma StepAtSession(s: Site, e: Event, c: string)
    requires WellKeyed(s.node.replica.tables)
    ensures At(RouteTable.Step(s, e).node.replica.tables.sessions, c)
            == NextSession(s.node.nodeID, At(s.node.replica.tables.sessions, c), e, c)
  {
    hide WellKeyed, RefreshRoute, RemoveWithCallback, OnSubscriptionChange, ApplyTables, Cleanup, RouteOf, Receive;
    match e {
      case SubscribeEvent(d, f, qos, now) =>
        RefreshLeavesTables(Site(AddClient(s.local, d, f), Execute(s.node, AddSubscription(d, f, qos), now)), f, now);
      case UnsubscribeEvent(d, f, now) =>
        RemoveFacts(s.node, d, f, now);
        RefreshLeavesTables(Site(DropClient(s.local, d, f), RemoveWithCallback(s.node, d, f, now)), f, now);
      case SessionEvent(d, connected, clean, expiry, now) =>
      case ReceiveEvent(entry, now) => ReceiveAtSession(s, entry, now, c);
      case CleanupEvent(gone, w, now) => CleanupAtSession(s.node, gone, w, now, c);
      case ProcessEvent =>
    }
  }

  /** In every run each session row is what the events say; a cleanup leaves the sessions of other nodes alone. */
  lemma {:induction false} SessionRowsAreEvents(nodeID: string, events: seq<Event>, c: string)
    ensures At(RouteTable.Run(nodeID, events).node.replica.tables.sessions, c) == SessionAt(nodeID, events, c)
  {
    if events != [] {
      var front := events[..|events| - 1];
      SessionRowsAreEvents(nodeID, front, c);
      RouteTable.RunKeepsKeys(nodeID, front);
      hide RouteTable.Step, WellKeyed, NextSession;
      StepAtSession(RouteTable.Run(nodeID, front), events[|events| - 1], c);
    }
  }

  // ----- Subscription rows -----

  /** What a subscription row should hold after the events. */
  function SubscriptionAt(nodeID: string, events: seq<Event>, key: string): Option<Subscription> {
    if events == [] then None
    else NextSubscription(nodeID, SubscriptionAt(nodeID, events[..|events| - 1], key), events[|events| - 1], key)
  }

  function NextSubscription(nodeID: string, was: Option<Subscription>, e: Event, key: string): (r: Option<Subscription>)
    ensures e.SubscribeEvent? && SubscriptionKey(e.c, e.f) == key ==>
              && r.Some? && r.value.clientID == e.c && r.value.topicFilter == e.f && r.value.qos == e.qos
              && r.value.nodeID == nodeID
  {
    match e
    case SubscribeEvent(c, f, qos, _) =>
      if SubscriptionKey(c, f) == key then Some(Subscription(c, f, qos, nodeID)) else was
    case UnsubscribeEvent(c, f, _) => if SubscriptionKey(c, f) == key then None else was
    case ReceiveEvent(entry, _) =>
      var d := entry.data;
      if entry.table != Subscriptions || entry.operation.OtherOperation? then was
      else if SubscriptionKey(d.clientID, d.topicFilter) != key then was
      else if entry.operation.Delete? then None
      else Some(Subscription(d.clientID, d.topicFilter, d.qos, d.nodeID))
    case CleanupEvent(gone, w, _) =>
      if was.Some? && was.value.nodeID == gone && key in w.subscriptions then None else was
    case _ => was
  }

  lemma CleanSubscriptionAt(n: Node, gone: string, k: string, now: Stamp, key: string)
    requires WellKeyed(n.replica.tables)
    ensures var was := At(n.replica.tables.subscriptions, key);
            At(CleanSubscription(n, gone, k, now).replica.tables.subscriptions, key)
            == if was.Some? && was.value.nodeID == gone && key == k then None else was
  {
    var t := n.replica.tables.subscriptions;
    if k in t && t[k].nodeID == gone {
      assert k == SubscriptionKey(t[k].clientID, t[k].topicFilter);
      RemoveFacts(n, t[k].clientID, t[k].topicFilter, now);
      hide RemoveWithCallback, WellKeyed, RoutesShrink;
    }
  }

  lemma {:induction false} CleanSubscriptionsAt(n: Node, gone: string, order: seq<string>, now: Stamp, key: string)
    requires WellKeyed(n.replica.tables)
    ensures var was := At(n.replica.tables.subscriptions, key);
            At(CleanSubscriptions(n, gone, order, now).replica.tables.subscriptions, key)
            == if was.Some? && was.value.nodeID == gone && key in order then None else was
  {
    if order != [] {
      var front, k := order[..|order| - 1], order[|order| - 1];
      assert order == front + [k];
      CleanSubscriptionsAt(n, gone, front, now, key);
      var m := CleanSubscriptions(n, gone, front, now);
      CleanSubscriptionsFacts(n, gone, front, now);
      ShrunkKeys(n, m);
      CleanSubscriptionAt(m, gone, k, now, key);
      hide CleanSubscription, At, WellKeyed, RoutesShrink;
    }
  }

  lemma CleanupAtSubscription(n: Node, gone: string, w: Walk, now: Stamp, key: string)
    requires WellKeyed(n.replica.tables)
    ensures var was := At(n.replica.tables.subscriptions, key);
            At(Cleanup(n, gone, w, now).replica.tables.subscriptions, key)
            == if was.Some? && was.value.nodeID == gone && key in w.subscriptions then None else was
  {
    hide *;
    var a := CleanRoutes(n, gone, w.routes, now);
    CleanRoutesMembers(n, gone, w.routes, now);
    var b := CleanSessions(a, gone, w.sessions, now);
    CleanSessionsFacts(a, gone, w.sessions, now);
    ShrunkKeys(a, b);
    CleanSubscriptionsAt(b, gone, w.subscriptions, now, key);
    CleanupIs(n, gone, w, now);
  }

  lemma ReceiveAtSubscription(s: Site, e: Entry, now: Stamp, key: string)
    requires WellKeyed(s.node.replica.tables)
    ensures At(Receive(s, e, now).node.replica.tables.subscriptions, key)
            == NextSubscription(s.node.nodeID, At(s.node.replica.tables.subscriptions, key), ReceiveEvent(e, now), key)
  {
    var m := s.node.(replica := Apply(s.node.replica, e));
    ApplyKeepsKeys(s.node.replica.tables, e);
    OnChangeFacts(m, DecodeSubscription(e.data), e.operation, now);
    hide OnSubscriptionChange, WellKeyed, RouteOf, Distinct;
  }

  lemma StepAtSubscription(s: Site, e: Event, key: string)
    requires WellKeyed(s.node.replica.tables)
    ensures At(RouteTable.Step(s, e).node.replica.tables.subscriptions, key)
            == NextSubscription(s.node.nodeID, At(s.node.replica.tables.subscriptions, key), e, key)
  {
    hide WellKeyed, RefreshRoute, RemoveWithCallback, OnSubscriptionChange, ApplyTables, Cleanup, RouteOf, Receive;
    match e {
      case SubscribeEvent(d, f, qos, now) =>
        RefreshLeavesTables(Site(AddClient(s.local, d, f), Execute(s.node, AddSubscription(d, f, qos), now)), f, now);
      case UnsubscribeEvent(d, f, now) =>
        RemoveFacts(s.node, d, f, now);
        RefreshLeavesTables(Site(DropClient(s.local, d, f), RemoveWithCallback(s.node, d, f, now)), f, now);
      case SessionEvent(d, connected, clean, expiry, now) =>
      case ReceiveEvent(entry, now) => ReceiveAtSubscription(s, entry, now, key);
      case CleanupEvent(gone, w, now) => CleanupAtSubscription(s.node, gone, w, now, key);
      case ProcessEvent =>
    }
  }

  /** In every run each subscription row is what the events say. */
  lemma {:induction false} SubscriptionRowsAreEvents(nodeID: string, events: seq<Event>, key: string)
    ensures At(RouteTable.Run(nodeID, events).node.replica.tables.subscriptions, key)
            == SubscriptionAt(nodeID, events, key)
  {
    if events != [] {
      var front := events[..|events| - 1];
      SubscriptionRowsAreEvents(nodeID, front, key);
      RouteTable.RunKeepsKeys(nodeID, front);
      hide RouteTable.Step, WellKeyed, NextSubscription;
      StepAtSubscription(RouteTable.Run(nodeID, front), events[|events| - 1], key);
    }
  }

  // ----- A full cleanup -----

  /**
   A cleanup whose walks cover the tables takes out the departed node and nothing else: of the sessions and
   subscriptions exactly the rows of other nodes stay, and every route keeps its other members.
   */
  lemma CleanupIsExact(nodeID: string, events: seq<Event>, gone: string, w: Walk, now: Stamp)
    requires Covers(w, RouteTable.Run(nodeID, events).node.replica.tables)
    ensures var s := RouteTable.Run(nodeID, events);
            var n, m := s.node, RouteTable.Step(s, CleanupEvent(gone, w, now)).node;
            && (forall c :: At(m.replica.tables.sessions, c)
                            == var row := At(n.replica.tables.sessions, c);
                               if row.Some? && row.value.nodeID == gone then None else row)
            && (forall k :: At(m.replica.tables.subscriptions, k)
                            == var row := At(n.replica.tables.subscriptions, k);
                               if row.Some? && row.value.nodeID == gone then None else row)
            && (forall f, x :: x in RouteOf(m, f) <==> x in RouteOf(n, f) && x != gone)
  {
    RouteTable.RunKeepsKeys(nodeID, events);
    var n := RouteTable.Run(nodeID, events).node;
    hide RouteTable.Run;
    assert RouteTable.Step(RouteTable.Run(nodeID, events), CleanupEvent(gone, w, now)).node == Cleanup(n, gone, w, now);
    hide RouteTable.Step, Cleanup;
    forall c ensures At(Cleanup(n, gone, w, now).replica.tables.sessions, c)
                     == var row := At(n.replica.tables.sessions, c);
                        if row.Some? && row.value.nodeID == gone then None else row {
      CleanupAtSession(n, gone, w, now, c);
    }
    forall k ensures At(Cleanup(n, gone, w, now).replica.tables.subscriptions, k)
                     == var row := At(n.replica.tables.subscriptions, k);
                        if row.Some? && row.value.nodeID == gone then None else row {
      CleanupAtSubscription(n, gone, w, now, k);
    }
    CleanupRouteMembers(n, gone, w, now);
  }

  lemma CleanupRouteMembers(n: Node, gone: string, w: Walk, now: Stamp)
    requires WellKeyed(n.replica.tables) && Covers(w, n.replica.tables)
    ensures forall f, x :: x in RouteOf(Cleanup(n, gone, w, now), f) <==> x in RouteOf(n, f) && x != gone
  {
    var a := CleanRoutes(n, gone, w.routes, now);
    CleanRoutesMembers(n, gone, w.routes, now);
    assert forall f :: RouteOf(n, f) != [] ==> f in w.routes;
    var b := CleanSessions(a, gone, w.sessions, now);
    CleanSessionsFacts(a, gone, w.sessions, now);
    CleanSessionsRoutes(a, gone, w.sessions, now);
    assert forall f :: RouteOf(b, f) == RouteOf(a, f);
    CleanSubscriptionsOthers(b, gone, w.subscriptions, now);
    CleanupIs(n, gone, w, now);
    hide Cleanup, CleanRoutes, CleanSessions, CleanSubscriptions, RouteOf, Covers, WellKeyed;
  }

  lemma {:induction false} CleanSessionsRoutes(n: Node, gone: string, order: seq<string>, now: Stamp)
    ensures CleanSessions(n, gone, order, now).replica.tables.routes == n.replica.tables.routes
  {
    if order != [] {
      CleanSessionsRoutes(n, gone, order[..|order| - 1], now);
    }
  }

  /** The walk over the subscriptions takes nobody but the departed node off a route. */
  lemma {:induction false} CleanSubscriptionsOthers(n: Node, gone: string, order: seq<string>, now: Stamp)
    requires WellKeyed(n.replica.tables)
    ensures var m := CleanSubscriptions(n, gone, order, now);
            WellKeyed(m.replica.tables) && m.nodeID == n.nodeID
            && (forall f, x :: x in RouteOf(m, f) ==> x in RouteOf(n, f))
            && (forall f, x :: x in RouteOf(n, f) && x != gone ==> x in RouteOf(m, f))
  {
    if order != [] {
      var front, k := order[..|order| - 1], order[|order| - 1];
      CleanSubscriptionsOthers(n, gone, front, now);
      CleanSubscriptionOthers(CleanSubscriptions(n, gone, front, now), gone, k, now);
      hide CleanSubscription, RouteOf, WellKeyed;
    }
  }

  lemma CleanSubscriptionOthers(n: Node, gone: string, k: string, now: Stamp)
    requires WellKeyed(n.replica.tables)
    ensures var m := CleanSubscription(n, gone, k, now);
            WellKeyed(m.replica.tables) && m.nodeID == n.nodeID
            && (forall f, x :: x in RouteOf(m, f) ==> x in RouteOf(n, f))
            && (forall f, x :: x in RouteOf(n, f) && x != gone ==> x in RouteOf(m, f))
  {
    var t := n.replica.tables.subscriptions;
    if k in t && t[k].nodeID == gone {
      var row := t[k];
      assert k == SubscriptionKey(row.clientID, row.topicFilter);
      var m := Execute(n, RemoveSubscription(row.clientID, row.topicFilter), now);
      OtherTableFacts(n, RemoveSubscription(row.clientID, row.topicFilter), now);
      assert forall f :: RouteOf(m, f) == RouteOf(n, f);
      RemoteRouteFacts(m, row.topicFilter, gone, false, now);
      hide Execute, RemoteRoute, RouteOf, WellKeyed, Distinct;
    }
  }
}
