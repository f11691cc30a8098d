/**
 What a core node with a broker integration sends: pkg/mria/integration.go on top of pkg/mria/replication.go.

 An event of the integration is several calls of the replication manager: the change itself, the route update that
 follows it, and those of the callback.  The lemmas show that nothing a node changes goes unsent.
 */
module SiteLog {
  import opened Common
  import opened Replication
  import opened RouteTable

  /** What the second state has in its channel beyond the first. */
  function Added(n: Node, m: Node): seq<Entry> {
    if |n.channel| <= |m.channel| then m.channel[|n.channel|..] else []
  }

  /** The second state is the first after more calls, all of them sent: applying what was sent leads to it. */
  ghost predicate Extends(n: Node, m: Node) {
    && m.role == n.role && m.nodeID == n.nodeID && m.logs == n.logs
    && n.channel <= m.channel && Replay(n.replica, Added(n, m)) == m.replica
  }

  /** A core node whose rows sit under their own keys. */
  ghost predicate Sound(n: Node) {
    n.role.CoreNode? && WellKeyed(n.replica.tables)
  }

  lemma ExtendsItself(n: Node)
    ensures Extends(n, n)
  {
  }

  lemma ExtendsFurther(a: Node, b: Node, c: Node)
    requires Extends(a, b) && Extends(b, c)
    ensures Extends(a, c)
  {
    assert Added(a, c) == Added(a, b) + Added(b, c);
    ReplayConcat(a.replica, Added(a, b), Added(b, c));
    hide Replay;
  }

  lemma ExecuteExtends(n: Node, op: Op, now: Stamp)
    requires Sound(n)
    ensures Extends(n, Execute(n, op, now)) && Sound(Execute(n, op, now))
  {
    if Succeeds(n, op) {
      var m, e := Execute(n, op, now), EntryFor(n, op, now);
      ApplyMirrorsExecute(n, op, now);
      ChangeKeepsKeys(n.nodeID, n.replica.tables, op);
      assert m.channel == n.channel + [e];
      assert Added(n, m) == [e];
      ReplayAppend(n.replica, [], e);
      assert [] + [e] == [e];
      hide ChangeOf, Apply, EntryFor, WellKeyed;
    }
  }

  lemma RemoteRouteExtends(n: Node, f: string, nodeID: string, add: bool, now: Stamp)
    requires Sound(n)
    ensures var m := RemoteRoute(n, f, nodeID, add, now); Extends(n, m) && Sound(m)
  {
    hide Execute, Extends, Sound, Without;
    ExtendsItself(n);
    var ids := RouteOf(n, f);
    if f !in n.replica.tables.routes {
      ExecuteExtends(n, UpdateRoute(f, [nodeID]), now);
    } else {
      ExecuteExtends(
        n, UpdateRoute(f, if !add then Without(ids, nodeID) else if nodeID in ids then ids else ids + [nodeID]), now);
    }
  }

  lemma OnChangeExtends(n: Node, s: Subscription, op: Operation, now: Stamp)
    requires Sound(n)
    ensures var m := OnSubscriptionChange(n, s, op, now); Extends(n, m) && Sound(m)
  {
    hide RemoteRoute, Extends, Sound;
    ExtendsItself(n);
    RemoteRouteExtends(n, s.topicFilter, s.nodeID, op != Delete, now);
  }

  lemma RemoveExtends(n: Node, c: string, f: string, now: Stamp)
    requires Sound(n)
    ensures var m := RemoveWithCallback(n, c, f, now); Extends(n, m) && Sound(m)
  {
    hide Execute, OnSubscriptionChange, Extends, Sound;
    ExtendsItself(n);
    var key := SubscriptionKey(c, f);
    if key in n.replica.tables.subscriptions {
      var a, row := Execute(n, RemoveSubscription(c, f), now), n.replica.tables.subscriptions[key];
      ExecuteExtends(n, RemoveSubscription(c, f), now);
      OnChangeExtends(a, row, Delete, now);
      ExtendsFurther(n, a, OnSubscriptionChange(a, row, Delete, now));
    }
  }

  lemma RefreshExtends(s: Site, f: string, now: Stamp)
    requires Sound(s.node)
    ensures var m := RefreshRoute(s, f, now).node; Extends(s.node, m) && Sound(m)
  {
    hide Execute, Extends, Sound, Without;
    var others := Without(RouteOf(s.node, f), s.node.nodeID);
    ExecuteExtends(
      s.node, UpdateRoute(f, if f in s.local && |s.local[f]| > 0 then [s.node.nodeID] + others else others), now);
  }

  lemma {:induction false} CleanRoutesExtends(n: Node, gone: string, order: seq<string>, now: Stamp)
    requires Sound(n)
    ensures var m := CleanRoutes(n, gone, order, now); Extends(n, m) && Sound(m)
  {
    if order == [] {
      ExtendsItself(n);
    } else {
      var front, f := order[..|order| - 1], order[|order| - 1];
      CleanRoutesExtends(n, gone, front, now);
      var a := CleanRoutes(n, gone, front, now);
      hide Execute, Extends, Sound, Without;
      ExecuteExtends(a, UpdateRoute(f, Without(RouteOf(a, f), gone)), now);
      ExtendsItself(a);
      ExtendsFurther(n, a, CleanRoute(a, gone, f, now));
    }
  }

  lemma {:induction false} CleanSessionsExtends(n: Node, gone: string, order: seq<string>, now: Stamp)
    requires Sound(n)
    ensures var m := CleanSessions(n, gone, order, now); Extends(n, m) && Sound(m)
  {
    if order == [] {
      ExtendsItself(n);
    } else {
      var front, c := order[..|order| - 1], order[|order| - 1];
      CleanSessionsExtends(n, gone, front, now);
      var a := CleanSessions(n, gone, front, now);
      hide Execute, Extends, Sound;
      ExecuteExtends(a, RemoveSession(c), now);
      ExtendsItself(a);
      ExtendsFurther(n, a, CleanSession(a, gone, c, now));
    }
  }

  lemma {:induction false} CleanSubscriptionsExtends(n: Node, gone: string, order: seq<string>, now: Stamp)
    requires Sound(n)
    ensures var m := CleanSubscriptions(n, gone, order, now); Extends(n, m) && Sound(m)
  {
    if order == [] {
      ExtendsItself(n);
    } else {
      var front, k := order[..|order| - 1], order[|order| - 1];
      CleanSubscriptionsExtends(n, gone, front, now);
      var a := CleanSubscriptions(n, gone, front, now);
      hide RemoveWithCallback, Extends, Sound;
      ExtendsItself(a);
      if k in a.replica.tables.subscriptions {
        var row := a.replica.tables.subscriptions[k];
        RemoveExtends(a, row.clientID, row.topicFilter, now);
      }
      ExtendsFurther(n, a, CleanSubscription(a, gone, k, now));
    }
  }

  lemma CleanupExtends(n: Node, gone: string, w: Walk, now: Stamp)
    requires Sound(n)
    ensures var m := Cleanup(n, gone, w, now); Extends(n, m) && Sound(m)
  {
    hide CleanRoutes, CleanSessions, CleanSubscriptions, Extends, Sound;
    var a := CleanRoutes(n, gone, w.routes, now);
    var b := CleanSessions(a, gone, w.sessions, now);
    var c := CleanSubscriptions(b, gone, w.subscriptions, now);
    CleanRoutesExtends(n, gone, w.routes, now);
    CleanSessionsExtends(a, gone, w.sessions, now);
    CleanSubscriptionsExtends(b, gone, w.subscriptions, now);
    ExtendsFurther(n, a, b);
    ExtendsFurther(n, b, c);
  }

  // ----- Events -----

  /** The node right after what an event brings from outside: the received entry applied, or nothing. */
  function Arrived(n: Node, e: Event): Node {
    if e.ReceiveEvent? then n.(replica := Apply(n.replica, e.e)) else n
  }

  lemma ArrivedIsSound(n: Node, e: Event)
    requires Sound(n)
    ensures Sound(Arrived(n, e))
  {
    if e.ReceiveEvent? {
      ApplyKeepsKeys(n.replica.tables, e.e);
      hide ApplyTables, WellKeyed;
    }
  }

  /** Whatever an event changes beyond what it brings, it sends. */
  lemma EventExtends(s: Site, e: Event)
    requires Sound(s.node) && !e.ProcessEvent?
    ensures var m := RouteTable.Step(s, e).node; Extends(Arrived(s.node, e), m) && Sound(m)
  {
    var n := Arrived(s.node, e);
    ArrivedIsSound(s.node, e);
    hide Execute, RefreshRoute, RemoveWithCallback, OnSubscriptionChange, Cleanup, Apply, Extends, Sound;
    ExtendsItself(n);
    match e {
      case SubscribeEvent(c, f, qos, now) =>
        ExecuteExtends(n, AddSubscription(c, f, qos), now);
        var t := Site(AddClient(s.local, c, f), Execute(n, AddSubscription(c, f, qos), now));
        RefreshExtends(t, f, now);
        ExtendsFurther(n, t.node, RefreshRoute(t, f, now).node);
      case UnsubscribeEvent(c, f, now) =>
        RemoveExtends(n, c, f, now);
        var t := Site(DropClient(s.local, c, f), RemoveWithCallback(n, c, f, now));
        RefreshExtends(t, f, now);
        ExtendsFurther(n, t.node, RefreshRoute(t, f, now).node);
      case SessionEvent(c, connected, clean, expiry, now) =>
        ExecuteExtends(n, AddSession(c, connected, clean, expiry), now);
      case ReceiveEvent(entry, now) =>
        OnChangeExtends(n, DecodeSubscription(entry.data), entry.operation, now);
      case CleanupEvent(gone, w, now) => CleanupExtends(n, gone, w, now);
    }
  }

  // ----- Runs -----

  /** The entries that the last event of a run sends. */
  function SentBy(s: Site, e: Event): seq<Entry> {
    if e.ProcessEvent? then [] else Added(s.node, RouteTable.Step(s, e).node)
  }

  /** Everything a run sends, in order. */
  function Sent(nodeID: string, events: seq<Event>): seq<Entry> {
    if events == [] then []
    else
      var front, e := events[..|events| - 1], events[|events| - 1];
      Sent(nodeID, front) + SentBy(RouteTable.Run(nodeID, front), e)
  }

  /** Everything a run receives and sends, in order. */
  function Seen(nodeID: string, events: seq<Event>): seq<Entry> {
    if events == [] then []
    else
      var front, e := events[..|events| - 1], events[|events| - 1];
      Seen(nodeID, front) + (if e.ReceiveEvent? then [e.e] else []) + SentBy(RouteTable.Run(nodeID, front), e)
  }

  /** How many entries the loop has taken off the channel. */
  function Taken(nodeID: string, events: seq<Event>): nat {
    if events == [] then 0
    else
      var front, e := events[..|events| - 1], events[|events| - 1];
      Taken(nodeID, front) + if e.ProcessEvent? && RouteTable.Run(nodeID, front).node.channel != [] then 1 else 0
  }

  lemma ReplayEvent(s: Site, e: Event)
    requires Sound(s.node)
    ensures var m := RouteTable.Step(s, e).node;
            && Sound(m)
            && Replay(s.node.replica, (if e.ReceiveEvent? then [e.e] else []) + SentBy(s, e)) == m.replica
  {
    var n := Arrived(s.node, e);
    var brought := if e.ReceiveEvent? then [e.e] else [];
    if e.ProcessEvent? {
      assert brought + SentBy(s, e) == [];
    } else {
      EventExtends(s, e);
      assert n.channel == s.node.channel;
      assert Replay(s.node.replica, brought) == n.replica by {
        if e.ReceiveEvent? {
          ReplayAppend(s.node.replica, [], e.e);
          assert [] + [e.e] == [e.e];
        }
      }
      hide RouteTable.Step, Sound, Replay;
      ReplayConcat(s.node.replica, brought, SentBy(s, e));
    }
  }

  /**
   Nothing is lost between the tables and the log.  In every run of a core node's integration, another node that applies
   what this one received and what it sent, in order, holds exactly its tables and version.
   */
  lemma {:induction false} SiteReplays(nodeID: string, events: seq<Event>)
    ensures Sound(RouteTable.Run(nodeID, events).node)
    ensures Replay(EMPTY_REPLICA, Seen(nodeID, events)) == RouteTable.Run(nodeID, events).node.replica
  {
    hide *;
    if events == [] {
      NothingSeen(nodeID);
    } else {
      var front, e := events[..|events| - 1], events[|events| - 1];
      var s := RouteTable.Run(nodeID, front);
      SiteReplays(nodeID, front);
      ReplayEvent(s, e);
      SeenGrows(nodeID, events);
      ReplayConcat(EMPTY_REPLICA, Seen(nodeID, front), (if e.ReceiveEvent? then [e.e] else []) + SentBy(s, e));
    }
  }

  lemma NothingSeen(nodeID: string)
    ensures Sound(RouteTable.Run(nodeID, []).node)
    ensures Replay(EMPTY_REPLICA, Seen(nodeID, [])) == RouteTable.Run(nodeID, []).node.replica
  {
  }

  lemma SeenGrows(nodeID: string, events: seq<Event>)
    requires events != []
    ensures var front, e := events[..|events| - 1], events[|events| - 1]; var s := RouteTable.Run(nodeID, front);
            && RouteTable.Run(nodeID, events) == RouteTable.Step(s, e)
            && Seen(nodeID, events) == Seen(nodeID, front) + ((if e.ReceiveEvent? then [e.e] else []) + SentBy(s, e))
  {
    hide RouteTable.Step, SentBy;
  }

  lemma EventChannel(s: Site, e: Event)
    requires Sound(s.node)
    ensures var m := RouteTable.Step(s, e).node;
            if e.ProcessEvent? && s.node.channel != [] then
              m.channel == s.node.channel[1..] && m.logs == Last(s.node.logs + [s.node.channel[0]], MAX_LOGS)
            else if e.ProcessEvent? then m == s.node
            else m.logs == s.node.logs && m.channel == s.node.channel + SentBy(s, e)
  {
    if !e.ProcessEvent? {
      EventExtends(s, e);
      hide RouteTable.Step, Replay, Sound;
    }
  }

  /** In every run the channel holds what was sent and not yet taken, the log the newest thousand of what was taken. */
  lemma {:induction false} SiteLogIsNewestSuffix(nodeID: string, events: seq<Event>)
    ensures var n, es, p := RouteTable.Run(nodeID, events).node, Sent(nodeID, events), Taken(nodeID, events);
            p <= |es| && n.channel == es[p..] && n.logs == Last(es[..p], MAX_LOGS)
  {
    hide *;
    if events == [] {
      NothingSent(nodeID);
    } else {
      var front, e := events[..|events| - 1], events[|events| - 1];
      SiteLogIsNewestSuffix(nodeID, front);
      SiteReplays(nodeID, front);
      SeenGrows(nodeID, events);
      var s, es, p := RouteTable.Run(nodeID, front), Sent(nodeID, front), Taken(nodeID, front);
      EventChannel(s, e);
      SentGrows(nodeID, events);
      if e.ProcessEvent? {
        NoneSent(s, e);
        assert es + [] == es;
        if s.node.channel != [] {
          TrimStep(es, p);
        }
      } else {
        assert (es + SentBy(s, e))[..p] == es[..p];
      }
    }
  }

  lemma NothingSent(nodeID: string)
    ensures var n := RouteTable.Run(nodeID, []).node;
            Sent(nodeID, []) == [] && Taken(nodeID, []) == 0 && n.channel == [] && n.logs == Last([], MAX_LOGS)
  {
  }

  lemma SentGrows(nodeID: string, events: seq<Event>)
    requires events != []
    ensures var front, e := events[..|events| - 1], events[|events| - 1]; var s := RouteTable.Run(nodeID, front);
            && Sent(nodeID, events) == Sent(nodeID, front) + SentBy(s, e)
            && Taken(nodeID, events) == Taken(nodeID, front) + if e.ProcessEvent? && s.node.channel != [] then 1 else 0
  {
    hide RouteTable.Run, SentBy;
  }

  lemma NoneSent(s: Site, e: Event)
    requires e.ProcessEvent?
    ensures SentBy(s, e) == []
  {
  }
}
