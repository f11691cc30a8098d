/**
 The replication log of pkg/mria/replication.go.

 A node holds three tables and a version.  On a core node every successful change also sends a log entry into
 a channel; a loop drains the channel into `replicationLogs`, which keeps the newest thousand entries.  A replicant
 decodes entries and applies them to its own tables.

 Every public method is one atomic step.  Clock readings are parameters.
 */
module Replication {
  import opened Common

  const MAX_LOGS: nat := 1000

  datatype Role = CoreNode | ReplicantNode

  datatype Operation = Insert | Update | Delete | OtherOperation(name: string)

  datatype Table = Subscriptions | Sessions | Routes | OtherTable(name: string)

  datatype Subscription = Subscription(clientID: string, topicFilter: string, qos: int, nodeID: string)

  datatype Session = Session(clientID: string, nodeID: string, connected: bool, cleanSession: bool, expiryTime: int)

  datatype Route = Route(topicFilter: string, nodeIDs: seq<string>)

  /** The JSON object an entry carries.  A field absent from the text decodes to its zero value. */
  datatype Data = Data(
    clientID: string, topicFilter: string, qos: int, nodeID: string,
    connected: bool, cleanSession: bool, expiryTime: int, nodeIDs: seq<string>)

  const NO_DATA := Data("", "", 0, "", false, false, 0, [])

  /** `generateLogID`: node, clock reading, running number. */
  datatype LogID = LogID(nodeID: string, nanos: int, number: int)

  datatype Entry = Entry(
    id: LogID, timestamp: int, nodeID: string,
    operation: Operation, table: Table, data: Data, version: int)

  datatype Stamp = Stamp(seconds: int, nanos: int)

  datatype Tables = Tables(
    subscriptions: map<string, Subscription>,
    sessions: map<string, Session>,
    routes: map<string, Route>)

  const NO_TABLES := Tables(map[], map[], map[])

  /** What log application touches: the tables and the version. */
  datatype Replica = Replica(tables: Tables, version: int)

  const EMPTY_REPLICA := Replica(NO_TABLES, 0)

  datatype Node = Node(
    nodeID: string, role: Role, replica: Replica, lastLogID: int,
    channel: seq<Entry>, logs: seq<Entry>)

  function NewNode(nodeID: string, role: Role): Node {
    Node(nodeID, role, EMPTY_REPLICA, 0, [], [])
  }

  function SubscriptionKey(clientID: string, topicFilter: string): string {
    clientID + ":" + topicFilter
  }

  // ----- Encoding -----

  function EncodeSubscription(s: Subscription): Data {
    NO_DATA.(clientID := s.clientID, topicFilter := s.topicFilter, qos := s.qos, nodeID := s.nodeID)
  }

  function DecodeSubscription(d: Data): Subscription {
    Subscription(d.clientID, d.topicFilter, d.qos, d.nodeID)
  }

  function EncodeSession(s: Session): Data {
    NO_DATA.(clientID := s.clientID, nodeID := s.nodeID, connected := s.connected,
             cleanSession := s.cleanSession, expiryTime := s.expiryTime)
  }

  function DecodeSession(d: Data): Session {
    Session(d.clientID, d.nodeID, d.connected, d.cleanSession, d.expiryTime)
  }

  function EncodeRoute(r: Route): Data {
    NO_DATA.(topicFilter := r.topicFilter, nodeIDs := r.nodeIDs)
  }

  function DecodeRoute(d: Data): Route {
    Route(d.topicFilter, d.nodeIDs)
  }

  // ----- Changes on the node that owns the data -----

  datatype Op =
    | AddSubscription(clientID: string, topicFilter: string, qos: int)
    | RemoveSubscription(clientID: string, topicFilter: string)
    | AddSession(clientID: string, connected: bool, cleanSession: bool, expiryTime: int)
    | RemoveSession(clientID: string)
    | UpdateRoute(topicFilter: string, nodeIDs: seq<string>)

  /** The table change of a successful operation, and the part of the log entry that describes it. */
  datatype Change = Change(tables: Tables, operation: Operation, table: Table, data: Data)

  /** `None` is the "not found" error of the two removals. */
  function ChangeOf(nodeID: string, t: Tables, op: Op): Option<Change> {
    match op
    case AddSubscription(clientID, topicFilter, qos) =>
      var s := Subscription(clientID, topicFilter, qos, nodeID);
      Some(Change(t.(subscriptions := t.subscriptions[SubscriptionKey(clientID, topicFilter) := s]),
                  Insert, Subscriptions, EncodeSubscription(s)))
    case RemoveSubscription(clientID, topicFilter) =>
      var key := SubscriptionKey(clientID, topicFilter);
      if key !in t.subscriptions then None
      else Some(Change(t.(subscriptions := t.subscriptions - {key}),
                       Delete, Subscriptions, EncodeSubscription(t.subscriptions[key])))
    case AddSession(clientID, connected, cleanSession, expiryTime) =>
      // The test for an existing session runs after the write, so the label is always UPDATE.
      var s := Session(clientID, nodeID, connected, cleanSession, expiryTime);
      Some(Change(t.(sessions := t.sessions[clientID := s]), Update, Sessions, EncodeSession(s)))
    case RemoveSession(clientID) =>
      if clientID !in t.sessions then None
      else Some(Change(t.(sessions := t.sessions - {clientID}),
                       Delete, Sessions, EncodeSession(t.sessions[clientID])))
    case UpdateRoute(topicFilter, nodeIDs) =>
      var r := Route(topicFilter, nodeIDs);
      Some(Change(t.(routes := t.routes[topicFilter := r]), Update, Routes, EncodeRoute(r)))
  }

  predicate Succeeds(n: Node, op: Op) {
    ChangeOf(n.nodeID, n.replica.tables, op).Some?
  }

  /** The entry a core node sends for a successful operation. */
  function EntryFor(n: Node, op: Op, now: Stamp): Entry
    requires Succeeds(n, op)
  {
    var c := ChangeOf(n.nodeID, n.replica.tables, op).value;
    Entry(LogID(n.nodeID, now.nanos, n.lastLogID + 1), now.seconds, n.nodeID,
          c.operation, c.table, c.data, n.replica.version + 1)
  }

  function Execute(n: Node, op: Op, now: Stamp): Node {
    match ChangeOf(n.nodeID, n.replica.tables, op)
    case None => n
    case Some(c) =>
      var m := n.(replica := Replica(c.tables, n.replica.version + 1));
      if n.role.CoreNode?
      then m.(lastLogID := n.lastLogID + 1, channel := n.channel + [EntryFor(n, op, now)])
      else m
  }

  /** `processReplicationLog` on the entry at the head of the channel. */
  function Drain(n: Node): Node {
    if n.channel == [] then n
    else n.(channel := n.channel[1..], logs := Last(n.logs + [n.channel[0]], MAX_LOGS))
  }

  // ----- Applying an entry -----

  function ApplyTables(t: Tables, e: Entry): Tables {
    match e.table
    case Subscriptions =>
      var s := DecodeSubscription(e.data);
      var key := SubscriptionKey(s.clientID, s.topicFilter);
      (match e.operation
       case Insert => t.(subscriptions := t.subscriptions[key := s])
       case Update => t.(subscriptions := t.subscriptions[key := s])
       case Delete => t.(subscriptions := t.subscriptions - {key})
       case OtherOperation(_) => t)
    case Sessions =>
      var s := DecodeSession(e.data);
      (match e.operation
       case Insert => t.(sessions := t.sessions[s.clientID := s])
       case Update => t.(sessions := t.sessions[s.clientID := s])
       case Delete => t.(sessions := t.sessions - {s.clientID})
       case OtherOperation(_) => t)
    case Routes =>
      var r := DecodeRoute(e.data);
      (match e.operation
       case Insert => t.(routes := t.routes[r.topicFilter := r])
       case Update => t.(routes := t.routes[r.topicFilter := r])
       case Delete => t.(routes := t.routes - {r.topicFilter})
       case OtherOperation(_) => t)
    case OtherTable(_) => t
  }

  /** An unknown table is refused and leaves the version alone. */
  function Apply(r: Replica, e: Entry): Replica {
    if e.table.OtherTable? then r else Replica(ApplyTables(r.tables, e), e.version)
  }

  function Replay(r: Replica, es: seq<Entry>): Replica {
    if es == [] then r else Apply(Replay(r, es[..|es| - 1]), es[|es| - 1])
  }

  // ----- Runs of one node -----

  datatype Action = Do(op: Op, now: Stamp) | Process

  function Step(n: Node, a: Action): Node {
    match a
    case Do(op, now) => Execute(n, op, now)
    case Process => Drain(n)
  }

  function Run(n: Node, actions: seq<Action>): Node {
    if actions == [] then n else Step(Run(n, actions[..|actions| - 1]), actions[|actions| - 1])
  }

  /** Whether the last action of the run sends an entry. */
  predicate Sends(n: Node, a: Action) {
    a.Do? && n.role.CoreNode? && Succeeds(n, a.op)
  }

  /** Everything a run sends into the channel, in order. */
  function Emitted(n: Node, actions: seq<Action>): seq<Entry> {
    if actions == [] then []
    else
      var before := Run(n, actions[..|actions| - 1]);
      var a := actions[|actions| - 1];
      Emitted(n, actions[..|actions| - 1]) + (if Sends(before, a) then [EntryFor(before, a.op, a.now)] else [])
  }

  /** The tables and version of the node itself: first the initial ones, then those after each operation that sent. */
  function Snapshots(n: Node, actions: seq<Action>): seq<Replica> {
    if actions == [] then [n.replica]
    else
      var before := Run(n, actions[..|actions| - 1]);
      var a := actions[|actions| - 1];
      Snapshots(n, actions[..|actions| - 1]) + (if Sends(before, a) then [Step(before, a).replica] else [])
  }

  /** How many entries the loop has drained. */
  function Processed(n: Node, actions: seq<Action>): nat {
    if actions == [] then 0
    else
      var before := Run(n, actions[..|actions| - 1]);
      Processed(n, actions[..|actions| - 1]) + (if actions[|actions| - 1].Process? && before.channel != [] then 1 else 0)
  }

  // ----- Replay correctness -----

  /** Every stored value sits under the key its own fields determine. */
  ghost predicate WellKeyed(t: Tables) {
    && (forall k <- t.subscriptions :: k == SubscriptionKey(t.subscriptions[k].clientID, t.subscriptions[k].topicFilter))
    && (forall k <- t.sessions :: k == t.sessions[k].clientID)
    && (forall k <- t.routes :: k == t.routes[k].topicFilter)
  }

  lemma ChangeKeepsKeys(nodeID: string, t: Tables, op: Op)
    requires WellKeyed(t)
    requires ChangeOf(nodeID, t, op).Some?
    ensures WellKeyed(ChangeOf(nodeID, t, op).value.tables)
  {
  }

  lemma ApplyKeepsKeys(t: Tables, e: Entry)
    requires WellKeyed(t)
    ensures WellKeyed(ApplyTables(t, e))
  {
    KeyedSubscriptions(t, e);
    KeyedSessions(t, e);
    KeyedRoutes(t, e);
    assert e.table.OtherTable? ==> ApplyTables(t, e) == t;
    hide ApplyTables, WellKeyed;
  }

  lemma KeyedSubscriptions(t: Tables, e: Entry)
    requires WellKeyed(t)
    ensures e.table.Subscriptions? ==> WellKeyed(ApplyTables(t, e))
  {
  }

  lemma KeyedSessions(t: Tables, e: Entry)
    requires WellKeyed(t)
    ensures e.table.Sessions? ==> WellKeyed(ApplyTables(t, e))
  {
  }

  lemma KeyedRoutes(t: Tables, e: Entry)
    requires WellKeyed(t)
    ensures e.table.Routes? ==> WellKeyed(ApplyTables(t, e))
  {
  }

  /** One step: applying the emitted entry to the sender's old tables gives the sender's new tables. */
  lemma ApplyMirrorsExecute(n: Node, op: Op, now: Stamp)
    requires Succeeds(n, op) && WellKeyed(n.replica.tables)
    ensures Apply(n.replica, EntryFor(n, op, now)) == Execute(n, op, now).replica
  {
  }

  lemma LastReplayStep(n: Node, a: Action)
    requires Sends(n, a) && WellKeyed(n.replica.tables)
    ensures a.Do? && Succeeds(n, a.op)
    ensures Apply(n.replica, EntryFor(n, a.op, a.now)) == Step(n, a).replica
  {
    ApplyMirrorsExecute(n, a.op, a.now);
  }

  lemma {:induction false} RunKeepsKeys(nodeID: string, role: Role, actions: seq<Action>)
    ensures WellKeyed(Run(NewNode(nodeID, role), actions).replica.tables)
    ensures Run(NewNode(nodeID, role), actions).role == role
    ensures Run(NewNode(nodeID, role), actions).nodeID == nodeID
  {
    if actions != [] {
      var before := Run(NewNode(nodeID, role), actions[..|actions| - 1]);
      RunKeepsKeys(nodeID, role, actions[..|actions| - 1]);
      var a := actions[|actions| - 1];
      if a.Do? && Succeeds(before, a.op) {
        ChangeKeepsKeys(before.nodeID, before.replica.tables, a.op);
      }
    }
  }

  /** The entries carry versions 1, 2, 3, ... and ID numbers 1, 2, 3, ...; failed removals leave no gap. */
  lemma {:induction false} VersionsAreConsecutive(nodeID: string, actions: seq<Action>)
    ensures var n := NewNode(nodeID, CoreNode); var es := Emitted(n, actions); var after := Run(n, actions);
            && after.role.CoreNode? && after.nodeID == nodeID
            && after.replica.version == after.lastLogID == |es|
            && (forall i :: 0 <= i < |es| ==> es[i].version == i + 1 && es[i].id.number == i + 1)
  {
    if actions != [] {
      VersionsAreConsecutive(nodeID, actions[..|actions| - 1]);
    }
  }

  lemma ReplayAppend(r: Replica, es: seq<Entry>, e: Entry)
    ensures Replay(r, es + [e]) == Apply(Replay(r, es), e)
  {
    assert (es + [e])[..|es|] == es;
  }

  lemma {:induction false} ReplayConcat(r: Replica, es: seq<Entry>, fs: seq<Entry>)
    ensures Replay(r, es + fs) == Replay(Replay(r, es), fs)
  {
    if fs == [] {
      assert es + fs == es;
    } else {
      var k := |fs| - 1;
      ReplayConcat(r, es, fs[..k]);
      assert es + fs == (es + fs[..k]) + [fs[k]];
      ReplayAppend(r, es + fs[..k], fs[k]);
    }
  }

  /** How the two recordings grow with the last action. */
  lemma RecordingsGrow(n: Node, front: seq<Action>, a: Action)
    ensures Run(n, front + [a]) == Step(Run(n, front), a)
    ensures var before := Run(n, front);
            if Sends(before, a) then
              && Emitted(n, front + [a]) == Emitted(n, front) + [EntryFor(before, a.op, a.now)]
              && Snapshots(n, front + [a]) == Snapshots(n, front) + [Step(before, a).replica]
            else
              && Emitted(n, front + [a]) == Emitted(n, front)
              && Snapshots(n, front + [a]) == Snapshots(n, front)
  {
    assert (front + [a])[..|front|] == front;
  }

  lemma {:induction false} SnapshotCount(nodeID: string, actions: seq<Action>)
    ensures var n := NewNode(nodeID, CoreNode); var es := Emitted(n, actions);
            |Snapshots(n, actions)| == |es| + 1 && Snapshots(n, actions)[|es|] == Run(n, actions).replica
  {
    if actions != [] {
      SnapshotCount(nodeID, actions[..|actions| - 1]);
      RunKeepsKeys(nodeID, CoreNode, actions[..|actions| - 1]);
    }
  }

  lemma NothingRecorded(nodeID: string)
    ensures var n := NewNode(nodeID, CoreNode); Emitted(n, []) == [] && Snapshots(n, []) == [EMPTY_REPLICA]
    ensures Replay(EMPTY_REPLICA, []) == EMPTY_REPLICA
  {
  }

  /**
   Replay correctness.  For every run of a core node and every k, applying the first k emitted entries to an empty
   replicant gives exactly the tables and version the core had after its k-th successful operation.
   */
  lemma {:induction false} ReplayCorrectness(nodeID: string, actions: seq<Action>, k: nat)
    requires k <= |Emitted(NewNode(nodeID, CoreNode), actions)|
    ensures var n := NewNode(nodeID, CoreNode); var es := Emitted(n, actions); var shots := Snapshots(n, actions);
            && |shots| == |es| + 1
            && shots[|es|] == Run(n, actions).replica
            && Replay(EMPTY_REPLICA, es[..k]) == shots[k]
  {
    hide *;
    var n := NewNode(nodeID, CoreNode);
    SnapshotCount(nodeID, actions);
    if actions == [] {
      NothingRecorded(nodeID);
    } else {
      var front, a := actions[..|actions| - 1], actions[|actions| - 1];
      assert actions == front + [a];
      var before := Run(n, front);
      var es, fs := Emitted(n, actions), Emitted(n, front);
      RecordingsGrow(n, front, a);
      SnapshotCount(nodeID, front);
      if k <= |fs| {
        ReplayCorrectness(nodeID, front, k);
        assert es[..k] == fs[..k];
      } else {
        ReplayCorrectness(nodeID, front, |fs|);
        RunKeepsKeys(nodeID, CoreNode, front);
        LastReplayStep(before, a);
        ReplayAppend(EMPTY_REPLICA, fs, EntryFor(before, a.op, a.now));
        assert es[..k] == es && fs[..|fs|] == fs;
      }
    }
  }

  /** AddSession never labels its entry INSERT, whatever the table held before. */
  lemma AddSessionIsAlwaysUpdate(n: Node, clientID: string, connected: bool, clean: bool, expiry: int, now: Stamp)
    ensures EntryFor(n, AddSession(clientID, connected, clean, expiry), now).operation == Update
  {
  }

  // ----- The truncated log -----

  /** The channel holds what is not drained yet; the kept log is exactly the newest entries of what is. */
  lemma {:induction false} LogIsNewestSuffix(nodeID: string, actions: seq<Action>)
    ensures var n := NewNode(nodeID, CoreNode);
            var es := Emitted(n, actions); var p := Processed(n, actions); var after := Run(n, actions);
            && p <= |es|
            && after.channel == es[p..]
            && after.logs == Last(es[..p], MAX_LOGS)
  {
    hide *;
    var n := NewNode(nodeID, CoreNode);
    if actions == [] {
      NothingRecorded(nodeID);
      NothingLogged(nodeID);
    } else {
      var front, a := actions[..|actions| - 1], actions[|actions| - 1];
      assert actions == front + [a];
      LogIsNewestSuffix(nodeID, front);
      RunKeepsKeys(nodeID, CoreNode, front);
      RecordingsGrow(n, front, a);
      LogsGrow(n, front, a);
      var es, p, before := Emitted(n, front), Processed(n, front), Run(n, front);
      if a.Process? && before.channel != [] {
        TrimStep(es, p);
      } else {
        assert Emitted(n, actions)[..p] == es[..p];
      }
    }
  }

  lemma NothingLogged(nodeID: string)
    ensures var n := NewNode(nodeID, CoreNode);
            Processed(n, []) == 0 && Run(n, []).channel == [] && Run(n, []).logs == Last([], MAX_LOGS)
  {
  }

  /** How the channel and the log change with the last action. */
  lemma LogsGrow(n: Node, front: seq<Action>, a: Action)
    requires Run(n, front).role.CoreNode?
    ensures var before, after := Run(n, front), Run(n, front + [a]);
            if a.Process? && before.channel != [] then
              && !Sends(before, a) && Processed(n, front + [a]) == Processed(n, front) + 1
              && after.channel == before.channel[1..] && after.logs == Last(before.logs + [before.channel[0]], MAX_LOGS)
            else
              && Processed(n, front + [a]) == Processed(n, front) && after.logs == before.logs
              && after.channel == before.channel + if Sends(before, a) then [EntryFor(before, a.op, a.now)] else []
  {
    assert (front + [a])[..|front|] == front;
    hide ChangeOf, EntryFor;
  }

  lemma TrimStep(es: seq<Entry>, p: nat)
    requires p < |es|
    ensures Last(Last(es[..p], MAX_LOGS) + [es[p]], MAX_LOGS) == Last(es[..p + 1], MAX_LOGS)
  {
    assert es[..p + 1] == es[..p] + [es[p]];
    LastOfAppend(es[..p], es[p], MAX_LOGS);
  }

  /** The kept entries newer than a version. */
  function Above(es: seq<Entry>, v: int): seq<Entry> {
    if es == [] then []
    else Above(es[..|es| - 1], v) + (if es[|es| - 1].version > v then [es[|es| - 1]] else [])
  }

  lemma {:induction false} AboveOfConsecutive(es: seq<Entry>, base: int, v: int)
    requires forall i :: 0 <= i < |es| ==> es[i].version == base + i + 1
    ensures Above(es, v) == if v <= base then es else if v >= base + |es| then [] else es[v - base..]
  {
    if es != [] {
      AboveOfConsecutive(es[..|es| - 1], base, v);
      assert es == es[..|es| - 1] + [es[|es| - 1]];
    }
  }

  /** The oldest version from which the kept log is complete. */
  function Horizon(n: Node, actions: seq<Action>): nat {
    var p := Processed(n, actions);
    if p <= MAX_LOGS then 0 else p - MAX_LOGS
  }

  /** What the kept log offers above version v is the full list of missing entries, exactly for v at or past the horizon. */
  lemma KeptLogIsCompleteIff(nodeID: string, actions: seq<Action>, v: nat)
    requires v <= Processed(NewNode(nodeID, CoreNode), actions)
    ensures var n := NewNode(nodeID, CoreNode); var p := Processed(n, actions); var es := Emitted(n, actions);
            && p <= |es|
            && (Above(Run(n, actions).logs, v) == es[v..p] <==> v >= Horizon(n, actions))
  {
    hide *;
    var n := NewNode(nodeID, CoreNode);
    LogIsNewestSuffix(nodeID, actions);
    VersionsAreConsecutive(nodeID, actions);
    var es, p := Emitted(n, actions), Processed(n, actions);
    KeptIsSlice(n, actions, es);
    OfferedIff(es, Horizon(n, actions), p, v);
  }

  lemma KeptIsSlice(n: Node, actions: seq<Action>, es: seq<Entry>)
    requires Processed(n, actions) <= |es|
    ensures Horizon(n, actions) <= Processed(n, actions)
    ensures Last(es[..Processed(n, actions)], MAX_LOGS) == es[Horizon(n, actions)..Processed(n, actions)]
  {
    hide Processed;
  }

  lemma OfferedIff(es: seq<Entry>, h: nat, p: nat, v: nat)
    requires h <= p <= |es| && v <= p && forall i :: 0 <= i < |es| ==> es[i].version == i + 1
    ensures Above(es[h..p], v) == es[v..p] <==> v >= h
  {
    AboveOfConsecutive(es[h..p], h, v);
    if v >= h {
      assert es[h..p][v - h..] == es[v..p];
    }
  }

  /**
   Catch-up.  A replicant that holds the core's v-th state, v not older than the horizon, reaches the state of the
   last drained entry by applying only the kept entries newer than v.
   */
  lemma CatchUp(nodeID: string, actions: seq<Action>, v: nat)
    requires Horizon(NewNode(nodeID, CoreNode), actions) <= v <= Processed(NewNode(nodeID, CoreNode), actions)
    ensures var n := NewNode(nodeID, CoreNode); var p := Processed(n, actions); var shots := Snapshots(n, actions);
            && p < |shots|
            && Replay(shots[v], Above(Run(n, actions).logs, v)) == shots[p]
            && (Run(n, actions).channel == [] ==> shots[p] == Run(n, actions).replica)
  {
    hide *;
    var n := NewNode(nodeID, CoreNode);
    var es, p := Emitted(n, actions), Processed(n, actions);
    LogIsNewestSuffix(nodeID, actions);
    KeptLogIsCompleteIff(nodeID, actions, v);
    ReplayCorrectness(nodeID, actions, v);
    ReplayCorrectness(nodeID, actions, p);
    ReplayConcat(EMPTY_REPLICA, es[..v], es[v..p]);
    assert es[..v] + es[v..p] == es[..p];
  }

  // ----- The manager -----

  /** ReplicationManager with its ReplicationState; callbacks unset. */
  class ReplicationManager {
    const nodeID: string
    const nodeRole: Role
    var subscriptions: map<string, Subscription>
    var sessions: map<string, Session>
    var routes: map<string, Route>
    var replicationLogs: seq<Entry>
    var replicationCh: seq<Entry>
    var lastLogID: int
    var version: int

    ghost function View(): Node
      reads this
    {
      Node(nodeID, nodeRole, Replica(Tables(subscriptions, sessions, routes), version),
           lastLogID, replicationCh, replicationLogs)
    }

    constructor (nodeID: string, nodeRole: Role)
      ensures View() == NewNode(nodeID, nodeRole)
    {
      this.nodeID := nodeID;
      this.nodeRole := nodeRole;
      subscriptions, sessions, routes := map[], map[], map[];
      replicationLogs, replicationCh := [], [];
      lastLogID, version := 0, 0;
    }

    method GenerateLogID(now: Stamp) returns (id: LogID)
      modifies this`lastLogID
      ensures lastLogID == old(lastLogID) + 1
      ensures id == LogID(nodeID, now.nanos, lastLogID)
    {
      lastLogID := lastLogID + 1;
      id := LogID(nodeID, now.nanos, lastLogID);
    }

    /** The part shared by all five operations: send an entry for a change already made. */
    method Emit(operation: Operation, table: Table, data: Data, now: Stamp)
      modifies this`lastLogID, this`replicationCh
      ensures nodeRole.ReplicantNode? ==> lastLogID == old(lastLogID) && replicationCh == old(replicationCh)
      ensures nodeRole.CoreNode? ==>
                && lastLogID == old(lastLogID) + 1
                && replicationCh == old(replicationCh)
                   + [Entry(LogID(nodeID, now.nanos, old(lastLogID) + 1), now.seconds, nodeID,
                            operation, table, data, version)]
    {
      if nodeRole == CoreNode {
        var id := GenerateLogID(now);
        replicationCh := replicationCh + [Entry(id, now.seconds, nodeID, operation, table, data, version)];
      }
    }

    method AddSubscription(clientID: string, topicFilter: string, qos: int, now: Stamp)
      modifies this
      ensures View() == Execute(old(View()), Op.AddSubscription(clientID, topicFilter, qos), now)
    {
      var key := SubscriptionKey(clientID, topicFilter);
      var subscription := Subscription(clientID, topicFilter, qos, nodeID);
      subscriptions := subscriptions[key := subscription];
      version := version + 1;
      Emit(Insert, Subscriptions, EncodeSubscription(subscription), now);
    }

    method RemoveSubscription(clientID: string, topicFilter: string, now: Stamp) returns (ok: bool)
      modifies this
      ensures View() == Execute(old(View()), Op.RemoveSubscription(clientID, topicFilter), now)
      ensures ok <==> Succeeds(old(View()), Op.RemoveSubscription(clientID, topicFilter))
    {
      var key := SubscriptionKey(clientID, topicFilter);
      if key !in subscriptions {
        return false;
      }
      var subscription := subscriptions[key];
      subscriptions := subscriptions - {key};
      version := version + 1;
      Emit(Delete, Subscriptions, EncodeSubscription(subscription), now);
      ok := true;
    }

    method AddSession(clientID: string, connected: bool, cleanSession: bool, expiryTime: int, now: Stamp)
      modifies this
      ensures View() == Execute(old(View()), Op.AddSession(clientID, connected, cleanSession, expiryTime), now)
    {
      var session := Session(clientID, nodeID, connected, cleanSession, expiryTime);
      sessions := sessions[clientID := session];
      version := version + 1;
      var operation := if clientID in sessions then Update else Insert;
      Emit(operation, Sessions, EncodeSession(session), now);
    }

    method RemoveSession(clientID: string, now: Stamp) returns (ok: bool)
      modifies this
      ensures View() == Execute(old(View()), Op.RemoveSession(clientID), now)
      ensures ok <==> Succeeds(old(View()), Op.RemoveSession(clientID))
    {
      if clientID !in sessions {
        return false;
      }
      var session := sessions[clientID];
      sessions := sessions - {clientID};
      version := version + 1;
      Emit(Delete, Sessions, EncodeSession(session), now);
      ok := true;
    }

    method UpdateRoute(topicFilter: string, nodeIDs: seq<string>, now: Stamp)
      modifies this
      ensures View() == Execute(old(View()), Op.UpdateRoute(topicFilter, nodeIDs), now)
    {
      var route := Route(topicFilter, nodeIDs);
      routes := routes[topicFilter := route];
      version := version + 1;
      Emit(Update, Routes, EncodeRoute(route), now);
    }

    /** One turn of the replication loop: take the oldest entry off the channel and keep the newest thousand. */
    method ProcessReplicationLog()
      modifies this
      ensures View() == Drain(old(View()))
    {
      if replicationCh != [] {
        replicationLogs := replicationLogs + [replicationCh[0]];
        replicationCh := replicationCh[1..];
        if |replicationLogs| > MAX_LOGS {
          replicationLogs := replicationLogs[|replicationLogs| - MAX_LOGS..];
        }
      }
    }

    method ApplyReplicationLog(e: Entry) returns (ok: bool)
      modifies this
      ensures ok <==> !e.table.OtherTable?
      ensures View() == old(View()).(replica := Apply(old(View()).replica, e))
    {
      match e.table {
        case Subscriptions => ApplySubscriptionChange(e);
        case Sessions => ApplySessionChange(e);
        case Routes => ApplyRouteChange(e);
        case OtherTable(_) => return false;
      }
      ok := true;
    }

    method ApplySubscriptionChange(e: Entry)
      requires e.table.Subscriptions?
      modifies this`subscriptions, this`version
      ensures View() == old(View()).(replica := Apply(old(View()).replica, e))
    {
      var subscription := DecodeSubscription(e.data);
      var key := SubscriptionKey(subscription.clientID, subscription.topicFilter);
      if e.operation == Insert || e.operation == Update {
        subscriptions := subscriptions[key := subscription];
      } else if e.operation == Delete {
        subscriptions := subscriptions - {key};
      }
      version := e.version;
    }

    method ApplySessionChange(e: Entry)
      requires e.table.Sessions?
      modifies this`sessions, this`version
      ensures View() == old(View()).(replica := Apply(old(View()).replica, e))
    {
      var session := DecodeSession(e.data);
      if e.operation == Insert || e.operation == Update {
        sessions := sessions[session.clientID := session];
      } else if e.operation == Delete {
        sessions := sessions - {session.clientID};
      }
      version := e.version;
    }

    method ApplyRouteChange(e: Entry)
      requires e.table.Routes?
      modifies this`routes, this`version
      ensures View() == old(View()).(replica := Apply(old(View()).replica, e))
    {
      var route := DecodeRoute(e.data);
      if e.operation == Insert || e.operation == Update {
        routes := routes[route.topicFilter := route];
      } else if e.operation == Delete {
        routes := routes - {route.topicFilter};
      }
      version := e.version;
    }
  }
}
