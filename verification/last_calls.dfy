/**
 The replicated tables read off the calls.

 Nothing here looks at a table to say what it should hold: for every run of a node, a row is what the last call about it
 left there, and the entries of the log are the calls that took effect, in order, with their arguments and clock readings.
 */
module LastCalls {
  import opened Common
  import opened Replication
  import opened ReplayOrder

  // ----- The last call about a row -----

  /** The row a call is about. */
  function RowOf(op: Op): Key {
    match op
    case AddSubscription(c, f, _) => SubscriptionRow(SubscriptionKey(c, f))
    case RemoveSubscription(c, f) => SubscriptionRow(SubscriptionKey(c, f))
    case AddSession(c, _, _, _) => SessionRow(c)
    case RemoveSession(c) => SessionRow(c)
    case UpdateRoute(f, _) => RouteRow(f)
  }

  /** The first client ID continues, after a colon, into the second filter. */
  ghost predicate Overlaps(c: string, f: string, d: string, g: string) {
    exists x :: c == d + ":" + x && g == x + ":" + f
  }

  /** Two subscriptions share a row if they are the same, or if one client ID is the other with a colon and more. */
  lemma SharedRowIff(c: string, f: string, d: string, g: string)
    ensures SubscriptionKey(c, f) == SubscriptionKey(d, g)
            <==> (c == d && f == g) || Overlaps(c, f, d, g) || Overlaps(d, g, c, f)
  {
    if SubscriptionKey(c, f) == SubscriptionKey(d, g) {
      if |c| > |d| {
        LongerClient(c, f, d, g);
      } else if |d| > |c| {
        LongerClient(d, g, c, f);
      } else {
        var key := SubscriptionKey(c, f);
        assert key[..|c|] == c && SubscriptionKey(d, g)[..|d|] == d;
        assert key[|c| + 1..] == f && SubscriptionKey(d, g)[|d| + 1..] == g;
      }
    }
    if Overlaps(c, f, d, g) {
      OverlapShares(c, f, d, g);
    }
    if Overlaps(d, g, c, f) {
      OverlapShares(d, g, c, f);
    }
  }

  lemma OverlapShares(c: string, f: string, d: string, g: string)
    requires Overlaps(c, f, d, g)
    ensures SubscriptionKey(c, f) == SubscriptionKey(d, g)
  {
    var x :| c == d + ":" + x && g == x + ":" + f;
    assert SubscriptionKey(c, f) == d + ":" + x + ":" + f;
    assert SubscriptionKey(d, g) == d + ":" + (x + ":" + f);
  }

  lemma LongerClient(c: string, f: string, d: string, g: string)
    requires SubscriptionKey(c, f) == SubscriptionKey(d, g) && |c| > |d|
    ensures Overlaps(c, f, d, g)
  {
    var key := SubscriptionKey(c, f);
    var x := c[|d| + 1..];
    assert key == d + ":" + g;
    assert key[..|c|] == c && key[..|d|] == d && key[|d|] == ':';
    assert c == d + ":" + x;
    assert key[|d| + 1..] == g && key[|d| + 1..] == x + ":" + f;
  }

  predicate Removes(op: Op) {
    op.RemoveSubscription? || op.RemoveSession?
  }

  function LastCall(actions: seq<Action>, k: Key): Option<Op> {
    if actions == [] then None
    else
      var a := actions[|actions| - 1];
      if a.Do? && RowOf(a.op) == k then Some(a.op) else LastCall(actions[..|actions| - 1], k)
  }

  /** The last call about the row put something there. */
  predicate Present(actions: seq<Action>, k: Key) {
    LastCall(actions, k).Some? && !Removes(LastCall(actions, k).value)
  }

  /** The row is what the call left there, argument by argument. */
  predicate LeftBy(nodeID: string, row: Option<Cell>, last: Option<Op>) {
    match last
    case Some(AddSubscription(c, f, qos)) =>
      && row.Some? && row.value.SubscriptionCell?
      && var s := row.value.s; s.clientID == c && s.topicFilter == f && s.qos == qos && s.nodeID == nodeID
    case Some(AddSession(c, connected, clean, expiry)) =>
      && row.Some? && row.value.SessionCell?
      && var s := row.value.c;
         s.clientID == c && s.nodeID == nodeID && s.connected == connected && s.cleanSession == clean
         && s.expiryTime == expiry
    case Some(UpdateRoute(f, ids)) =>
      row.Some? && row.value.RouteCell? && row.value.r.topicFilter == f && row.value.r.nodeIDs == ids
    case _ => row.None?
  }

  lemma CallLeaves(n: Node, op: Op, now: Stamp, k: Key)
    ensures var t, u := n.replica.tables, Execute(n, op, now).replica.tables;
            if RowOf(op) == k then LeftBy(n.nodeID, Lookup(u, k), Some(op)) else Lookup(u, k) == Lookup(t, k)
    ensures Execute(n, op, now).nodeID == n.nodeID
  {
  }

  lemma DrainLeaves(n: Node)
    ensures Drain(n).replica == n.replica && Drain(n).nodeID == n.nodeID
  {
  }

  /**
   Last writer wins.  After every run of calls, on a core node or a replicant, each row of each table is absent if there
   was no call about it or the last one removed it; otherwise it holds the arguments of that last call and the ID of the
   node.
   */
  lemma {:induction false} RowsAreLastCalls(nodeID: string, role: Role, actions: seq<Action>, k: Key)
    ensures var n := Run(NewNode(nodeID, role), actions);
            n.nodeID == nodeID && LeftBy(nodeID, Lookup(n.replica.tables, k), LastCall(actions, k))
  {
    if actions != [] {
      var front, a := actions[..|actions| - 1], actions[|actions| - 1];
      RowsAreLastCalls(nodeID, role, front, k);
      var before := Run(NewNode(nodeID, role), front);
      hide Execute, Drain, Lookup, LeftBy, RowOf;
      if a.Do? {
        CallLeaves(before, a.op, a.now, k);
      } else {
        DrainLeaves(before);
      }
    }
  }

  /** A removal succeeds exactly when the last call about its row put something there; every other call succeeds. */
  lemma SucceedsIff(nodeID: string, role: Role, actions: seq<Action>, op: Op)
    ensures Succeeds(Run(NewNode(nodeID, role), actions), op) <==> (Removes(op) ==> Present(actions, RowOf(op)))
  {
    RowsAreLastCalls(nodeID, role, actions, RowOf(op));
    RowDecides(Run(NewNode(nodeID, role), actions), op);
    hide Succeeds, Lookup, Run;
  }

  lemma RowDecides(n: Node, op: Op)
    ensures Succeeds(n, op) <==> (Removes(op) ==> Lookup(n.replica.tables, RowOf(op)).Some?)
  {
  }

  // ----- The entries of the log -----

  /** The call takes effect: it is no removal of a row that is not there. */
  predicate TakesEffect(before: seq<Action>, a: Action) {
    a.Do? && (Removes(a.op) ==> Present(before, RowOf(a.op)))
  }

  /** The positions of the calls that take effect. */
  function Effective(actions: seq<Action>): (ps: seq<nat>)
    ensures forall i :: 0 <= i < |ps| ==> ps[i] < |actions| && actions[ps[i]].Do?
  {
    if actions == [] then []
    else
      var last := |actions| - 1;
      var ps := Effective(actions[..last]);
      if TakesEffect(actions[..last], actions[last]) then ps + [last] else ps
  }

  /** Adding a session is labelled UPDATE even when it is new. */
  function LabelOf(op: Op): Operation {
    match op
    case AddSubscription(_, _, _) => Insert
    case AddSession(_, _, _, _) => Update
    case UpdateRoute(_, _) => Update
    case _ => Delete
  }

  /** The entry tells of this call: when, where, which row, what was done to it, and as which version. */
  predicate Tells(nodeID: string, e: Entry, a: Action, version: int)
    requires a.Do?
  {
    && e.timestamp == a.now.seconds && e.nodeID == nodeID && e.version == version
    && e.id.nodeID == nodeID && e.id.nanos == a.now.nanos && e.id.number == version
    && e.operation == LabelOf(a.op) && KeyOf(e) == Some(RowOf(a.op))
    && (!Removes(a.op) ==> LeftBy(nodeID, Some(CellOf(e)), Some(a.op)))
  }

  lemma EntryTells(n: Node, a: Action)
    requires a.Do? && Succeeds(n, a.op) && WellKeyed(n.replica.tables)
    requires n.replica.version == n.lastLogID
    ensures Tells(n.nodeID, EntryFor(n, a.op, a.now), a, n.lastLogID + 1)
  {
  }

  ghost predicate TellsAll(nodeID: string, es: seq<Entry>, actions: seq<Action>, ps: seq<nat>) {
    && |es| == |ps|
    && forall i :: 0 <= i < |ps| ==>
                     ps[i] < |actions| && actions[ps[i]].Do? && Tells(nodeID, es[i], actions[ps[i]], i + 1)
  }

  /**
   The log is the list of the calls that took effect.  For every run of a core node the i-th entry sent tells of the i-th
   call that took effect, with its own clock reading, and no other entry is sent.
   */
  lemma {:induction false} EntriesAreCalls(nodeID: string, actions: seq<Action>)
    ensures TellsAll(nodeID, Emitted(NewNode(nodeID, CoreNode), actions), actions, Effective(actions))
  {
    hide *;
    var n := NewNode(nodeID, CoreNode);
    if actions == [] {
      NothingRecorded(nodeID);
      NothingTold(nodeID);
    } else {
      var front, a := actions[..|actions| - 1], actions[|actions| - 1];
      assert actions == front + [a];
      EntriesAreCalls(nodeID, front);
      RecordingsGrow(n, front, a);
      RunKeepsKeys(nodeID, CoreNode, front);
      VersionsAreConsecutive(nodeID, front);
      SendsIff(nodeID, front, a);
      var before := Run(n, front);
      if Sends(before, a) {
        SendsCall(before, a);
        EntryTells(before, a);
        OneMoreTold(nodeID, Emitted(n, front), EntryFor(before, a.op, a.now), front, a, Effective(front));
      } else {
        StillTold(nodeID, Emitted(n, front), front, a, Effective(front));
      }
    }
  }

  lemma NothingTold(nodeID: string)
    ensures TellsAll(nodeID, [], [], Effective([]))
  {
  }

  lemma SendsCall(n: Node, a: Action)
    requires Sends(n, a)
    ensures a.Do? && Succeeds(n, a.op)
  {
  }

  lemma SendsIff(nodeID: string, front: seq<Action>, a: Action)
    ensures var before := Run(NewNode(nodeID, CoreNode), front);
            && (Sends(before, a) <==> TakesEffect(front, a))
            && Effective(front + [a]) == if Sends(before, a) then Effective(front) + [|front|] else Effective(front)
  {
    assert (front + [a])[..|front|] == front;
    RunKeepsKeys(nodeID, CoreNode, front);
    if a.Do? {
      SucceedsIff(nodeID, CoreNode, front, a.op);
    }
    hide Run, Succeeds, Present;
  }

  lemma OneMoreTold(nodeID: string, es: seq<Entry>, e: Entry, front: seq<Action>, a: Action, ps: seq<nat>)
    requires TellsAll(nodeID, es, front, ps) && a.Do? && Tells(nodeID, e, a, |es| + 1)
    ensures TellsAll(nodeID, es + [e], front + [a], ps + [|front|])
  {
    hide Tells;
  }

  lemma StillTold(nodeID: string, es: seq<Entry>, front: seq<Action>, a: Action, ps: seq<nat>)
    requires TellsAll(nodeID, es, front, ps)
    ensures TellsAll(nodeID, es, front + [a], ps)
  {
    hide Tells;
  }

  // ----- Nodes that send nothing -----

  /** A replicant node that is called directly changes its own tables and sends nothing. */
  lemma {:induction false} ReplicantSendsNothing(nodeID: string, actions: seq<Action>)
    ensures var n := Run(NewNode(nodeID, ReplicantNode), actions);
            n.role.ReplicantNode? && n.channel == [] && n.logs == [] && n.lastLogID == 0
  {
    if actions != [] {
      ReplicantSendsNothing(nodeID, actions[..|actions| - 1]);
      hide ChangeOf;
    }
  }

  // ----- The replicant -----

  /**
   What a replicant holds after it has applied the first k entries: each row is what the last call about it, among the
   calls up to the k-th that took effect, left there.
   */
  lemma ReplicantFollowsCalls(nodeID: string, actions: seq<Action>, k: nat, row: Key)
    requires 0 < k <= |Emitted(NewNode(nodeID, CoreNode), actions)|
    ensures var es, ps := Emitted(NewNode(nodeID, CoreNode), actions), Effective(actions);
            && k <= |ps|
            && LeftBy(nodeID, Lookup(Replay(EMPTY_REPLICA, es[..k]).tables, row), LastCall(actions[..ps[k - 1] + 1], row))
  {
    hide *;
    EntriesAreCalls(nodeID, actions);
    SameCount(nodeID, Emitted(NewNode(nodeID, CoreNode), actions), actions, Effective(actions));
    ReplayCorrectness(nodeID, actions, k);
    SnapshotsAreRuns(nodeID, actions, k);
    RowsAreLastCalls(nodeID, CoreNode, actions[..Effective(actions)[k - 1] + 1], row);
  }

  lemma SameCount(nodeID: string, es: seq<Entry>, actions: seq<Action>, ps: seq<nat>)
    requires TellsAll(nodeID, es, actions, ps)
    ensures |es| == |ps| && forall i :: 0 <= i < |ps| ==> ps[i] < |actions|
  {
  }

  /** The k-th snapshot is the state right after the k-th call that took effect. */
  lemma {:induction false} SnapshotsAreRuns(nodeID: string, actions: seq<Action>, k: nat)
    requires 0 < k <= |Effective(actions)|
    ensures var n := NewNode(nodeID, CoreNode); var ps := Effective(actions);
            && k < |Snapshots(n, actions)|
            && Snapshots(n, actions)[k] == Run(n, actions[..ps[k - 1] + 1]).replica
  {
    var n := NewNode(nodeID, CoreNode);
    hide *;
    EffectiveOfNone();
    var front, a := actions[..|actions| - 1], actions[|actions| - 1];
    assert actions == front + [a];
    EntriesAreCalls(nodeID, front);
    SameCount(nodeID, Emitted(n, front), front, Effective(front));
    SnapshotCount(nodeID, front);
    RecordingsGrow(n, front, a);
    SendsIff(nodeID, front, a);
    if k <= |Effective(front)| {
      SnapshotsAreRuns(nodeID, front, k);
      assert front[..Effective(front)[k - 1] + 1] == actions[..Effective(front)[k - 1] + 1];
    } else {
      assert actions[..|front| + 1] == actions;
    }
  }

  lemma EffectiveOfNone()
    ensures Effective([]) == []
  {
  }
}
