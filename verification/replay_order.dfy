/**
 Delivery order of replication entries.

 pkg/cluster/manager.go sends every forward from its own goroutine, so entries may reach a replicant in another order
 than the core sent them.  These lemmas say which reorderings are harmless.
 */
module ReplayOrder {
  import opened Common
  import opened Replication

  /** A row of one of the three tables. */
  datatype Key = SubscriptionRow(key: string) | SessionRow(key: string) | RouteRow(key: string)

  datatype Cell = SubscriptionCell(s: Subscription) | SessionCell(c: Session) | RouteCell(r: Route)

  function Lookup(t: Tables, k: Key): Option<Cell> {
    match k
    case SubscriptionRow(key) => if key in t.subscriptions then Some(SubscriptionCell(t.subscriptions[key])) else None
    case SessionRow(key) => if key in t.sessions then Some(SessionCell(t.sessions[key])) else None
    case RouteRow(key) => if key in t.routes then Some(RouteCell(t.routes[key])) else None
  }

  /** The row an entry touches; entries for unknown tables touch none. */
  function KeyOf(e: Entry): Option<Key> {
    match e.table
    case Subscriptions => Some(SubscriptionRow(SubscriptionKey(e.data.clientID, e.data.topicFilter)))
    case Sessions => Some(SessionRow(e.data.clientID))
    case Routes => Some(RouteRow(e.data.topicFilter))
    case OtherTable(_) => None
  }

  function CellOf(e: Entry): Cell
    requires KeyOf(e).Some?
  {
    match e.table
    case Subscriptions => SubscriptionCell(DecodeSubscription(e.data))
    case Sessions => SessionCell(DecodeSession(e.data))
    case Routes => RouteCell(DecodeRoute(e.data))
  }

  /** What an entry makes of the row it touches. */
  function Write(e: Entry, was: Option<Cell>): Option<Cell>
    requires KeyOf(e).Some?
  {
    match e.operation
    case Insert => Some(CellOf(e))
    case Update => Some(CellOf(e))
    case Delete => None
    case OtherOperation(_) => was
  }

  lemma ApplyIsLocal(t: Tables, e: Entry, k: Key)
    ensures Lookup(ApplyTables(t, e), k) == if KeyOf(e) == Some(k) then Write(e, Lookup(t, k)) else Lookup(t, k)
  {
  }

  lemma TablesAreTheirRows(a: Tables, b: Tables)
    requires forall k :: Lookup(a, k) == Lookup(b, k)
    ensures a == b
  {
    assert a.subscriptions == b.subscriptions by {
      forall x ensures x in a.subscriptions <==> x in b.subscriptions
               ensures x in a.subscriptions ==> a.subscriptions[x] == b.subscriptions[x] {
        assert Lookup(a, SubscriptionRow(x)) == Lookup(b, SubscriptionRow(x));
      }
    }
    assert a.sessions == b.sessions by {
      forall x ensures x in a.sessions <==> x in b.sessions
               ensures x in a.sessions ==> a.sessions[x] == b.sessions[x] {
        assert Lookup(a, SessionRow(x)) == Lookup(b, SessionRow(x));
      }
    }
    assert a.routes == b.routes by {
      forall x ensures x in a.routes <==> x in b.routes
               ensures x in a.routes ==> a.routes[x] == b.routes[x] {
        assert Lookup(a, RouteRow(x)) == Lookup(b, RouteRow(x));
      }
    }
  }

  /** The entries that touch one row, in order. */
  function Touching(es: seq<Entry>, k: Key): (r: seq<Entry>)
    ensures forall e <- r :: KeyOf(e) == Some(k)
  {
    if es == [] then []
    else Touching(es[..|es| - 1], k) + (if KeyOf(es[|es| - 1]) == Some(k) then [es[|es| - 1]] else [])
  }

  function Writes(es: seq<Entry>, was: Option<Cell>): Option<Cell>
    requires forall e <- es :: KeyOf(e).Some?
  {
    if es == [] then was else Write(es[|es| - 1], Writes(es[..|es| - 1], was))
  }

  lemma WritesAppend(es: seq<Entry>, e: Entry, was: Option<Cell>)
    requires forall x <- es + [e] :: KeyOf(x).Some?
    ensures (forall x <- es :: KeyOf(x).Some?) && KeyOf(e).Some?
    ensures Writes(es + [e], was) == Write(e, Writes(es, was))
  {
    assert (es + [e])[..|es|] == es;
    assert forall x <- es :: x in es + [e];
    assert e in es + [e];
  }

  lemma ReplayIsLocal(r: Replica, es: seq<Entry>, k: Key)
    requires es != []
    ensures var e := es[|es| - 1]; var was := Lookup(Replay(r, es[..|es| - 1]).tables, k);
            Lookup(Replay(r, es).tables, k) == if KeyOf(e) == Some(k) then Write(e, was) else was
  {
    hide Lookup, ApplyTables, Write, Replay;
    assert Replay(r, es) == Apply(Replay(r, es[..|es| - 1]), es[|es| - 1]) by { LastOfReplay(r, es); }
    ApplyIsLocal(Replay(r, es[..|es| - 1]).tables, es[|es| - 1], k);
  }

  lemma LastOfReplay(r: Replica, es: seq<Entry>)
    requires es != []
    ensures Replay(r, es) == Apply(Replay(r, es[..|es| - 1]), es[|es| - 1])
  {
  }

  /** A row after a replay depends only on the entries that touch it. */
  lemma {:induction false} ReplayAtRow(r: Replica, es: seq<Entry>, k: Key)
    ensures Lookup(Replay(r, es).tables, k) == Writes(Touching(es, k), Lookup(r.tables, k))
  {
    hide Lookup, Write, Writes;
    if es == [] {
      assert Writes([], Lookup(r.tables, k)) == Lookup(r.tables, k) by { NoWrites(Lookup(r.tables, k)); }
    } else {
      var front, e := es[..|es| - 1], es[|es| - 1];
      ReplayAtRow(r, front, k);
      ReplayIsLocal(r, es, k);
      if KeyOf(e) == Some(k) {
        WritesAppend(Touching(front, k), e, Lookup(r.tables, k));
      } else {
        assert Touching(es, k) == Touching(front, k);
      }
    }
  }

  lemma NoWrites(was: Option<Cell>)
    ensures Writes([], was) == was
  {
  }

  /** The version of the last entry for a known table, whatever versions came before it. */
  function LastVersion(es: seq<Entry>, was: int): int {
    if es == [] then was
    else if es[|es| - 1].table.OtherTable? then LastVersion(es[..|es| - 1], was)
    else es[|es| - 1].version
  }

  /** A replicant takes over the version of whatever entry it applied last: out of order, also an older one. */
  lemma {:induction false} VersionIsOfLastEntry(r: Replica, es: seq<Entry>)
    ensures Replay(r, es).version == LastVersion(es, r.version)
  {
    if es != [] {
      VersionIsOfLastEntry(r, es[..|es| - 1]);
      hide ApplyTables;
    }
  }

  /** Two lists with the same entries in the same order for every row leave the same tables, from any start. */
  lemma RowOrderDeterminesTables(r: Replica, es: seq<Entry>, fs: seq<Entry>)
    requires forall k :: Touching(es, k) == Touching(fs, k)
    ensures Replay(r, es).tables == Replay(r, fs).tables
  {
    forall k ensures Lookup(Replay(r, es).tables, k) == Lookup(Replay(r, fs).tables, k) {
      ReplayAtRow(r, es, k);
      ReplayAtRow(r, fs, k);
    }
    TablesAreTheirRows(Replay(r, es).tables, Replay(r, fs).tables);
  }

  // ----- Delivery orders as permutations of positions -----

  ghost predicate Distinct<T>(s: seq<T>) {
    forall i, j :: 0 <= i < j < |s| ==> s[i] != s[j]
  }

  ghost predicate Before<T>(s: seq<T>, x: T, y: T) {
    exists i, j :: 0 <= i < j < |s| && s[i] == x && s[j] == y
  }

  predicate Positions(order: seq<nat>, n: nat) {
    forall i :: 0 <= i < |order| ==> order[i] < n
  }

  /** `order` lists every position 0..n once. */
  ghost predicate DeliveryOrder(order: seq<nat>, n: nat) {
    && Distinct(order)
    && Positions(order, n)
    && (forall x: nat :: x in order <==> x < n)
  }

  function Delivered(log: seq<Entry>, order: seq<nat>): seq<Entry>
    requires Positions(order, |log|)
  {
    seq(|order|, i requires 0 <= i < |order| => log[order[i]])
  }

  /** The two orders agree on any two entries that touch the same row. */
  ghost predicate SameRowOrder(log: seq<Entry>, p: seq<nat>, q: seq<nat>) {
    forall x: nat, y: nat :: x < |log| && y < |log| && KeyOf(log[x]).Some? && KeyOf(log[x]) == KeyOf(log[y]) ==>
                               (Before(p, x, y) <==> Before(q, x, y))
  }

  /** The positions in `order` whose entry touches row k. */
  function Picked(log: seq<Entry>, order: seq<nat>, k: Key): (r: seq<nat>)
    requires Positions(order, |log|)
    ensures Positions(r, |log|)
    ensures forall x: nat :: x in r <==> x in order && KeyOf(log[x]) == Some(k)
  {
    if order == [] then []
    else
      var front, x := order[..|order| - 1], order[|order| - 1];
      assert order == front + [x];
      Picked(log, front, k) + (if KeyOf(log[x]) == Some(k) then [x] else [])
  }

  lemma {:induction false} TouchingDelivered(log: seq<Entry>, order: seq<nat>, k: Key)
    requires Positions(order, |log|)
    ensures Touching(Delivered(log, order), k) == Delivered(log, Picked(log, order, k))
  {
    if order != [] {
      var front, x := order[..|order| - 1], order[|order| - 1];
      TouchingDelivered(log, front, k);
      assert Delivered(log, order)[..|order| - 1] == Delivered(log, front);
      assert Delivered(log, Picked(log, front, k) + [x]) == Delivered(log, Picked(log, front, k)) + [log[x]];
    }
  }

  lemma BeforeOfAppend<T>(s: seq<T>, z: T, x: T, y: T)
    ensures Before(s + [z], x, y) <==> Before(s, x, y) || (x in s && y == z)
  {
    var t := s + [z];
    if Before(s, x, y) {
      var i, j :| 0 <= i < j < |s| && s[i] == x && s[j] == y;
      assert t[i] == x && t[j] == y;
    }
    if x in s && y == z {
      var i :| 0 <= i < |s| && s[i] == x;
      assert t[i] == x && t[|s|] == y;
    }
  }

  /** Picking keeps relative order and adds none. */
  lemma {:induction false} PickedKeepsOrder(log: seq<Entry>, order: seq<nat>, k: Key, x: nat, y: nat)
    requires Positions(order, |log|)
    requires x in Picked(log, order, k) && y in Picked(log, order, k)
    ensures Before(Picked(log, order, k), x, y) <==> Before(order, x, y)
  {
    var front, z := order[..|order| - 1], order[|order| - 1];
    assert order == front + [z];
    BeforeOfAppend(front, z, x, y);
    var ps := Picked(log, front, k);
    if KeyOf(log[z]) == Some(k) {
      BeforeOfAppend(ps, z, x, y);
    } else {
      assert Picked(log, order, k) == ps;
    }
    if x in ps && y in ps {
      PickedKeepsOrder(log, front, k, x, y);
    } else {
      assert Before(ps, x, y) ==> x in ps && y in ps;
      assert Before(front, x, y) ==> x in front && y in front;
    }
  }

  lemma {:induction false} PickedIsDistinct(log: seq<Entry>, order: seq<nat>, k: Key)
    requires Positions(order, |log|)
    requires Distinct(order)
    ensures Distinct(Picked(log, order, k))
  {
    if order != [] {
      PickedIsDistinct(log, order[..|order| - 1], k);
    }
  }

  /** Duplicate-free lists with the same elements in the same relative order are equal. */
  lemma {:induction false} SameOrderSameList<T>(s: seq<T>, t: seq<T>)
    requires Distinct(s) && Distinct(t)
    requires forall x :: x in s <==> x in t
    requires forall x, y :: x in s && y in s ==> (Before(s, x, y) <==> Before(t, x, y))
    ensures s == t
  {
    assert |t| > 0 ==> t[0] in s;
    if s != [] {
      var x := s[0];
      assert x in t;
      var i :| 0 <= i < |t| && t[i] == x;
      assert forall j :: 0 < j < |t| ==> Before(t, t[0], t[j]);
      assert !Before(s, t[0], x);
      assert t[0] in t && i == 0;
      var s', t' := s[1..], t[1..];
      TailFacts(s);
      TailFacts(t);
      SameOrderSameList(s', t');
      assert s == [x] + s' && t == [x] + t';
    }
  }

  /** Dropping the first element of a duplicate-free list keeps the order of the others. */
  lemma TailFacts<T>(s: seq<T>)
    requires s != [] && Distinct(s)
    ensures Distinct(s[1..])
    ensures forall x :: x in s[1..] <==> x in s && x != s[0]
    ensures forall x, y :: x in s[1..] && y in s[1..] ==> (Before(s[1..], x, y) <==> Before(s, x, y))
  {
    var t := s[1..];
    assert s == [s[0]] + t;
    forall x, y | x in t && y in t ensures Before(t, x, y) <==> Before(s, x, y) {
      if Before(t, x, y) {
        var i, j :| 0 <= i < j < |t| && t[i] == x && t[j] == y;
        assert s[i + 1] == x && s[j + 1] == y;
      }
      if Before(s, x, y) {
        var i, j :| 0 <= i < j < |s| && s[i] == x && s[j] == y;
        assert i > 0;
        assert t[i - 1] == x && t[j - 1] == y;
      }
    }
  }

  lemma PickedSetsAgree(log: seq<Entry>, p: seq<nat>, q: seq<nat>, k: Key)
    requires DeliveryOrder(p, |log|) && DeliveryOrder(q, |log|) && SameRowOrder(log, p, q)
    ensures Picked(log, p, k) == Picked(log, q, k)
  {
    var s, t := Picked(log, p, k), Picked(log, q, k);
    PickedIsDistinct(log, p, k);
    PickedIsDistinct(log, q, k);
    forall x: nat, y: nat | x in s && y in s ensures Before(s, x, y) <==> Before(t, x, y) {
      PickedKeepsOrder(log, p, k, x, y);
      PickedKeepsOrder(log, q, k, x, y);
    }
    SameOrderSameList(s, t);
  }

  /**
   Order tolerance.  Two delivery orders of the same log that agree on the relative order of entries touching the same
   row leave a replicant with identical tables, whatever it held before.
   */
  lemma DeliveryOrdersAgree(r: Replica, log: seq<Entry>, p: seq<nat>, q: seq<nat>)
    requires DeliveryOrder(p, |log|) && DeliveryOrder(q, |log|) && SameRowOrder(log, p, q)
    ensures Replay(r, Delivered(log, p)).tables == Replay(r, Delivered(log, q)).tables
  {
    forall k ensures Touching(Delivered(log, p), k) == Touching(Delivered(log, q), k) {
      PickedSetsAgree(log, p, q, k);
      TouchingDelivered(log, p, k);
      TouchingDelivered(log, q, k);
    }
    RowOrderDeterminesTables(r, Delivered(log, p), Delivered(log, q));
  }

  /** Entries of the same row arrive in the order they were sent. */
  ghost predicate KeepsRowOrder(log: seq<Entry>, order: seq<nat>)
    requires Positions(order, |log|)
  {
    forall i, j :: 0 <= i < j < |order| && KeyOf(log[order[i]]).Some? && KeyOf(log[order[i]]) == KeyOf(log[order[j]])
                   ==> order[i] < order[j]
  }

  /**
   Convergence.  For every run of a core node, a fresh replicant that receives the whole log in any order that keeps
   entries of the same row in sending order ends with the core's tables.
   */
  lemma ReorderedReplayConverges(nodeID: string, actions: seq<Action>, order: seq<nat>)
    requires DeliveryOrder(order, |Emitted(NewNode(nodeID, CoreNode), actions)|)
    requires KeepsRowOrder(Emitted(NewNode(nodeID, CoreNode), actions), order)
    ensures Replay(EMPTY_REPLICA, Delivered(Emitted(NewNode(nodeID, CoreNode), actions), order)).tables
            == Run(NewNode(nodeID, CoreNode), actions).replica.tables
  {
    hide *;
    var log := Emitted(NewNode(nodeID, CoreNode), actions);
    var id := InOrder(|log|);
    SendingOrder(log, order);
    DeliveryOrdersAgree(EMPTY_REPLICA, log, order, id);
    assert log[..|log|] == log;
    ReplayCorrectness(nodeID, actions, |log|);
  }

  function InOrder(n: nat): (r: seq<nat>)
    ensures |r| == n && forall x: nat :: x < n ==> r[x] == x
  {
    seq(n, i => i)
  }

  lemma SendingOrder(log: seq<Entry>, order: seq<nat>)
    requires DeliveryOrder(order, |log|) && KeepsRowOrder(log, order)
    ensures DeliveryOrder(InOrder(|log|), |log|)
    ensures SameRowOrder(log, order, InOrder(|log|))
    ensures Delivered(log, InOrder(|log|)) == log
  {
    var id := InOrder(|log|);
    forall x: nat ensures x in id <==> x < |log| {
      if x < |log| {
        assert id[x] == x;
      }
    }
    forall x: nat, y: nat | x < |log| && y < |log| && KeyOf(log[x]).Some? && KeyOf(log[x]) == KeyOf(log[y])
      ensures Before(order, x, y) <==> Before(id, x, y)
    {
      assert x in order && y in order;
      var i, j :| 0 <= i < |order| && 0 <= j < |order| && order[i] == x && order[j] == y;
      if x < y {
        assert id[x] == x && id[y] == y;
        assert !(j < i);
      }
    }
  }

  // ----- Exactly when two deliveries agree -----

  /** The entry settles the row whatever was in it. */
  predicate Settles(e: Entry, k: Key) {
    KeyOf(e) == Some(k) && !e.operation.OtherOperation?
  }

  /** What the last entry that settles a row makes of it; `None` when there is no such entry. */
  function LastOutcome(es: seq<Entry>, k: Key): Option<Option<Cell>> {
    if es == [] then None
    else
      var e := es[|es| - 1];
      if Settles(e, k) then Some(Write(e, None)) else LastOutcome(es[..|es| - 1], k)
  }

  ghost predicate SameOutcomes(es: seq<Entry>, fs: seq<Entry>) {
    forall k :: LastOutcome(es, k) == LastOutcome(fs, k)
  }

  lemma {:induction false} RowAfterReplay(r: Replica, es: seq<Entry>, k: Key)
    ensures Lookup(Replay(r, es).tables, k)
            == if LastOutcome(es, k).Some? then LastOutcome(es, k).value else Lookup(r.tables, k)
  {
    if es != [] {
      RowAfterReplay(r, es[..|es| - 1], k);
      ReplayIsLocal(r, es, k);
      hide Lookup, Replay;
    }
  }

  lemma {:induction false} HasOutcomeIff(es: seq<Entry>, k: Key)
    ensures LastOutcome(es, k).Some? <==> exists e <- es :: Settles(e, k)
  {
    if es != [] {
      var front, e := es[..|es| - 1], es[|es| - 1];
      HasOutcomeIff(front, k);
      assert forall x :: x in es <==> x in front || x == e by { assert es == front + [e]; }
    }
  }

  /** A row after a replay: what the last entry that settles it makes of it, or its old content. */
  function RowAfter(r: Replica, es: seq<Entry>, k: Key): Option<Cell> {
    if LastOutcome(es, k).Some? then LastOutcome(es, k).value else Lookup(r.tables, k)
  }

  ghost predicate SameRows(r: Replica, es: seq<Entry>, fs: seq<Entry>) {
    forall k :: RowAfter(r, es, k) == RowAfter(r, fs, k)
  }

  /** Any two lists, also when entries are missing from one, leave the same tables exactly when every row comes out alike. */
  lemma TablesAgreeIff(r: Replica, es: seq<Entry>, fs: seq<Entry>)
    ensures Replay(r, es).tables == Replay(r, fs).tables <==> SameRows(r, es, fs)
  {
    hide Lookup, Write, Apply, RowAfter;
    forall k ensures RowAfter(r, es, k) == Lookup(Replay(r, es).tables, k)
             ensures RowAfter(r, fs, k) == Lookup(Replay(r, fs).tables, k) {
      RowAfterIs(r, es, k);
      RowAfterIs(r, fs, k);
    }
    if SameRows(r, es, fs) {
      TablesAreTheirRows(Replay(r, es).tables, Replay(r, fs).tables);
    } else {
      var k :| RowAfter(r, es, k) != RowAfter(r, fs, k);
      RowsDiffer(Replay(r, es).tables, Replay(r, fs).tables, k);
    }
  }

  lemma RowAfterIs(r: Replica, es: seq<Entry>, k: Key)
    ensures RowAfter(r, es, k) == Lookup(Replay(r, es).tables, k)
  {
    RowAfterReplay(r, es, k);
  }

  /** For lists that settle the same rows the start does not matter. */
  lemma SettledTablesAgreeIff(r: Replica, es: seq<Entry>, fs: seq<Entry>)
    requires forall k :: LastOutcome(es, k).Some? <==> LastOutcome(fs, k).Some?
    ensures Replay(r, es).tables == Replay(r, fs).tables <==> SameOutcomes(es, fs)
  {
    TablesAgreeIff(r, es, fs);
    hide Lookup, Replay;
    if SameRows(r, es, fs) {
      forall k ensures LastOutcome(es, k) == LastOutcome(fs, k) { assert RowAfter(r, es, k) == RowAfter(r, fs, k); }
    }
    if SameOutcomes(es, fs) {
      forall k ensures RowAfter(r, es, k) == RowAfter(r, fs, k) { assert LastOutcome(es, k) == LastOutcome(fs, k); }
    }
  }

  lemma RowsDiffer(a: Tables, b: Tables, k: Key)
    requires Lookup(a, k) != Lookup(b, k)
    ensures a != b
  {
  }

  lemma DeliveredHoldsAll(log: seq<Entry>, order: seq<nat>, e: Entry)
    requires DeliveryOrder(order, |log|)
    ensures e in Delivered(log, order) <==> e in log
  {
    if e in log {
      var x: nat :| x < |log| && log[x] == e;
      assert x in order;
      var i :| 0 <= i < |order| && order[i] == x;
      assert Delivered(log, order)[i] == e;
    }
  }

  lemma DeliveriesSettleAlike(log: seq<Entry>, p: seq<nat>, q: seq<nat>, k: Key)
    requires DeliveryOrder(p, |log|) && DeliveryOrder(q, |log|)
    ensures LastOutcome(Delivered(log, p), k).Some? <==> LastOutcome(Delivered(log, q), k).Some?
  {
    HasOutcomeIff(Delivered(log, p), k);
    HasOutcomeIff(Delivered(log, q), k);
    forall e ensures e in Delivered(log, p) <==> e in Delivered(log, q) {
      DeliveredHoldsAll(log, p, e);
      DeliveredHoldsAll(log, q, e);
    }
  }

  /**
   Two delivery orders of one log leave the same tables, from any start, exactly when for every row the entries that
   arrive last make the same of it.  What happens earlier in the row, in whatever order, does not matter.
   */
  lemma DeliveryOrdersAgreeIff(r: Replica, log: seq<Entry>, p: seq<nat>, q: seq<nat>)
    requires DeliveryOrder(p, |log|) && DeliveryOrder(q, |log|)
    ensures Replay(r, Delivered(log, p)).tables == Replay(r, Delivered(log, q)).tables
            <==> SameOutcomes(Delivered(log, p), Delivered(log, q))
  {
    forall k ensures LastOutcome(Delivered(log, p), k).Some? <==> LastOutcome(Delivered(log, q), k).Some? {
      DeliveriesSettleAlike(log, p, q, k);
    }
    SettledTablesAgreeIff(r, Delivered(log, p), Delivered(log, q));
  }

  /** For every run of a core node: a delivery order converges exactly when it ends every row as the core did. */
  lemma ReorderedReplayConvergesIff(nodeID: string, actions: seq<Action>, order: seq<nat>)
    requires DeliveryOrder(order, |Emitted(NewNode(nodeID, CoreNode), actions)|)
    ensures var n := NewNode(nodeID, CoreNode); var log := Emitted(n, actions);
            Replay(EMPTY_REPLICA, Delivered(log, order)).tables == Run(n, actions).replica.tables
            <==> SameOutcomes(Delivered(log, order), log)
  {
    hide *;
    var log := Emitted(NewNode(nodeID, CoreNode), actions);
    SendingIsADelivery(log);
    DeliveryOrdersAgreeIff(EMPTY_REPLICA, log, order, InOrder(|log|));
    assert log[..|log|] == log;
    ReplayCorrectness(nodeID, actions, |log|);
  }

  lemma SendingIsADelivery(log: seq<Entry>)
    ensures DeliveryOrder(InOrder(|log|), |log|) && Delivered(log, InOrder(|log|)) == log
  {
    forall x: nat ensures x in InOrder(|log|) <==> x < |log| {
      if x < |log| {
        assert InOrder(|log|)[x] == x;
      }
    }
  }

  lemma {:induction false} LastOutcomeConcat(es: seq<Entry>, fs: seq<Entry>, k: Key)
    ensures LastOutcome(es + fs, k) == if LastOutcome(fs, k).Some? then LastOutcome(fs, k) else LastOutcome(es, k)
  {
    if fs == [] {
      assert es + fs == es;
    } else {
      LastOutcomeConcat(es, fs[..|fs| - 1], k);
      assert (es + fs)[..|es + fs| - 1] == es + fs[..|fs| - 1];
    }
  }

  /**
   A row that has diverged stays so until the next entry that settles it: after any two histories es and fs, followed by
   the same entries, the row agrees exactly when it did before or one of those entries settles it.
   */
  lemma RowAgreesIff(r: Replica, es: seq<Entry>, fs: seq<Entry>, more: seq<Entry>, k: Key)
    ensures Lookup(Replay(r, es + more).tables, k) == Lookup(Replay(r, fs + more).tables, k)
            <==> Lookup(Replay(r, es).tables, k) == Lookup(Replay(r, fs).tables, k) || exists e <- more :: Settles(e, k)
  {
    RowAfterReplay(r, es, k);
    RowAfterReplay(r, fs, k);
    RowAfterReplay(r, es + more, k);
    RowAfterReplay(r, fs + more, k);
    LastOutcomeConcat(es, more, k);
    LastOutcomeConcat(fs, more, k);
    HasOutcomeIff(more, k);
    hide Lookup, Replay, LastOutcome, Settles;
  }

  /** An insert and its delete, swapped, leave the row behind, until the next entry that settles it. */
  lemma SwappedRowDiverges(nodeID: string, clientID: string, topicFilter: string, qos: int, now: Stamp, more: seq<Entry>)
    ensures var n := NewNode(nodeID, CoreNode);
            var actions := [Do(AddSubscription(clientID, topicFilter, qos), now),
                            Do(RemoveSubscription(clientID, topicFilter), now)];
            var log, row := Emitted(n, actions), SubscriptionRow(SubscriptionKey(clientID, topicFilter));
            && |log| == 2
            && Replay(EMPTY_REPLICA, log).tables == Run(n, actions).replica.tables
            && var swapped, sent := Replay(EMPTY_REPLICA, [log[1], log[0]] + more), Replay(EMPTY_REPLICA, log + more);
               Lookup(swapped.tables, row) == Lookup(sent.tables, row) <==> exists e <- more :: Settles(e, row)
  {
    var n := NewNode(nodeID, CoreNode);
    var add := Do(AddSubscription(clientID, topicFilter, qos), now);
    var remove := Do(RemoveSubscription(clientID, topicFilter), now);
    var key := SubscriptionKey(clientID, topicFilter);
    RecordingsGrow(n, [], add);
    RecordingsGrow(n, [add], remove);
    assert [] + [add] == [add] && [add] + [remove] == [add, remove];
    var log := Emitted(n, [add, remove]);
    assert Run(n, [add, remove]).replica.tables.subscriptions == map[];
    ReplayAppend(EMPTY_REPLICA, [log[1]], log[0]);
    assert [log[1]] + [log[0]] == [log[1], log[0]];
    assert key in Replay(EMPTY_REPLICA, [log[1], log[0]]).tables.subscriptions;
    ReplayCorrectness(nodeID, [add, remove], 2);
    assert log[..2] == log;
    hide Replay, Run, Emitted, Snapshots, Settles;
    RowAgreesIff(EMPTY_REPLICA, [log[1], log[0]], log, more, SubscriptionRow(key));
  }
}
