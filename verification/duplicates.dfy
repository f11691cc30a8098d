/**
 Duplicate suppression for QoS 1 publishes: markAndCheckDuplicate and unregisterSession of pkg/broker/broker.go.

 The table remembers the last arrival per client and packet ID and forgets old ones while it is at it.  The lemmas show
 that its answers are those of the full arrival history.
 */
module Duplicates {
  import opened Common

  /** Thirty seconds, in nanoseconds. */
  const WINDOW: int := 30_000_000_000

  type Arrivals = map<nat, int>
  type Table = map<string, Arrivals>

  datatype Event = Arrive(clientID: string, packetID: nat, now: int) | Unregister(clientID: string)

  function ArrivalsOf(t: Table, c: string): Arrivals {
    if c in t then t[c] else map[]
  }

  function Recent(m: Arrivals, now: int): Arrivals {
    map id | id in m && now - m[id] < WINDOW :: m[id]
  }

  predicate IsDuplicate(t: Table, c: string, id: nat, now: int) {
    id != 0 && id in ArrivalsOf(t, c) && now - ArrivalsOf(t, c)[id] < WINDOW
  }

  function Mark(t: Table, c: string, id: nat, now: int): Table {
    if id == 0 then t
    else
      var m := ArrivalsOf(t, c)[id := now];
      t[c := if IsDuplicate(t, c, id, now) then m else Recent(m, now)]
  }

  function Step(t: Table, e: Event): Table {
    match e
    case Arrive(c, id, now) => Mark(t, c, id, now)
    case Unregister(c) => t - {c}
  }

  function Run(events: seq<Event>): Table {
    if events == [] then map[] else Step(Run(events[..|events| - 1]), events[|events| - 1])
  }

  // ----- The history -----

  /** The same client and packet ID arrived less than the window ago, and the client has not been unregistered since. */
  ghost predicate SeenRecently(events: seq<Event>, c: string, id: nat, now: int) {
    exists i :: 0 <= i < |events| && ArrivalAt(events, i, c, id) && now - events[i].now < WINDOW && KeptSince(events, i, c)
  }

  predicate ArrivalAt(events: seq<Event>, i: nat, c: string, id: nat)
    requires i < |events|
  {
    events[i].Arrive? && events[i].clientID == c && events[i].packetID == id
  }

  ghost predicate KeptSince(events: seq<Event>, i: nat, c: string) {
    forall j :: i < j < |events| ==> events[j] != Unregister(c)
  }

  ghost predicate Monotone(events: seq<Event>) {
    forall i, j :: 0 <= i < j < |events| && events[i].Arrive? && events[j].Arrive? ==> events[i].now <= events[j].now
  }

  /** The newest arrival since the client was last unregistered. */
  function LastSeen(events: seq<Event>, c: string, id: nat): Option<int> {
    if events == [] then None
    else
      var e := events[|events| - 1];
      if e == Unregister(c) then None
      else if e.Arrive? && e.clientID == c && e.packetID == id then Some(e.now)
      else LastSeen(events[..|events| - 1], c, id)
  }

  predicate Within(seen: Option<int>, now: int) {
    seen.Some? && now - seen.value < WINDOW
  }

  predicate CountsAsSeen(e: Event, c: string, id: nat, now: int) {
    e.Arrive? && e.clientID == c && e.packetID == id && now - e.now < WINDOW
  }

  lemma SeenRecentlyAppend(front: seq<Event>, e: Event, c: string, id: nat, now: int)
    ensures SeenRecently(front + [e], c, id, now)
            <==> e != Unregister(c) && (SeenRecently(front, c, id, now) || CountsAsSeen(e, c, id, now))
  {
    var events, k := front + [e], |front|;
    assert events[k] == e;
    if SeenRecently(events, c, id, now) {
      var i :| 0 <= i < |events| && ArrivalAt(events, i, c, id) && now - events[i].now < WINDOW && KeptSince(events, i, c);
      if i < k {
        assert events[i] == front[i] && ArrivalAt(front, i, c, id);
        assert KeptSince(front, i, c) by { assert forall j :: i < j < k ==> front[j] == events[j]; }
        assert SeenRecently(front, c, id, now);
      }
    }
    if e != Unregister(c) && SeenRecently(front, c, id, now) {
      var i :| 0 <= i < |front| && ArrivalAt(front, i, c, id) && now - front[i].now < WINDOW && KeptSince(front, i, c);
      assert ArrivalAt(events, i, c, id);
      assert KeptSince(events, i, c) by { assert forall j :: i < j < k ==> front[j] == events[j]; }
    }
    if CountsAsSeen(e, c, id, now) {
      assert ArrivalAt(events, k, c, id) && KeptSince(events, k, c);
    }
  }

  lemma {:induction false} SeenRecentlyIsLastSeen(events: seq<Event>, c: string, id: nat, now: int)
    requires Monotone(events)
    ensures SeenRecently(events, c, id, now) <==> Within(LastSeen(events, c, id), now)
  {
    if events != [] {
      var k := |events| - 1;
      var front, e := events[..k], events[k];
      assert events == front + [e];
      SeenRecentlyIsLastSeen(front, c, id, now);
      SeenRecentlyAppend(front, e, c, id, now);
      if e.Arrive? && SeenRecently(front, c, id, now) {
        var i :| 0 <= i < |front| && ArrivalAt(front, i, c, id) && now - front[i].now < WINDOW && KeptSince(front, i, c);
        assert events[i] == front[i] && events[i].now <= e.now;
      }
      hide SeenRecently, KeptSince, Monotone;
    }
  }

  // ----- The table against the history -----

  function Remembered(t: Table, c: string, id: nat): Option<int> {
    if id in ArrivalsOf(t, c) then Some(ArrivalsOf(t, c)[id]) else None
  }

  /** The table holds the newest arrival, or has dropped one that is too old to matter from `clock` on. */
  predicate Faithful(remembered: Option<int>, seen: Option<int>, clock: int) {
    remembered == seen || (remembered.None? && clock - seen.value >= WINDOW)
  }

  lemma MarkFaithful(t: Table, c: string, id: nat, now: int, d: string, x: nat, seen: Option<int>, clock: int)
    requires Faithful(Remembered(t, d, x), seen, clock) && clock <= now && x != 0
    ensures Faithful(Remembered(Mark(t, c, id, now), d, x), if c == d && id == x then Some(now) else seen, now)
  {
  }

  ghost predicate NotAfter(events: seq<Event>, clock: int) {
    forall i :: 0 <= i < |events| && events[i].Arrive? ==> events[i].now <= clock
  }

  lemma {:induction false} RunIsFaithful(events: seq<Event>, c: string, id: nat, clock: int)
    requires Monotone(events) && NotAfter(events, clock) && id != 0
    ensures Faithful(Remembered(Run(events), c, id), LastSeen(events, c, id), clock)
  {
    if events != [] {
      var k := |events| - 1;
      var front, e := events[..k], events[k];
      assert forall i :: 0 <= i < k ==> front[i] == events[i];
      match e {
        case Arrive(d, x, now) =>
          RunIsFaithful(front, c, id, now);
          MarkFaithful(Run(front), d, x, now, c, id, LastSeen(front, c, id), now);
        case Unregister(d) =>
          RunIsFaithful(front, c, id, clock);
      }
    }
  }

  /**
   The duplicate test answers from full history.  For a non-zero packet ID and a clock that never goes back, it says yes
   exactly when the same client and ID arrived less than thirty seconds ago since the client was last unregistered.
   */
  lemma {:induction false} DuplicateMeansSeenRecently(events: seq<Event>, c: string, id: nat, now: int)
    requires Monotone(events) && NotAfter(events, now) && id != 0
    ensures IsDuplicate(Run(events), c, id, now) <==> SeenRecently(events, c, id, now)
  {
    RunIsFaithful(events, c, id, now);
    SeenRecentlyIsLastSeen(events, c, id, now);
  }

  // ----- The deletion loop is invisible -----

  function StepWithoutCleanup(t: Table, e: Event): Table {
    match e
    case Arrive(c, id, now) => if id == 0 then t else t[c := ArrivalsOf(t, c)[id := now]]
    case Unregister(c) => t - {c}
  }

  function RunWithoutCleanup(events: seq<Event>): Table {
    if events == [] then map[]
    else StepWithoutCleanup(RunWithoutCleanup(events[..|events| - 1]), events[|events| - 1])
  }

  lemma {:induction false} WithoutCleanupIsLastSeen(events: seq<Event>, c: string, id: nat)
    requires id != 0
    ensures Remembered(RunWithoutCleanup(events), c, id) == LastSeen(events, c, id)
  {
    if events != [] {
      WithoutCleanupIsLastSeen(events[..|events| - 1], c, id);
    }
  }

  /** A table that never forgets gives the same answer after every run. */
  lemma {:induction false} CleanupIsInvisible(events: seq<Event>, c: string, id: nat, now: int)
    requires Monotone(events) && NotAfter(events, now)
    ensures IsDuplicate(Run(events), c, id, now) <==> IsDuplicate(RunWithoutCleanup(events), c, id, now)
  {
    if id != 0 {
      RunIsFaithful(events, c, id, now);
      WithoutCleanupIsLastSeen(events, c, id);
    }
  }

  /** Nothing older than the window survives a call that is not a duplicate, so the table stays small. */
  lemma FreshAfterMark(t: Table, c: string, id: nat, now: int)
    requires id != 0 && !IsDuplicate(t, c, id, now)
    ensures var m := ArrivalsOf(Mark(t, c, id, now), c); id in m && forall x <- m :: now - m[x] < WINDOW
  {
  }

  // ----- The broker -----

  class Broker {
    var processedQoS1: Table

    constructor ()
      ensures processedQoS1 == map[]
    {
      processedQoS1 := map[];
    }

    method MarkAndCheckDuplicate(clientID: string, packetID: nat, now: int) returns (duplicate: bool)
      modifies this
      ensures duplicate <==> IsDuplicate(old(processedQoS1), clientID, packetID, now)
      ensures processedQoS1 == Mark(old(processedQoS1), clientID, packetID, now)
    {
      if packetID == 0 {
        return false;
      }
      var clientMap: Arrivals := if clientID in processedQoS1 then processedQoS1[clientID] else map[];
      if packetID in clientMap {
        if now - clientMap[packetID] < WINDOW {
          processedQoS1 := processedQoS1[clientID := clientMap[packetID := now]];
          return true;
        }
      }
      clientMap := clientMap[packetID := now];
      clientMap := DropOld(clientMap, now);
      processedQoS1 := processedQoS1[clientID := clientMap];
      duplicate := false;
    }

    /** The loop that deletes while it walks the map. */
    method DropOld(arrivals: Arrivals, now: int) returns (kept: Arrivals)
      ensures kept == Recent(arrivals, now)
    {
      kept := arrivals;
      var todo := kept.Keys;
      while todo != {}
        invariant todo <= kept.Keys <= arrivals.Keys
        invariant forall id <- kept :: kept[id] == arrivals[id]
        invariant forall id <- arrivals :: id !in todo ==> (id in kept <==> now - arrivals[id] < WINDOW)
        decreases todo
      {
        var id :| id in todo;
        todo := todo - {id};
        if now - kept[id] >= WINDOW {
          kept := kept - {id};
        }
      }
    }

    method UnregisterSession(clientID: string)
      modifies this
      ensures processedQoS1 == old(processedQoS1) - {clientID}
    {
      processedQoS1 := processedQoS1 - {clientID};
    }
  }
}
