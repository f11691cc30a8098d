/**
 The offline queue read off the calls: pkg/persistent/session.go and offline.go.

 Which calls queue a message for a client, what each message carries, and when the queue is emptied are told from the
 list of calls.  With the refinement in OfflineQueue this says what a delivery hands over in terms of the calls.
 */
module OfflineCalls {
  import opened Common
  import opened Sessions
  import opened DurableMirror
  import opened OfflineQueue
  import opened SessionCalls

  /** The call offers the client a message that its session takes: it is away, and addressed or subscribed. */
  ghost predicate Reaches(cfg: Config, before: seq<Action>, a: Action, c: string) {
    && Away(cfg, before, c)
    && ((a.QueueAction? && a.clientID == c) || (a.QueueOfflineAction? && Interested(cfg, before, c, a.post.topic)))
  }

  /** The call empties the queue: a delivery that hands over everything, or the end of the session. */
  ghost predicate Clears(cfg: Config, before: seq<Action>, a: Action, c: string) {
    && Alive(cfg, before, c)
    && (|| (a.DeliverAction? && a.clientID == c && a.registered && Online(before, c) && !Clean(cfg, before, c)
            && NoneRefused(Backlog(Run(cfg, before), c), a))
        || (Disconnects(a, c) && Clean(cfg, before, c))
        || (a.CleanupAction? && !Online(before, c) && a.now > Touched(before, c) + Interval(cfg, before, c)))
  }

  /** When a call stamps the message for a client. */
  function StampOf(a: Action, c: string): int
    requires a.QueueAction? || a.QueueOfflineAction?
  {
    if a.QueueAction? then a.now
    else if c in a.post.readings && a.post.now <= a.post.readings[c] <= a.post.until then a.post.readings[c]
    else a.post.now
  }

  /** The message has the content of the call, its stamp, and expires the configured time after it, if at all. */
  predicate Carries(cfg: Config, m: QueuedMessage, a: Action, c: string) {
    && (a.QueueAction? || a.QueueOfflineAction?)
    && (if a.QueueAction?
        then m.topic == a.topic && m.payload == a.payload && m.qos == a.qos && m.retain == a.retain
        else m.topic == a.post.topic && m.payload == a.post.payload && m.qos == a.post.qos && m.retain == a.post.retain)
    && m.timestamp == StampOf(a, c)
    && (m.expiryTime.Some? <==> cfg.messageExpiryInterval > 0)
    && (m.expiryTime.Some? ==> m.expiryTime.value - m.timestamp == cfg.messageExpiryInterval)
  }

  lemma AcceptedCarries(cfg: Config, a: Action, c: string)
    requires a.QueueAction? || a.QueueOfflineAction?
    ensures Carries(cfg, Accepted(cfg, a, c), a, c)
  {
  }

  /** In every run the session accepts a message exactly when the calls say so. */
  lemma AcceptsIff(cfg: Config, actions: seq<Action>, a: Action, c: string)
    ensures Accepts(cfg, Run(cfg, actions), a, c) <==> Reaches(cfg, actions, a, c)
  {
    var s := Run(cfg, actions);
    SessionsAreCalls(cfg, actions, c);
    hide RecordAsSaved;
    if c in s.active {
      FlagsOf(cfg, actions, c, s.active[c]);
      if a.QueueOfflineAction? {
        RecipientIff(cfg, actions, s, c, a.post.topic);
      }
    }
    hide Run, AsCalled, Recipients, Interested, Alive, Clean, Online, Touched, Interval, CreatedAt;
  }

  /** In every run the queue is emptied exactly when the calls say so. */
  lemma EmptiesIff(cfg: Config, actions: seq<Action>, a: Action, c: string)
    ensures Empties(Run(cfg, actions), a, c) <==> Clears(cfg, actions, a, c)
  {
    var s := Run(cfg, actions);
    SessionsAreCalls(cfg, actions, c);
    hide RecordAsSaved;
    if c in s.active {
      FlagsOf(cfg, actions, c, s.active[c]);
      if a.DeliverAction? && a.clientID == c {
        HandedIff(s, a, c);
      }
    }
    hide Run, AsCalled, Handed, NoneRefused, Alive, Clean, Online, Touched, Interval, CreatedAt;
  }

  /** The positions of the calls whose messages the queue was offered since it was last emptied. */
  ghost function Arrivals(cfg: Config, actions: seq<Action>, c: string): seq<nat> {
    if actions == [] then []
    else
      var front, a := actions[..|actions| - 1], actions[|actions| - 1];
      var ps := Arrivals(cfg, front, c);
      if Clears(cfg, front, a, c) then [] else if Reaches(cfg, front, a, c) then ps + [|front|] else ps
  }

  /** The i-th message carries what the i-th of these calls offered. */
  ghost predicate CarriesAll(cfg: Config, h: seq<QueuedMessage>, actions: seq<Action>, ps: seq<nat>, c: string) {
    && |h| == |ps|
    && (forall i :: 0 <= i < |ps| ==> ps[i] < |actions| && Carries(cfg, h[i], actions[ps[i]], c))
    && (forall i, j :: 0 <= i < j < |ps| ==> ps[i] < ps[j])
  }

  lemma CarriesMore(cfg: Config, h: seq<QueuedMessage>, front: seq<Action>, a: Action, ps: seq<nat>, c: string)
    requires CarriesAll(cfg, h, front, ps, c)
    ensures CarriesAll(cfg, h, front + [a], ps, c)
    ensures forall m :: Carries(cfg, m, a, c) ==> CarriesAll(cfg, h + [m], front + [a], ps + [|front|], c)
  {
    hide Carries;
  }

  /**
   The history is the list of calls.  In every run the messages accepted since the queue was last emptied are, one by
   one and in order, what the calls that reached the client since then carried.
   */
  lemma {:induction false} HistoryIsCalls(cfg: Config, actions: seq<Action>, c: string)
    ensures CarriesAll(cfg, History(cfg, actions, c), actions, Arrivals(cfg, actions, c), c)
  {
    if actions != [] {
      var front, a := actions[..|actions| - 1], actions[|actions| - 1];
      assert actions == front + [a];
      HistoryIsCalls(cfg, front, c);
      var h, ps := History(cfg, front, c), Arrivals(cfg, front, c);
      AcceptsIff(cfg, front, a, c);
      EmptiesIff(cfg, front, a, c);
      CarriesMore(cfg, h, front, a, ps, c);
      if Accepts(cfg, Run(cfg, front), a, c) {
        AcceptIsQueueing(cfg, Run(cfg, front), a, c);
        AcceptedCarries(cfg, a, c);
      }
      hide Run, Accepts, Empties, Reaches, Clears, Accepted, Carries;
    }
  }

  lemma {:induction false} LiveOnesComeFrom(q: seq<QueuedMessage>, now: int, lags: seq<nat>, j: nat) returns (i: nat)
    requires j < |LiveOnes(q, now, lags)|
    ensures i < |q| && q[i] == LiveOnes(q, now, lags)[j]
  {
    var k := |q| - 1;
    if j < |LiveOnes(q[..k], now, lags)| {
      i := LiveOnesComeFrom(q[..k], now, lags, j);
    } else {
      i := k;
    }
  }

  ghost predicate CameFromCall(cfg: Config, actions: seq<Action>, c: string, m: QueuedMessage) {
    exists k :: k in Arrivals(cfg, actions, c) && k < |actions| && Carries(cfg, m, actions[k], c)
  }

  /** Every message a delivery hands over carries what some call since the last emptying offered to an absent client. */
  lemma HandedCameFromCalls(cfg: Config, actions: seq<Action>, c: string, failAt: Option<nat>, t: int, lags: seq<nat>,
                            j: nat)
    requires Monotone(actions) && Handed(Run(cfg, actions), c, true, failAt, t, lags).ok
    requires j < |Handed(Run(cfg, actions), c, true, failAt, t, lags).handed|
    ensures CameFromCall(cfg, actions, c, Handed(Run(cfg, actions), c, true, failAt, t, lags).handed[j])
  {
    hide *;
    var s, h := Run(cfg, actions), History(cfg, actions, c);
    RunRefines(cfg, actions, c);
    RefinesFacts(cfg, actions, c);
    HandedFacts(s, c, failAt, t, lags);
    var q := s.active[c].queue;
    var i := LiveOnesComeFrom(q, t, lags, j);
    HistoryIsCalls(cfg, actions, c);
    MessageCameFromCall(cfg, actions, c, h, |h| - |q| + i);
  }

  lemma RefinesFacts(cfg: Config, actions: seq<Action>, c: string)
    requires Refines(cfg, actions, c)
    ensures var q, h := StoredQueue(Run(cfg, actions), c), History(cfg, actions, c);
            Durable(Run(cfg, actions)) && |q| <= |h| && q == h[|h| - |q|..]
  {
    hide Durable, Run, History;
  }

  lemma MessageCameFromCall(cfg: Config, actions: seq<Action>, c: string, h: seq<QueuedMessage>, i: nat)
    requires CarriesAll(cfg, h, actions, Arrivals(cfg, actions, c), c) && i < |h|
    ensures CameFromCall(cfg, actions, c, h[i])
  {
    hide Carries, Arrivals;
    assert Arrivals(cfg, actions, c)[i] in Arrivals(cfg, actions, c);
  }
}
