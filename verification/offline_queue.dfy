/**
 The bounded, cleaned-up offline queue refines the full history of queued messages.

 `History` remembers every message accepted for a client since its queue was last emptied, with no cap and no cleanup.
 The main theorem says that what a delivery hands over can be computed from that history alone.
 */
module OfflineQueue {
  import opened Common
  import opened Sessions
  import opened DurableMirror

  // ----- The clock -----

  function TimeOf(a: Action): Option<int> {
    match a
    case ConnectAction(_, _, _, now) => Some(now)
    case DisconnectAction(_, _, now) => Some(now)
    case SubscribeAction(_, _, _, now) => Some(now)
    case UnsubscribeAction(_, _, now) => Some(now)
    case QueueAction(_, _, _, _, _, now) => Some(now)
    case QueueOfflineAction(post) => Some(post.now)
    case DeliverAction(_, _, _, now, _) => Some(now)
    case CleanupAction(now) => Some(now)
    case FireAction(_, now) => Some(now)
    case _ => None
  }

  /** The last reading of a call; only a message for all offline clients may stamp later than it starts. */
  function EndOf(a: Action): Option<int> {
    if a.QueueOfflineAction? && a.post.now <= a.post.until then Some(a.post.until) else TimeOf(a)
  }

  /** The newest clock reading of a run. */
  function Clock(actions: seq<Action>): Option<int> {
    if actions == [] then None
    else if EndOf(actions[|actions| - 1]).Some? then EndOf(actions[|actions| - 1])
    else Clock(actions[..|actions| - 1])
  }

  predicate AtMost(a: Option<int>, b: Option<int>) {
    a.None? || b.None? || a.value <= b.value
  }

  /** Readings never go back. */
  predicate Monotone(actions: seq<Action>) {
    actions == [] || (Monotone(actions[..|actions| - 1])
                      && AtMost(Clock(actions[..|actions| - 1]), TimeOf(actions[|actions| - 1])))
  }

  /** The cleanup routine goes through this client's queue: it is active, persistent and not expired. */
  predicate Cleans(s: State, a: Action, c: string) {
    a.CleanupAction? && c in s.active && !s.active[c].cleanSession && !Expired(s.active[c], a.now)
  }

  /** When the client's queue was last cleaned. */
  function CleanedAt(cfg: Config, actions: seq<Action>, c: string): Option<int> {
    if actions == [] then None
    else
      var front, a := actions[..|actions| - 1], actions[|actions| - 1];
      if Cleans(Run(cfg, front), a, c) then Some(a.now) else CleanedAt(cfg, front, c)
  }

  // ----- The history -----

  /** The action makes the client's session accept a message. */
  predicate Accepts(cfg: Config, s: State, a: Action, c: string) {
    && c in s.active && Queues(s.active[c])
    && ((a.QueueAction? && a.clientID == c) || (a.QueueOfflineAction? && c in Recipients(cfg, s, a.post.topic)))
  }

  function Accepted(cfg: Config, a: Action, c: string): QueuedMessage
    requires a.QueueAction? || a.QueueOfflineAction?
  {
    if a.QueueAction? then MessageOf(cfg, a.topic, a.payload, a.qos, a.retain, a.now) else MessageFor(cfg, a.post, c)
  }

  /** The action empties the client's queue: a completed delivery, or the end of the session. */
  predicate Empties(s: State, a: Action, c: string) {
    && c in s.active
    && ((a.DeliverAction? && a.clientID == c && !s.active[c].cleanSession
         && Handed(s, c, a.registered, a.failAt, a.now, a.lags).ok)
        || (a.DisconnectAction? && a.clientID == c && s.active[c].cleanSession)
        || (a.CleanupAction? && Expired(s.active[c], a.now)))
  }

  function NextHistory(cfg: Config, s: State, h: seq<QueuedMessage>, a: Action, c: string): seq<QueuedMessage> {
    if Empties(s, a, c) then [] else if Accepts(cfg, s, a, c) then h + [Accepted(cfg, a, c)] else h
  }

  function History(cfg: Config, actions: seq<Action>, c: string): seq<QueuedMessage> {
    if actions == [] then []
    else
      var front := actions[..|actions| - 1];
      NextHistory(cfg, Run(cfg, front), History(cfg, front, c), actions[|actions| - 1], c)
  }

  // ----- What one action does to a stored queue -----

  function StoredQueue(s: State, c: string): seq<QueuedMessage> {
    if c in s.store then s.store[c].queue else []
  }

  function Pushed(cfg: Config, q: seq<QueuedMessage>, m: QueuedMessage): seq<QueuedMessage> {
    (if |q| >= cfg.maxOfflineMessages then q[1..] else q) + [m]
  }

  lemma CleanupEffect(s: State, a: Action, c: string)
    requires Durable(s) && a.CleanupAction? && !Empties(s, a, c)
    ensures StoredQueue(Cleanup(s, a.now), c)
            == if Cleans(s, a, c) then FreshOnes(StoredQueue(s, c), a.now) else StoredQueue(s, c)
  {
    var t := Cleanup(s, a.now);
    hide FreshOnes;
    if c in s.active {
      FreshOnesShrink(s.active[c].queue, a.now);
    }
    if c in s.active && SavedByCleanup(s.active[c], a.now) {
      assert c in t.store && t.store[c] == Cleaned(s.active[c], a.now);
    } else {
      assert c in s.store <==> c in t.store;
    }
  }

  lemma AcceptEffect(cfg: Config, s: State, a: Action, c: string)
    requires Durable(s) && Accepts(cfg, s, a, c)
    ensures StoredQueue(Step(cfg, s, a), c) == Pushed(cfg, StoredQueue(s, c), Accepted(cfg, a, c))
  {
  }

  lemma EmptyEffect(cfg: Config, s: State, a: Action, c: string)
    requires Durable(s) && Empties(s, a, c)
    ensures StoredQueue(Step(cfg, s, a), c) == []
  {
    hide WillsAfterDisconnect, Deliveries;
    if a.CleanupAction? {
      assert c !in Cleanup(s, a.now).store;
    }
  }

  lemma QueueOfflineEffect(cfg: Config, s: State, a: Action, c: string)
    requires Durable(s) && a.QueueOfflineAction? && !Accepts(cfg, s, a, c)
    ensures StoredQueue(Step(cfg, s, a), c) == StoredQueue(s, c)
  {
    hide HasMatch;
  }

  /** Any other call leaves the stored queue alone. */
  lemma OtherEffect(cfg: Config, s: State, a: Action, c: string)
    requires Durable(s) && !Empties(s, a, c) && !Accepts(cfg, s, a, c) && !a.CleanupAction?
    ensures StoredQueue(Step(cfg, s, a), c) == StoredQueue(s, c)
  {
    hide WillsAfterDisconnect, MessageOf, Deliveries, QueueOffline, Cleanup;
    if a.QueueOfflineAction? {
      QueueOfflineEffect(cfg, s, a, c);
    }
  }

  // ----- The relation between queue and history -----

  /** Every message was stamped by the same configuration, in clock order, not later than `clock`. */
  ghost predicate Stamped(cfg: Config, h: seq<QueuedMessage>, clock: Option<int>) {
    && (forall i :: 0 <= i < |h| ==>
          && h[i] == MessageOf(cfg, h[i].topic, h[i].payload, h[i].qos, h[i].retain, h[i].timestamp)
          && clock.Some? && h[i].timestamp <= clock.value)
    && (forall i, j :: 0 <= i < j < |h| ==> h[i].timestamp <= h[j].timestamp)
  }

  /** Dropped by a cleanup that ran at `at`. */
  predicate DeadBy(m: QueuedMessage, at: Option<int>) {
    at.Some? && !Fresh(m, at.value)
  }

  /**
   The queue is the end of the history: at most the cap, whatever is missing from the newest `cap` messages had expired
   when the queue was last cleaned, and nothing that is there had.
   */
  ghost predicate Tracks(cfg: Config, q: seq<QueuedMessage>, h: seq<QueuedMessage>, at: Option<int>) {
    && |q| <= |h| && |q| <= cfg.maxOfflineMessages
    && q == h[|h| - |q|..]
    && (forall i :: 0 <= i < |h| - |q| && |h| - cfg.maxOfflineMessages <= i ==> DeadBy(h[i], at))
    && (forall i :: 0 <= i < |q| ==> !DeadBy(q[i], at))
  }

  lemma PushTracks(cfg: Config, q: seq<QueuedMessage>, h: seq<QueuedMessage>, at: Option<int>, m: QueuedMessage)
    requires Tracks(cfg, q, h, at) && !DeadBy(m, at)
    ensures Tracks(cfg, Pushed(cfg, q, m), h + [m], at)
  {
    var q', h' := Pushed(cfg, q, m), h + [m];
    assert q' == h'[|h'| - |q'|..];
    assert forall i :: 0 <= i < |h'| - |q'| && |h'| - cfg.maxOfflineMessages <= i ==> h'[i] == h[i];
  }

  lemma {:induction false} NoneFresh(q: seq<QueuedMessage>, now: int)
    requires forall i :: 0 <= i < |q| ==> !Fresh(q[i], now)
    ensures FreshOnes(q, now) == []
  {
    if q != [] {
      NoneFresh(q[..|q| - 1], now);
    }
  }

  /** Cleaning a queue that is ordered by expiry drops a prefix of it. */
  lemma {:induction false} FreshOnesIsSuffix(cfg: Config, q: seq<QueuedMessage>, clock: Option<int>, now: int)
    requires Stamped(cfg, q, clock)
    ensures var k := |q| - |FreshOnes(q, now)|;
            && 0 <= k
            && FreshOnes(q, now) == q[k..]
            && (forall i :: 0 <= i < k ==> !Fresh(q[i], now))
  {
    if q != [] {
      var front, m := q[..|q| - 1], q[|q| - 1];
      FreshOnesIsSuffix(cfg, front, clock, now);
      var f := FreshOnes(front, now);
      assert q == front + [m];
      if Fresh(m, now) {
        assert FreshOnes(q, now) == f + [m];
      } else {
        forall i | 0 <= i < |front| ensures !Fresh(front[i], now) { OlderExpiresFirst(cfg, q, clock, i, now); }
        NoneFresh(q, now);
        hide FreshOnes, Stamped;
      }
    }
  }

  lemma OlderExpiresFirst(cfg: Config, q: seq<QueuedMessage>, clock: Option<int>, i: nat, now: int)
    requires Stamped(cfg, q, clock) && i < |q| - 1 && !Fresh(q[|q| - 1], now)
    ensures !Fresh(q[i], now)
  {
    assert q[i].timestamp <= q[|q| - 1].timestamp;
  }

  lemma {:induction false} FreshOnesAreFresh(q: seq<QueuedMessage>, now: int)
    ensures forall i :: 0 <= i < |FreshOnes(q, now)| ==> Fresh(FreshOnes(q, now)[i], now)
  {
    if q != [] {
      FreshOnesAreFresh(q[..|q| - 1], now);
    }
  }

  lemma CleanTracks(cfg: Config, q: seq<QueuedMessage>, h: seq<QueuedMessage>, at: Option<int>, clock: Option<int>, now: int)
    requires Tracks(cfg, q, h, at) && Stamped(cfg, h, clock)
    requires AtMost(at, Some(now))
    ensures Tracks(cfg, FreshOnes(q, now), h, Some(now))
  {
    assert Stamped(cfg, q, clock);
    FreshOnesIsSuffix(cfg, q, clock, now);
    FreshOnesAreFresh(q, now);
    var k := |q| - |FreshOnes(q, now)|;
    assert q[k..] == h[|h| - |q| + k..];
    forall i | 0 <= i < |h| - |q| + k && |h| - cfg.maxOfflineMessages <= i ensures DeadBy(h[i], Some(now)) {
      if i >= |h| - |q| {
        assert h[i] == q[i - (|h| - |q|)];
      }
    }
  }

  /** The invariant of a run, for one client. */
  ghost predicate Refines(cfg: Config, actions: seq<Action>, c: string) {
    && Durable(Run(cfg, actions))
    && Stamped(cfg, History(cfg, actions, c), Clock(actions))
    && Tracks(cfg, StoredQueue(Run(cfg, actions), c), History(cfg, actions, c), CleanedAt(cfg, actions, c))
    && Past(CleanedAt(cfg, actions, c), Clock(actions))
  }

  lemma NextTracks(cfg: Config, s: State, a: Action, c: string, h: seq<QueuedMessage>, at: Option<int>, clock: Option<int>)
    requires Durable(s) && Stamped(cfg, h, clock) && Tracks(cfg, StoredQueue(s, c), h, at)
    requires AtMost(at, TimeOf(a))
    ensures Tracks(cfg, StoredQueue(Step(cfg, s, a), c), NextHistory(cfg, s, h, a, c),
                   if Cleans(s, a, c) then Some(a.now) else at)
  {
    CleansIsExclusive(cfg, s, a, c);
    hide Step, Accepts, Empties, Accepted, Cleans, Tracks, Durable, StoredQueue, Stamped, FreshOnes, TimeOf;
    if Empties(s, a, c) {
      EmptyEffect(cfg, s, a, c);
      NothingTracks(cfg, at);
    } else if Accepts(cfg, s, a, c) {
      AcceptIsQueueing(cfg, s, a, c);
      AcceptEffect(cfg, s, a, c);
      AcceptedIsFresh(cfg, a, c, at);
      PushTracks(cfg, StoredQueue(s, c), h, at, Accepted(cfg, a, c));
    } else if a.CleanupAction? {
      CleanupStep(cfg, s, a, c);
      CleanupTime(a);
      if Cleans(s, a, c) {
        CleanTracks(cfg, StoredQueue(s, c), h, at, clock, a.now);
      }
    } else {
      OtherEffect(cfg, s, a, c);
    }
  }

  lemma CleansIsExclusive(cfg: Config, s: State, a: Action, c: string)
    ensures Cleans(s, a, c) ==> a.CleanupAction? && !Empties(s, a, c) && !Accepts(cfg, s, a, c)
  {
  }

  /** A message has not expired when it is accepted, nor at any earlier cleanup. */
  lemma AcceptedIsFresh(cfg: Config, a: Action, c: string, at: Option<int>)
    requires (a.QueueAction? || a.QueueOfflineAction?) && AtMost(at, TimeOf(a))
    ensures !DeadBy(Accepted(cfg, a, c), at)
  {
  }

  lemma NothingTracks(cfg: Config, at: Option<int>)
    ensures Tracks(cfg, [], [], at)
  {
  }

  lemma CleanupTime(a: Action)
    requires a.CleanupAction?
    ensures TimeOf(a) == Some(a.now)
  {
  }

  lemma AcceptIsQueueing(cfg: Config, s: State, a: Action, c: string)
    requires Accepts(cfg, s, a, c)
    ensures a.QueueAction? || a.QueueOfflineAction?
  {
  }

  lemma CleanupStep(cfg: Config, s: State, a: Action, c: string)
    requires Durable(s) && a.CleanupAction? && !Empties(s, a, c)
    ensures StoredQueue(Step(cfg, s, a), c)
            == if Cleans(s, a, c) then FreshOnes(StoredQueue(s, c), a.now) else StoredQueue(s, c)
  {
    CleanupEffect(s, a, c);
  }

  lemma NextStamped(cfg: Config, s: State, a: Action, c: string, h: seq<QueuedMessage>, clock: Option<int>)
    requires Stamped(cfg, h, clock) && AtMost(clock, TimeOf(a))
    ensures Stamped(cfg, NextHistory(cfg, s, h, a, c), if EndOf(a).Some? then EndOf(a) else clock)
  {
    hide Accepts, Empties, Recipients;
    if Accepts(cfg, s, a, c) {
      AcceptIsQueueing(cfg, s, a, c);
    }
  }

  lemma {:induction false} RunRefines(cfg: Config, actions: seq<Action>, c: string)
    requires Monotone(actions)
    ensures Refines(cfg, actions, c)
  {
    if actions != [] {
      var front, a := actions[..|actions| - 1], actions[|actions| - 1];
      RunRefines(cfg, front, c);
      RunIsDurable(cfg, actions);
      LastAction(cfg, actions, c);
      CleaningIsPast(cfg, front, a, c);
      hide Run, RunFrom, Step, History, CleanedAt, Clock, Monotone, Tracks, Stamped, NextHistory, Durable, Cleans, TimeOf, EndOf;
      NextTracks(cfg, Run(cfg, front), a, c, History(cfg, front, c), CleanedAt(cfg, front, c), Clock(front));
      NextStamped(cfg, Run(cfg, front), a, c, History(cfg, front, c), Clock(front));
    }
  }

  ghost predicate Past(at: Option<int>, clock: Option<int>) {
    AtMost(at, clock) && (at.Some? ==> clock.Some?)
  }

  lemma CleaningIsPast(cfg: Config, front: seq<Action>, a: Action, c: string)
    requires Past(CleanedAt(cfg, front, c), Clock(front)) && AtMost(Clock(front), TimeOf(a))
    ensures AtMost(CleanedAt(cfg, front, c), TimeOf(a))
    ensures Past(if Cleans(Run(cfg, front), a, c) then Some(a.now) else CleanedAt(cfg, front, c),
                 if EndOf(a).Some? then EndOf(a) else Clock(front))
  {
  }

  /** How the recordings of a run grow with its last action. */
  lemma LastAction(cfg: Config, actions: seq<Action>, c: string)
    requires actions != [] && Monotone(actions)
    ensures var front, a := actions[..|actions| - 1], actions[|actions| - 1];
            && Monotone(front) && AtMost(Clock(front), TimeOf(a))
            && Run(cfg, actions) == Step(cfg, Run(cfg, front), a)
            && History(cfg, actions, c) == NextHistory(cfg, Run(cfg, front), History(cfg, front, c), a, c)
            && Clock(actions) == (if EndOf(a).Some? then EndOf(a) else Clock(front))
            && CleanedAt(cfg, actions, c)
               == if Cleans(Run(cfg, front), a, c) then Some(a.now) else CleanedAt(cfg, front, c)
  {
  }

  // ----- Delivery -----

  lemma {:induction false} LiveOnesConcat(p: seq<QueuedMessage>, q: seq<QueuedMessage>, now: int)
    ensures LiveOnes(p + q, now, []) == LiveOnes(p, now, []) + LiveOnes(q, now, [])
  {
    if q == [] {
      assert p + q == p;
    } else {
      var k := |q| - 1;
      LiveOnesConcat(p, q[..k], now);
      assert (p + q)[..|p + q| - 1] == p + q[..k];
    }
  }

  lemma {:induction false} NoneLive(q: seq<QueuedMessage>, now: int)
    requires forall i :: 0 <= i < |q| ==> !Live(q[i], now)
    ensures LiveOnes(q, now, []) == []
  {
    if q != [] {
      NoneLive(q[..|q| - 1], now);
    }
  }

  /**
   The first `gone` of `recent` had expired when the queue was last cleaned, the others had not; of the others exactly
   those are handed over, in order, that have not expired when the delivery, which starts at t, comes to them.
   */
  ghost predicate HandsOverLive(
    recent: seq<QueuedMessage>, gone: nat, at: Option<int>, t: int, lags: seq<nat>, handed: seq<QueuedMessage>)
  {
    && gone <= |recent| && handed == LiveOnes(recent[gone..], t, lags)
    && (forall i :: 0 <= i < gone ==> DeadBy(recent[i], at))
    && (forall i :: gone <= i < |recent| ==> !DeadBy(recent[i], at))
  }

  ghost predicate HandsOverSomeLive(
    recent: seq<QueuedMessage>, at: Option<int>, t: int, lags: seq<nat>, handed: seq<QueuedMessage>)
  {
    exists gone :: HandsOverLive(recent, gone, at, t, lags, handed)
  }

  lemma TrackedLiveOnes(cfg: Config, q: seq<QueuedMessage>, h: seq<QueuedMessage>, at: Option<int>, now: int, lags: seq<nat>)
    requires Tracks(cfg, q, h, at)
    ensures var recent := Last(h, cfg.maxOfflineMessages);
            |q| <= |recent| && HandsOverLive(recent, |recent| - |q|, at, now, lags, LiveOnes(q, now, lags))
  {
    var recent := Last(h, cfg.maxOfflineMessages);
    var gone := |recent| - |q|;
    assert recent[gone..] == q;
    forall i | 0 <= i < gone ensures DeadBy(recent[i], at) {
      assert recent[i] == h[|h| - |recent| + i];
    }
    forall i | gone <= i < |recent| ensures !DeadBy(recent[i], at) {
      assert recent[i] == q[i - gone];
    }
  }

  /** When the delivery takes no time and the cleaning was strictly earlier, that is all of `recent` that is live. */
  lemma HandsOverAtOnce(recent: seq<QueuedMessage>, gone: nat, at: Option<int>, t: int, handed: seq<QueuedMessage>)
    requires HandsOverLive(recent, gone, at, t, [], handed) && (at.Some? ==> at.value < t)
    ensures handed == LiveOnes(recent, t, [])
  {
    assert recent == recent[..gone] + recent[gone..];
    NoneLive(recent[..gone], t);
    LiveOnesConcat(recent[..gone], recent[gone..], t);
  }

  /**
   Delivery refines history.  In every run with a clock that never goes back, a successful delivery to a persistent
   session hands over, in arrival order, exactly those of the newest `maxOfflineMessages` messages accepted since the
   queue was last emptied that had not expired when the queue was last cleaned and have not when the delivery comes to
   them.  A clean session is handed nothing.
   */
  lemma DeliveryRefinesHistory(cfg: Config, actions: seq<Action>, c: string, failAt: Option<nat>, t: int, lags: seq<nat>)
    requires Monotone(actions)
    requires Handed(Run(cfg, actions), c, true, failAt, t, lags).ok
    ensures c in Run(cfg, actions).active
    ensures HandsOverHistory(cfg, Run(cfg, actions).active[c], History(cfg, actions, c), CleanedAt(cfg, actions, c), t, lags,
                             Handed(Run(cfg, actions), c, true, failAt, t, lags).handed)
  {
    RunRefines(cfg, actions, c);
    TrackedDelivery(cfg, Run(cfg, actions), c, History(cfg, actions, c), CleanedAt(cfg, actions, c), failAt, t, lags);
  }

  /**
   What a delivery owes, computed from the history alone.  The two expiry tests differ only at the very instant of
   expiry, so a cleaning strictly before t makes no difference to what is live at t.
   */
  ghost predicate HandsOverHistory(
    cfg: Config, session: Session, h: seq<QueuedMessage>, at: Option<int>, t: int, lags: seq<nat>, handed: seq<QueuedMessage>)
  {
    var recent := Last(h, cfg.maxOfflineMessages);
    if session.cleanSession then handed == []
    else && HandsOverSomeLive(recent, at, t, lags, handed)
         && (lags == [] && (at.Some? ==> at.value < t) ==> handed == LiveOnes(recent, t, []))
  }

  lemma TrackedDelivery(cfg: Config, s: State, c: string, h: seq<QueuedMessage>, at: Option<int>,
                        failAt: Option<nat>, t: int, lags: seq<nat>)
    requires Durable(s) && Tracks(cfg, StoredQueue(s, c), h, at)
    requires Handed(s, c, true, failAt, t, lags).ok
    ensures c in s.active
    ensures HandsOverHistory(cfg, s.active[c], h, at, t, lags, Handed(s, c, true, failAt, t, lags).handed)
  {
    hide *;
    HandedFacts(s, c, failAt, t, lags);
    if s.active[c].cleanSession {
      NothingOwed(cfg, s.active[c], h, at, t, lags);
    } else {
      OwedFromQueue(cfg, s.active[c], StoredQueue(s, c), h, at, t, lags);
    }
  }

  lemma NothingOwed(cfg: Config, session: Session, h: seq<QueuedMessage>, at: Option<int>, t: int, lags: seq<nat>)
    requires session.cleanSession
    ensures HandsOverHistory(cfg, session, h, at, t, lags, LiveOnes([], t, lags))
  {
  }

  lemma OwedFromQueue(cfg: Config, session: Session, q: seq<QueuedMessage>, h: seq<QueuedMessage>, at: Option<int>, t: int,
                      lags: seq<nat>)
    requires !session.cleanSession && Tracks(cfg, q, h, at)
    ensures HandsOverHistory(cfg, session, h, at, t, lags, LiveOnes(q, t, lags))
  {
    hide Tracks, HandsOverLive, HandsOverSomeLive, LiveOnes, Last;
    var recent, handed := Last(h, cfg.maxOfflineMessages), LiveOnes(q, t, lags);
    TrackedLiveOnes(cfg, q, h, at, t, lags);
    Introduce(recent, |recent| - |q|, at, t, lags, handed);
    if lags == [] && (at.Some? ==> at.value < t) {
      HandsOverAtOnce(recent, |recent| - |q|, at, t, handed);
    }
  }

  lemma Introduce(recent: seq<QueuedMessage>, gone: nat, at: Option<int>, t: int, lags: seq<nat>, handed: seq<QueuedMessage>)
    requires HandsOverLive(recent, gone, at, t, lags, handed)
    ensures HandsOverSomeLive(recent, at, t, lags, handed)
  {
  }

  lemma HandedFacts(s: State, c: string, failAt: Option<nat>, t: int, lags: seq<nat>)
    requires Durable(s) && Handed(s, c, true, failAt, t, lags).ok
    ensures c in s.active && Handed(s, c, true, failAt, t, lags).handed == LiveOnes(s.active[c].queue, t, lags)
    ensures s.active[c].queue == if s.active[c].cleanSession then [] else StoredQueue(s, c)
  {
  }

  lemma {:induction false} LiveOnesAt(q: seq<QueuedMessage>, k: nat, now: int, lags: seq<nat>)
    requires k < |q| && Live(q[k], Reading(now, lags, k))
    ensures LiveOnes(q[..k], now, lags) + [q[k]] <= LiveOnes(q, now, lags)
  {
    if k == |q| - 1 {
      assert q[..k + 1] == q;
    } else {
      LiveOnesAt(q[..|q| - 1], k, now, lags);
      assert q[..|q| - 1][..k] == q[..k];
    }
  }

  /**
   A delivery that fails keeps the whole queue for the next attempt.  If there was a callback and a connection, it has
   handed over what it owed up to the message that was refused; a delivery succeeds exactly when it hands over all it owed.
   */
  lemma FailedDeliveryKeepsQueue(cfg: Config, s: State, c: string, registered: bool, failAt: Option<nat>, t: int, lags: seq<nat>)
    ensures var d := Handed(s, c, registered, failAt, t, lags);
            && (!d.ok ==> Step(cfg, s, DeliverAction(c, registered, failAt, t, lags)) == s)
            && if registered && c in s.active && s.active[c].connected then
                 var q := s.active[c].queue; var owed := LiveOnes(q, t, lags);
                 && (d.ok <==> d.handed == owed)
                 && (!d.ok ==> failAt.Some? && failAt.value < |q| && d.handed + [q[failAt.value]] <= owed)
               else !d.ok && d.handed == []
  {
    if c in s.active && !Handed(s, c, registered, failAt, t, lags).ok && registered && s.active[c].connected {
      LiveOnesAt(s.active[c].queue, failAt.value, t, lags);
    }
  }

  // ----- A cleanup at the instant of a delivery -----

  /** The two expiry tests differ at the very instant of expiry only. */
  lemma {:induction false} FreshAgainstLive(q: seq<QueuedMessage>, t: int)
    ensures |FreshOnes(q, t)| <= |LiveOnes(q, t, [])|
    ensures FreshOnes(q, t) == LiveOnes(q, t, []) <==> forall i :: 0 <= i < |q| ==> q[i].expiryTime != Some(t)
    ensures FreshOnes(q, t) == LiveOnes(q, t, []) <==> |FreshOnes(q, t)| == |LiveOnes(q, t, [])|
  {
    if q != [] {
      var front, m := q[..|q| - 1], q[|q| - 1];
      FreshAgainstLive(front, t);
      assert q == front + [m];
      var f, l := FreshOnes(front, t), LiveOnes(front, t, []);
      assert FreshOnes(q, t) == f + (if Fresh(m, t) then [m] else []);
      assert LiveOnes(q, t, []) == l + (if Live(m, t) then [m] else []);
      assert (forall i :: 0 <= i < |q| ==> q[i].expiryTime != Some(t))
          <==> m.expiryTime != Some(t) && forall i :: 0 <= i < |front| ==> front[i].expiryTime != Some(t) by {
        assert forall i :: 0 <= i < |front| ==> q[i] == front[i];
      }
      hide FreshOnes, LiveOnes;
      assert f != l ==> |f| < |l|;
    }
  }

  lemma {:induction false} AllLive(q: seq<QueuedMessage>, t: int)
    requires forall i :: 0 <= i < |q| ==> Fresh(q[i], t)
    ensures LiveOnes(q, t, []) == q
  {
    if q != [] {
      AllLive(q[..|q| - 1], t);
      assert q == q[..|q| - 1] + [q[|q| - 1]];
    }
  }

  /**
   A cleanup at the instant of a delivery, just before it, changes what the delivery hands over exactly when a message in
   the queue expires at that very instant.
   */
  lemma CleanupAtSameInstant(s: State, c: string, t: int)
    requires c in s.active && s.active[c].connected
    ensures Handed(Cleanup(s, t), c, true, None, t, []) == Handed(s, c, true, None, t, [])
            <==> forall i :: 0 <= i < |s.active[c].queue| ==> s.active[c].queue[i].expiryTime != Some(t)
  {
    var q, u := s.active[c].queue, Cleanup(s, t);
    assert c in u.active && u.active[c] == Cleaned(s.active[c], t);
    hide Cleanup, FreshOnes, LiveOnes;
    FreshOnesAreFresh(q, t);
    AllLive(FreshOnes(q, t), t);
    FreshAgainstLive(q, t);
  }
}
