/**
 Will messages read off the calls: pkg/persistent/session.go and will.go.

 The other will modules follow the identity of a will.  Here it is tied to the call that installed it: what is
 published, or waits on a timer, is what the client's last SetWillMessage said, for the client that said it, and not
 before its time.
 */
module WillCalls {
  import opened Common
  import opened Sessions
  import opened DurableMirror
  import opened Wills
  import opened SessionCalls

  /** Call d is the ungraceful disconnect of a client that has a session. */
  ghost predicate DropsAt(cfg: Config, actions: seq<Action>, d: nat, c: string) {
    d < |actions| && Disconnects(actions[d], c) && !actions[d].graceful && Alive(cfg, actions[..d], c)
  }

  /** Call d drops the client, call k is the last one that set its will, and this is that will. */
  ghost predicate DropsWill(cfg: Config, actions: seq<Action>, d: nat, k: nat, c: string, will: Will) {
    && DropsAt(cfg, actions, d, c)
    && WillFrom(cfg, actions[..d], c) == Some(k)
    && SetBy(will, actions[k]) && will.serial == Run(cfg, actions[..k]).nextWill
  }

  /** The timer waits for a will that was dropped with a delay; it is due that long after the disconnect. */
  ghost predicate WaitsFor(cfg: Config, actions: seq<Action>, d: nat, k: nat, timer: Timer) {
    && DropsWill(cfg, actions, d, k, timer.clientID, timer.will)
    && actions[k].delay > 0
    && timer.id == TimerID(timer.clientID, actions[d].now) && timer.due == actions[d].now + actions[k].delay
  }

  ghost predicate Awaited(cfg: Config, actions: seq<Action>, timer: Timer) {
    exists d: nat, k: nat :: WaitsFor(cfg, actions, d, k, timer)
  }

  /** Some later call is a timer that goes off at this instant or after it. */
  predicate GoesOffAfter(actions: seq<Action>, d: nat, time: int) {
    exists j :: d < j < |actions| && actions[j].FireAction? && actions[j].now >= time
  }

  /** The publication is of a will that was dropped: at once if it has no delay, else when its time had come. */
  ghost predicate Follows(cfg: Config, actions: seq<Action>, d: nat, k: nat, p: Publication) {
    && DropsWill(cfg, actions, d, k, p.clientID, p.will)
    && (actions[k].delay > 0 ==> GoesOffAfter(actions, d, actions[d].now + actions[k].delay))
  }

  ghost predicate Justified(cfg: Config, actions: seq<Action>, p: Publication) {
    exists d: nat, k: nat :: Follows(cfg, actions, d, k, p)
  }

  ghost predicate WillsAsCalled(cfg: Config, actions: seq<Action>, w: WillState) {
    && (forall h <- w.armed :: Awaited(cfg, actions, w.armed[h]))
    && (forall i :: 0 <= i < |w.published| ==> Justified(cfg, actions, w.published[i]))
  }

  // ----- More calls change none of that -----

  lemma DropsWillStays(cfg: Config, front: seq<Action>, a: Action, d: nat, k: nat, c: string, will: Will)
    requires DropsWill(cfg, front, d, k, c, will)
    ensures DropsWill(cfg, front + [a], d, k, c, will)
    ensures k < d < |front| && (front + [a])[d] == front[d] && (front + [a])[k] == front[k]
  {
    assert (front + [a])[..d] == front[..d];
    assert k < d;
    assert (front + [a])[..k] == front[..k];
    hide Alive, WillFrom, Run;
  }

  lemma AwaitedStays(cfg: Config, front: seq<Action>, a: Action, timer: Timer)
    requires Awaited(cfg, front, timer)
    ensures Awaited(cfg, front + [a], timer)
  {
    var d: nat, k: nat :| WaitsFor(cfg, front, d, k, timer);
    DropsWillStays(cfg, front, a, d, k, timer.clientID, timer.will);
    hide DropsWill;
    assert WaitsFor(cfg, front + [a], d, k, timer);
  }

  lemma GoesOffStays(front: seq<Action>, a: Action, d: nat, time: int)
    requires GoesOffAfter(front, d, time)
    ensures GoesOffAfter(front + [a], d, time)
  {
    var j :| d < j < |front| && front[j].FireAction? && front[j].now >= time;
    assert (front + [a])[j] == front[j];
  }

  lemma JustifiedStays(cfg: Config, front: seq<Action>, a: Action, p: Publication)
    requires Justified(cfg, front, p)
    ensures Justified(cfg, front + [a], p)
  {
    var d: nat, k: nat :| Follows(cfg, front, d, k, p);
    DropsWillStays(cfg, front, a, d, k, p.clientID, p.will);
    hide DropsWill, GoesOffAfter;
    if front[k].delay > 0 {
      GoesOffStays(front, a, d, front[d].now + front[k].delay);
    }
    assert Follows(cfg, front + [a], d, k, p);
  }

  // ----- What one call adds -----

  /** The client and will that a call drops, if it does. */
  predicate Drops(s: State, a: Action) {
    a.DisconnectAction? && !a.graceful && a.clientID in s.active && s.active[a.clientID].will.Some?
  }

  /** A timer is an old one, or that of a delayed will that the call drops. */
  predicate KnownTimer(s: State, a: Action, h: nat, timer: Timer) {
    || (h in s.wills.armed && timer == s.wills.armed[h])
    || (Drops(s, a)
        && var will := s.active[a.clientID].will.value;
           && will.delayInterval > 0
           && timer == Timer(TimerID(a.clientID, a.now), h, will, a.clientID, a.now + will.delayInterval))
  }

  /** A publication is of an immediate will that the call drops, or of a timer that is due. */
  predicate NewPublication(s: State, a: Action, p: Publication) {
    || (Drops(s, a)
        && var will := s.active[a.clientID].will.value;
           will.delayInterval <= 0 && p == Publication(a.clientID, will))
    || (a.FireAction? && a.handle in s.wills.armed
        && var timer := s.wills.armed[a.handle];
           a.now >= timer.due && p == Publication(timer.clientID, timer.will))
  }

  ghost predicate WillsGrow(s: State, a: Action, w: WillState) {
    && (forall h <- w.armed :: KnownTimer(s, a, h, w.armed[h]))
    && (w.published == s.wills.published
        || (|w.published| == |s.wills.published| + 1 && w.published[..|s.wills.published|] == s.wills.published
            && NewPublication(s, a, w.published[|s.wills.published|])))
  }

  lemma DisconnectGrows(s: State, a: Action)
    requires a.DisconnectAction?
    ensures WillsGrow(s, a, Disconnect(s, a.clientID, a.graceful, a.now).wills)
  {
  }

  lemma StepGrows(cfg: Config, s: State, a: Action)
    requires Durable(s)
    ensures WillsGrow(s, a, Step(cfg, s, a).wills)
  {
    if Quiet(a) {
      QuietHolds(cfg, s, a, "");
    } else if a.DisconnectAction? {
      DisconnectGrows(s, a);
    }
    hide Connect, Disconnect, Subscribe, Unsubscribe, Queue, Deliver, QueueOffline, Cleanup, NextPacketID, Durable,
         Drops;
  }

  // ----- Runs -----

  lemma DropFromCalls(cfg: Config, front: seq<Action>, a: Action)
    requires Drops(Run(cfg, front), a)
    ensures var will := Run(cfg, front).active[a.clientID].will.value; var k := WillFrom(cfg, front, a.clientID);
            && k.Some? && DropsWill(cfg, front + [a], |front|, k.value, a.clientID, will)
            && (front + [a])[k.value].delay == will.delayInterval
  {
    var c := a.clientID;
    SessionsAreCalls(cfg, front, c);
    assert HoldsWill(cfg, front, c, Run(cfg, front).active[c].will);
    assert (front + [a])[..|front|] == front;
    var k := WillFrom(cfg, front, c);
    assert (front + [a])[..k.value] == front[..k.value];
    hide Run, Alive, WillFrom, RecordAsSaved;
  }

  lemma TimerAsCalled(cfg: Config, front: seq<Action>, a: Action, h: nat, timer: Timer)
    requires WillsAsCalled(cfg, front, Run(cfg, front).wills) && KnownTimer(Run(cfg, front), a, h, timer)
    ensures Awaited(cfg, front + [a], timer)
  {
    var s := Run(cfg, front);
    hide Run, WillFrom, DropsWill;
    if h in s.wills.armed && timer == s.wills.armed[h] {
      AwaitedStays(cfg, front, a, timer);
    } else {
      DropFromCalls(cfg, front, a);
      assert WaitsFor(cfg, front + [a], |front|, WillFrom(cfg, front, a.clientID).value, timer);
    }
  }

  lemma FiredAsCalled(cfg: Config, front: seq<Action>, a: Action, timer: Timer)
    requires Awaited(cfg, front, timer) && a.FireAction? && a.now >= timer.due
    ensures Justified(cfg, front + [a], Publication(timer.clientID, timer.will))
  {
    var d: nat, k: nat :| WaitsFor(cfg, front, d, k, timer);
    DropsWillStays(cfg, front, a, d, k, timer.clientID, timer.will);
    hide DropsWill;
    assert (front + [a])[|front|] == a;
    assert GoesOffAfter(front + [a], d, timer.due);
    assert Follows(cfg, front + [a], d, k, Publication(timer.clientID, timer.will));
  }

  lemma PublicationAsCalled(cfg: Config, front: seq<Action>, a: Action, p: Publication)
    requires WillsAsCalled(cfg, front, Run(cfg, front).wills) && NewPublication(Run(cfg, front), a, p)
    ensures Justified(cfg, front + [a], p)
  {
    var s := Run(cfg, front);
    hide Run, WillFrom, DropsWill, Awaited;
    if a.FireAction? {
      FiredAsCalled(cfg, front, a, s.wills.armed[a.handle]);
    } else {
      DropFromCalls(cfg, front, a);
      assert Follows(cfg, front + [a], |front|, WillFrom(cfg, front, a.clientID).value, p);
    }
  }

  /**
   Wills are published as they were set.  In every run each timer that waits and each publication goes back to an
   ungraceful disconnect of its client and to the client's last SetWillMessage before that, and has its topic, payload,
   QoS and retain flag; a will with a delay is due exactly that long after the disconnect, and is published by a timer
   that goes off no earlier.
   */
  lemma {:induction false} WillsAreCalls(cfg: Config, actions: seq<Action>)
    ensures WillsAsCalled(cfg, actions, Run(cfg, actions).wills)
  {
    if actions != [] {
      var front, a := actions[..|actions| - 1], actions[|actions| - 1];
      assert actions == front + [a];
      hide *;
      WillsAreCalls(cfg, front);
      RunIsDurable(cfg, front);
      StepGrows(cfg, Run(cfg, front), a);
      GrownAsCalled(cfg, front, a, Step(cfg, Run(cfg, front), a).wills);
      LastStep(cfg, actions);
    }
  }

  lemma GrownAsCalled(cfg: Config, front: seq<Action>, a: Action, w: WillState)
    requires WillsAsCalled(cfg, front, Run(cfg, front).wills) && WillsGrow(Run(cfg, front), a, w)
    ensures WillsAsCalled(cfg, front + [a], w)
  {
    var s := Run(cfg, front);
    hide Run, Awaited, Justified, KnownTimer, NewPublication;
    forall h | h in w.armed ensures Awaited(cfg, front + [a], w.armed[h]) {
      TimerAsCalled(cfg, front, a, h, w.armed[h]);
    }
    forall i | 0 <= i < |w.published| ensures Justified(cfg, front + [a], w.published[i]) {
      if i < |s.wills.published| {
        JustifiedStays(cfg, front, a, s.wills.published[i]);
      } else {
        PublicationAsCalled(cfg, front, a, w.published[i]);
      }
    }
  }

  lemma LastStep(cfg: Config, actions: seq<Action>)
    requires actions != []
    ensures Run(cfg, actions) == Step(cfg, Run(cfg, actions[..|actions| - 1]), actions[|actions| - 1])
  {
  }

  /** Exactly one timer more than before: the last to be made, for this client, will and instant. */
  predicate Schedules(w: WillState, v: WillState, c: string, will: Will, now: int) {
    && v.published == w.published && v.nextHandle == w.nextHandle + 1
    && v.armed.Keys == w.armed.Keys + {w.nextHandle}
    && v.armed[w.nextHandle].clientID == c && v.armed[w.nextHandle].will == will
    && v.armed[w.nextHandle].due == now + will.delayInterval
  }

  /**
   What an ungraceful disconnect does with the will.  After every run: without a session, or without a will set since it
   began, nothing; a will without a delay is published at once, one with a delay put on a timer.
   */
  lemma DropPublishesLastWill(cfg: Config, actions: seq<Action>, c: string, now: int)
    ensures var w, v := Run(cfg, actions).wills, Run(cfg, actions + [DisconnectAction(c, false, now)]).wills;
            var k := WillFrom(cfg, actions, c);
            if !Alive(cfg, actions, c) || k.None? then v == w
            else exists will :: SetBy(will, actions[k.value]) && will.serial == Run(cfg, actions[..k.value]).nextWill
                                && if actions[k.value].delay > 0 then Schedules(w, v, c, will, now)
                                   else v == w.(published := w.published + [Publication(c, will)])
  {
    var s := Run(cfg, actions);
    SessionsAreCalls(cfg, actions, c);
    RunAppend(cfg, INIT, actions, DisconnectAction(c, false, now));
    if c in s.active {
      assert HoldsWill(cfg, actions, c, s.active[c].will);
      if s.active[c].will.Some? {
        DropDoes(s, c, now);
      }
    }
    hide Run, Alive, WillFrom, RecordAsSaved, FlagsAsCalled, PublishWill;
  }

  lemma DropDoes(s: State, c: string, now: int)
    requires c in s.active && s.active[c].will.Some?
    ensures var will := s.active[c].will.value; var w, v := s.wills, Disconnect(s, c, false, now).wills;
            if will.delayInterval > 0 then Schedules(w, v, c, will, now)
            else v == w.(published := w.published + [Publication(c, will)])
  {
  }
}
