/**
 Will messages reach the publisher at most once.

 A will is installed by SetWillMessage, kept in the session and in its stored record, moved to a timer or to the
 publisher by an ungraceful disconnect, and dropped by a graceful one.  The lemmas follow the identity of each
 installed will through all of that, over every run, including saves, crashes and restores.
 */
module Wills {
  import opened Common
  import opened Sessions
  import opened DurableMirror

  // ----- Where a will can be -----

  function SerialOf(m: map<string, Session>, c: string): set<nat> {
    if c in m && m[c].will.Some? then {m[c].will.value.serial} else {}
  }

  /** The wills a client holds, in memory or in its record. */
  function Held(s: State, c: string): set<nat> {
    SerialOf(s.active, c) + SerialOf(s.store, c)
  }

  predicate IsArmed(w: WillState, serial: nat) {
    exists h <- w.armed :: w.armed[h].will.serial == serial
  }

  predicate IsPublished(w: WillState, serial: nat) {
    exists i :: 0 <= i < |w.published| && w.published[i].will.serial == serial
  }

  /** Timers and publications: no will twice, none invented, none both waiting and published. */
  ghost predicate OnceOnly(w: WillState, bound: nat) {
    && (forall h <- w.armed :: h < w.nextHandle && w.armed[h].will.serial < bound && !IsPublished(w, w.armed[h].will.serial))
    && (forall h <- w.armed, k <- w.armed :: h != k ==> w.armed[h].will.serial != w.armed[k].will.serial)
    && (forall i :: 0 <= i < |w.published| ==> w.published[i].will.serial < bound)
    && (forall i, j :: 0 <= i < j < |w.published| ==> w.published[i].will.serial != w.published[j].will.serial)
  }

  predicate Idle(s: State, serial: nat) {
    serial < s.nextWill && !IsArmed(s.wills, serial) && !IsPublished(s.wills, serial)
  }

  /** A held will belongs to one client and is neither waiting nor published. */
  ghost predicate HeldOnce(s: State) {
    && (forall c: string :: forall x <- Held(s, c) :: Idle(s, x))
    && (forall c, d :: c != d ==> Held(s, c) !! Held(s, d))
  }

  ghost predicate WillsOnce(s: State) {
    OnceOnly(s.wills, s.nextWill) && HeldOnce(s)
  }

  lemma HeldIsIdle(s: State, c: string, x: nat)
    requires WillsOnce(s) && x in Held(s, c)
    ensures x < s.nextWill && !IsArmed(s.wills, x) && !IsPublished(s.wills, x)
  {
    assert Idle(s, x);
  }

  // ----- Steps -----

  /** Calls that move wills only between a client's session and its record, or drop them. */
  lemma ShrinkKeeps(s: State, t: State)
    requires WillsOnce(s)
    requires t.wills == s.wills && t.nextWill == s.nextWill
    requires forall c :: Held(t, c) <= Held(s, c)
    ensures WillsOnce(t)
  {
    hide Held;
  }

  lemma PublishNowKeeps(w: WillState, bound: nat, will: Will, c: string)
    requires OnceOnly(w, bound) && will.serial < bound
    requires !IsArmed(w, will.serial) && !IsPublished(w, will.serial)
    ensures OnceOnly(PublishNow(w, will, c), bound)
    ensures forall x :: x != will.serial ==>
                          (IsPublished(PublishNow(w, will, c), x) <==> IsPublished(w, x))
                          && (IsArmed(PublishNow(w, will, c), x) <==> IsArmed(w, x))
    ensures IsPublished(PublishNow(w, will, c), will.serial)
  {
    var v := PublishNow(w, will, c);
    assert v.published[|w.published|].will.serial == will.serial;
    forall x | x != will.serial ensures IsPublished(v, x) <==> IsPublished(w, x) {
      if IsPublished(w, x) {
        var i :| 0 <= i < |w.published| && w.published[i].will.serial == x;
        assert v.published[i].will.serial == x;
      }
    }
  }

  lemma ScheduleKeeps(w: WillState, bound: nat, will: Will, c: string, now: int)
    requires OnceOnly(w, bound) && will.serial < bound
    requires !IsArmed(w, will.serial) && !IsPublished(w, will.serial)
    ensures OnceOnly(Schedule(w, will, c, now), bound)
    ensures forall x :: x != will.serial ==>
                          (IsPublished(Schedule(w, will, c, now), x) <==> IsPublished(w, x))
                          && (IsArmed(Schedule(w, will, c, now), x) <==> IsArmed(w, x))
  {
    var v := Schedule(w, will, c, now);
    assert v.published == w.published;
    forall x | x != will.serial ensures IsArmed(v, x) <==> IsArmed(w, x) {
      if IsArmed(w, x) {
        var h :| h in w.armed && w.armed[h].will.serial == x;
        assert v.armed[h].will.serial == x;
      }
    }
  }

  /** Stopping timers is always fine. */
  lemma DisarmKeeps(w: WillState, v: WillState, bound: nat)
    requires OnceOnly(w, bound)
    requires v.published == w.published && v.nextHandle == w.nextHandle
    requires v.armed.Keys <= w.armed.Keys && forall h <- v.armed :: v.armed[h] == w.armed[h]
    ensures OnceOnly(v, bound)
    ensures forall x :: IsPublished(v, x) <==> IsPublished(w, x)
    ensures forall x :: IsArmed(v, x) ==> IsArmed(w, x)
  {
  }

  lemma FireKeeps(w: WillState, bound: nat, handle: nat, now: int)
    requires OnceOnly(w, bound)
    ensures OnceOnly(FireTimer(w, handle, now), bound)
    ensures forall x :: IsPublished(FireTimer(w, handle, now), x) || IsArmed(FireTimer(w, handle, now), x)
                        ==> IsPublished(w, x) || IsArmed(w, x)
  {
    if handle in w.armed && now >= w.armed[handle].due {
      var timer := w.armed[handle];
      var v := w.(timers := w.timers - {timer.id}, armed := w.armed - {handle});
      DisarmKeeps(w, v, bound);
      assert !IsArmed(v, timer.will.serial);
      PublishNowKeeps(v, bound, timer.will, timer.clientID);
    }
  }

  /** New timers and publications of a step come from old ones or from wills no client holds any more. */
  lemma WillsChangeKeeps(s: State, t: State)
    requires WillsOnce(s)
    requires OnceOnly(t.wills, s.nextWill) && t.nextWill == s.nextWill
    requires forall c :: Held(t, c) <= Held(s, c)
    requires forall c, x :: x in Held(t, c) && (IsPublished(t.wills, x) || IsArmed(t.wills, x))
                            ==> IsPublished(s.wills, x) || IsArmed(s.wills, x)
    ensures WillsOnce(t)
  {
    hide Held, IsPublished, IsArmed;
  }

  lemma DisconnectDrops(s: State, c: string, graceful: bool, now: int, d: string)
    requires Durable(s) && c in s.active
    ensures Held(Disconnect(s, c, graceful, now), d) == if d == c then {} else Held(s, d)
  {
    hide WillsAfterDisconnect;
  }

  lemma DisconnectWills(s: State, c: string, graceful: bool, now: int)
    requires Durable(s) && WillsOnce(s) && c in s.active
    ensures var w := WillsAfterDisconnect(s.wills, s.active[c], c, graceful, now);
            && OnceOnly(w, s.nextWill)
            && (forall x :: x !in Held(s, c) && (IsPublished(w, x) || IsArmed(w, x))
                            ==> IsPublished(s.wills, x) || IsArmed(s.wills, x))
  {
    var session := s.active[c];
    if !graceful && session.will.Some? {
      var will := session.will.value;
      HeldIsIdle(s, c, will.serial);
      if will.delayInterval > 0 {
        ScheduleKeeps(s.wills, s.nextWill, will, c, now);
      } else {
        PublishNowKeeps(s.wills, s.nextWill, will, c);
      }
    } else if graceful {
      DisarmKeeps(s.wills, CancelWills(s.wills, c), s.nextWill);
    }
  }

  lemma DisconnectKeeps(s: State, c: string, graceful: bool, now: int)
    requires Durable(s) && WillsOnce(s)
    ensures WillsOnce(Disconnect(s, c, graceful, now))
  {
    if c in s.active {
      var t := Disconnect(s, c, graceful, now);
      DisconnectWills(s, c, graceful, now);
      assert t.wills == WillsAfterDisconnect(s.wills, s.active[c], c, graceful, now) && t.nextWill == s.nextWill;
      forall d ensures Held(t, d) == if d == c then {} else Held(s, d) {
        DisconnectDrops(s, c, graceful, now, d);
      }
      hide Disconnect, Held, IsPublished, IsArmed, OnceOnly, WillsAfterDisconnect;
      WillsChangeKeeps(s, t);
    }
  }

  lemma SetWillKeeps(s: State, c: string, topic: string, payload: Bytes, qos: nat, retain: bool, delay: int)
    requires WillsOnce(s)
    ensures WillsOnce(SetWill(s, c, topic, payload, qos, retain, delay))
  {
    if c in s.active {
      var t := SetWill(s, c, topic, payload, qos, retain, delay);
      forall d, x | x in Held(t, d) ensures x in Held(s, d) || (d == c && x == s.nextWill) {
      }
      assert !IsArmed(t.wills, s.nextWill) && !IsPublished(t.wills, s.nextWill);
    }
  }

  lemma CleanupHolds(s: State, now: int, c: string)
    requires Durable(s)
    ensures Held(Cleanup(s, now), c) <= Held(s, c)
  {
    var t := Cleanup(s, now);
    if c in s.active && Expired(s.active[c], now) {
      assert c !in t.active && c !in t.store;
    }
  }

  lemma CloseHolds(s: State, c: string)
    ensures Held(Close(s), c) <= Held(s, c)
  {
    hide CloseWills;
  }

  lemma QueueOfflineHolds(cfg: Config, s: State, p: Post, c: string)
    ensures Held(QueueOffline(cfg, s, p), c) <= Held(s, c)
  {
    hide HasMatch;
  }

  /** Calls that leave the will manager and the next serial alone. */
  predicate Quiet(a: Action) {
    a.ConnectAction? || a.SubscribeAction? || a.UnsubscribeAction? || a.QueueAction? || a.QueueOfflineAction?
    || a.NextPacketIDAction? || a.DeliverAction? || a.CleanupAction?
  }

  lemma KeepHolds(s: State, session: Session, c: string)
    requires session.clientID in s.active && session.will == s.active[session.clientID].will
    ensures Held(Keep(s, session), c) <= Held(s, c)
  {
  }

  /** A session in memory is replaced by one with no will, or with one that the client held already. */
  lemma PutHolds(s: State, d: string, session: Session, c: string)
    requires session.will.Some? ==> session.will.value.serial in Held(s, d)
    ensures Held(s.(active := s.active[d := session]), c) <= Held(s, c)
  {
  }

  lemma KeepNewHolds(s: State, session: Session, c: string)
    requires session.will.None?
    ensures Held(Keep(s, session), c) <= Held(s, c)
  {
  }

  lemma ConnectHolds(cfg: Config, s: State, d: string, clean: bool, expiryInterval: int, now: int, c: string)
    requires Durable(s)
    ensures Held(Connect(cfg, s, d, clean, expiryInterval, now), c) <= Held(s, c)
  {
    if d in s.active {
      PutHolds(s, d, Reconnect(s.active[d], clean, now), c);
    } else if !clean && d in s.store {
      PutHolds(s, d, Resume(s.store[d], expiryInterval, now), c);
    } else {
      KeepNewHolds(s, NewSession(cfg, d, clean, expiryInterval, now), c);
    }
    hide Held, Durable, Keep;
  }

  /** Calls that change one session and put it back. */
  lemma SessionCallHolds(cfg: Config, s: State, a: Action, c: string)
    requires Durable(s)
    requires a.SubscribeAction? || a.UnsubscribeAction? || a.QueueAction? || a.DeliverAction? || a.NextPacketIDAction?
    ensures var t := Step(cfg, s, a); t.wills == s.wills && t.nextWill == s.nextWill && Held(t, c) <= Held(s, c)
  {
    hide Held, Handed, MessageOf;
    if a.clientID in s.active {
      var session := s.active[a.clientID];
      match a {
        case SubscribeAction(_, topic, qos, now) =>
          KeepHolds(s, session.(subscriptions := session.subscriptions[topic := qos], lastActivity := now), c);
        case UnsubscribeAction(_, topic, now) =>
          KeepHolds(s, session.(subscriptions := session.subscriptions - {topic}, lastActivity := now), c);
        case QueueAction(_, topic, payload, qos, retain, now) =>
          KeepHolds(s, Enqueue(cfg, session, MessageOf(cfg, topic, payload, qos, retain, now)), c);
        case DeliverAction(_, _, _, _, _) =>
          KeepHolds(s, session.(queue := []), c);
        case NextPacketIDAction(_) =>
          NextPacketIDHolds(s, a.clientID, c);
      }
    }
  }

  lemma ConnectQuiet(cfg: Config, s: State, d: string, clean: bool, expiryInterval: int, now: int)
    ensures var t := Connect(cfg, s, d, clean, expiryInterval, now); t.wills == s.wills && t.nextWill == s.nextWill
  {
  }

  lemma QuietHolds(cfg: Config, s: State, a: Action, c: string)
    requires Durable(s) && Quiet(a)
    ensures var t := Step(cfg, s, a); t.wills == s.wills && t.nextWill == s.nextWill && Held(t, c) <= Held(s, c)
  {
    hide Durable, Held, Connect, Cleanup, QueueOffline, Subscribe, Unsubscribe, Queue, Deliver, NextPacketID, MessageOf;
    if a.CleanupAction? {
      CleanupHolds(s, a.now, c);
      CleanupQuiet(s, a.now);
    } else if a.QueueOfflineAction? {
      QueueOfflineHolds(cfg, s, a.post, c);
      QueueOfflineQuiet(cfg, s, a.post);
    } else if a.ConnectAction? {
      ConnectHolds(cfg, s, a.clientID, a.clean, a.expiryInterval, a.now, c);
      ConnectQuiet(cfg, s, a.clientID, a.clean, a.expiryInterval, a.now);
    } else {
      SessionCallHolds(cfg, s, a, c);
    }
  }

  lemma NextPacketIDHolds(s: State, d: string, c: string)
    ensures Held(NextPacketID(s, d), c) <= Held(s, c)
  {
  }

  lemma CleanupQuiet(s: State, now: int)
    ensures Cleanup(s, now).wills == s.wills && Cleanup(s, now).nextWill == s.nextWill
  {
  }

  lemma QueueOfflineQuiet(cfg: Config, s: State, p: Post)
    ensures QueueOffline(cfg, s, p).wills == s.wills && QueueOffline(cfg, s, p).nextWill == s.nextWill
  {
  }

  lemma CloseKeepsWills(s: State)
    requires WillsOnce(s)
    ensures WillsOnce(Close(s))
  {
    if !s.closed {
      var t := Close(s);
      DisarmKeeps(s.wills, t.wills, s.nextWill);
      forall c ensures Held(t, c) <= Held(s, c) { CloseHolds(s, c); }
      hide Close, Held, IsPublished, IsArmed, OnceOnly;
      WillsChangeKeeps(s, t);
    }
  }

  lemma TimersKeep(s: State, t: State)
    requires WillsOnce(s)
    requires t.active == s.active && t.store == s.store && t.nextWill == s.nextWill
    requires OnceOnly(t.wills, s.nextWill)
    requires forall x :: IsPublished(t.wills, x) || IsArmed(t.wills, x) ==> IsPublished(s.wills, x) || IsArmed(s.wills, x)
    ensures WillsOnce(t)
  {
    assert forall c :: Held(t, c) == Held(s, c);
    hide Held, IsPublished, IsArmed, OnceOnly;
    WillsChangeKeeps(s, t);
  }

  lemma CrashKeeps(s: State)
    requires WillsOnce(s)
    ensures WillsOnce(Crash(s))
  {
    var t := Crash(s);
    DisarmKeeps(s.wills, t.wills, s.nextWill);
    forall c ensures Held(t, c) <= Held(s, c) { }
    hide Held, IsPublished, IsArmed, OnceOnly;
    WillsChangeKeeps(s, t);
  }

  lemma StepKeepsWills(cfg: Config, s: State, a: Action)
    requires Durable(s) && WillsOnce(s)
    ensures WillsOnce(Step(cfg, s, a))
  {
    if Quiet(a) {
      forall c ensures var t := Step(cfg, s, a); t.wills == s.wills && t.nextWill == s.nextWill && Held(t, c) <= Held(s, c) {
        QuietHolds(cfg, s, a, c);
      }
      hide Step, Held, OnceOnly, HeldOnce;
      ShrinkKeeps(s, Step(cfg, s, a));
    } else {
      NoisyStepKeeps(cfg, s, a);
    }
  }

  lemma NoisyStepKeeps(cfg: Config, s: State, a: Action)
    requires Durable(s) && WillsOnce(s) && !Quiet(a)
    ensures WillsOnce(Step(cfg, s, a))
  {
    hide Connect, Disconnect, Subscribe, Unsubscribe, Queue, Deliver, QueueOffline, Cleanup, Close, Crash, SetWill,
         NextPacketID, FireTimer, CancelWills, OnceOnly, HeldOnce, Durable;
    match a {
      case DisconnectAction(c, graceful, now) => DisconnectKeeps(s, c, graceful, now);
      case SetWillAction(c, topic, payload, qos, retain, delay) => SetWillKeeps(s, c, topic, payload, qos, retain, delay);
      case FireAction(handle, now) =>
        FireKeeps(s.wills, s.nextWill, handle, now);
        TimersKeep(s, s.(wills := FireTimer(s.wills, handle, now)));
      case CancelAction(c) =>
        CancelDisarms(s.wills, c);
        DisarmKeeps(s.wills, CancelWills(s.wills, c), s.nextWill);
        TimersKeep(s, s.(wills := CancelWills(s.wills, c)));
      case CloseAction => CloseKeepsWills(s);
      case CrashAction => CrashKeeps(s);
      case _ =>
    }
  }

  lemma CancelDisarms(w: WillState, c: string)
    ensures var v := CancelWills(w, c);
            && v.published == w.published && v.nextHandle == w.nextHandle
            && v.armed.Keys <= w.armed.Keys && forall h <- v.armed :: v.armed[h] == w.armed[h]
  {
  }

  // ----- Runs -----

  lemma {:induction false} RunKeepsWills(cfg: Config, actions: seq<Action>)
    ensures WillsOnce(Run(cfg, actions))
  {
    if actions != [] {
      var front := actions[..|actions| - 1];
      RunKeepsWills(cfg, front);
      RunIsDurable(cfg, front);
      hide Step, WillsOnce, Durable;
      StepKeepsWills(cfg, Run(cfg, front), actions[|actions| - 1]);
    }
  }

  /** How often the publisher was called with one installed will. */
  function TimesPublished(ps: seq<Publication>, serial: nat): nat {
    if ps == [] then 0
    else TimesPublished(ps[..|ps| - 1], serial) + (if ps[|ps| - 1].will.serial == serial then 1 else 0)
  }

  lemma {:induction false} DistinctMeansAtMostOnce(ps: seq<Publication>, serial: nat)
    requires forall i, j :: 0 <= i < j < |ps| ==> ps[i].will.serial != ps[j].will.serial
    ensures TimesPublished(ps, serial) == if exists i :: 0 <= i < |ps| && ps[i].will.serial == serial then 1 else 0
  {
    if ps != [] {
      var front, p := ps[..|ps| - 1], ps[|ps| - 1];
      DistinctMeansAtMostOnce(front, serial);
      if exists i :: 0 <= i < |front| && front[i].will.serial == serial {
        var i :| 0 <= i < |front| && front[i].will.serial == serial;
        assert ps[i].will.serial == serial;
      } else if p.will.serial == serial {
        assert ps[|ps| - 1].will.serial == serial;
      }
    }
  }

  /** At most once: no run calls the publisher twice with the same installed will. */
  lemma AtMostOnce(cfg: Config, actions: seq<Action>, serial: nat)
    ensures TimesPublished(Run(cfg, actions).wills.published, serial) <= 1
  {
    RunKeepsWills(cfg, actions);
    DistinctMeansAtMostOnce(Run(cfg, actions).wills.published, serial);
  }

  /** The publisher's log only grows, and a graceful disconnect adds nothing to it. */
  lemma PublishedGrows(cfg: Config, s: State, a: Action)
    ensures s.wills.published <= Step(cfg, s, a).wills.published
    ensures a.DisconnectAction? && a.graceful ==> Step(cfg, s, a).wills.published == s.wills.published
  {
    hide Cleanup, QueueOffline, MessageOf, Handed;
    if a.CleanupAction? {
      CleanupQuiet(s, a.now);
    } else if a.QueueOfflineAction? {
      QueueOfflineQuiet(cfg, s, a.post);
    }
  }

  lemma {:induction false} PublishedGrowsInRuns(cfg: Config, s: State, actions: seq<Action>)
    ensures s.wills.published <= RunFrom(cfg, s, actions).wills.published
  {
    if actions != [] {
      var front := actions[..|actions| - 1];
      PublishedGrowsInRuns(cfg, s, front);
      PublishedGrows(cfg, RunFrom(cfg, s, front), actions[|actions| - 1]);
      hide Step;
    }
  }

  /**
   Exactly once: if a client with an immediate will disconnects ungracefully, the will has reached the publisher once
   and stays at once in every continuation.
   */
  lemma ImmediateWillExactlyOnce(cfg: Config, actions: seq<Action>, c: string, now: int, more: seq<Action>)
    requires c in Run(cfg, actions).active && Run(cfg, actions).active[c].will.Some?
    requires Run(cfg, actions).active[c].will.value.delayInterval <= 0
    ensures var serial := Run(cfg, actions).active[c].will.value.serial;
            && TimesPublished(Run(cfg, actions).wills.published, serial) == 0
            && TimesPublished(Run(cfg, actions + [DisconnectAction(c, false, now)] + more).wills.published, serial) == 1
  {
    var s := Run(cfg, actions);
    var serial := s.active[c].will.value.serial;
    var drop := DisconnectAction(c, false, now);
    RunKeepsWills(cfg, actions);
    HeldIsIdle(s, c, serial);
    DistinctMeansAtMostOnce(s.wills.published, serial);
    var t := Disconnect(s, c, false, now);
    RunAppend(cfg, INIT, actions, drop);
    assert Run(cfg, actions + [drop]) == t;
    var k := |s.wills.published|;
    assert t.wills.published[k].will.serial == serial;
    RunConcat(cfg, INIT, actions + [drop], more);
    PublishedGrowsInRuns(cfg, t, more);
    RunKeepsWills(cfg, actions + [drop] + more);
    var u := Run(cfg, actions + [drop] + more);
    assert u.wills.published[k].will.serial == serial;
    DistinctMeansAtMostOnce(u.wills.published, serial);
  }
}
