/** What survives the loss of the process: the durable record of every persistent session. */
module DurableMirror {
  import opened Common
  import opened Sessions

  /** A stored record that restores subscriptions and queue. */
  predicate Mirrors(stored: Session, live: Session) {
    stored.subscriptions == live.subscriptions && stored.queue == live.queue
  }

  /**
   Sessions sit under their own client ID, records are never of clean sessions, a clean session queues nothing, and
   every active persistent session has a record with the same subscriptions and queue.
   */
  ghost predicate Durable(s: State) {
    && (forall c <- s.active :: s.active[c].clientID == c)
    && (forall c <- s.store :: s.store[c].clientID == c && !s.store[c].cleanSession)
    && (forall c <- s.active :: s.active[c].cleanSession ==> s.active[c].queue == [])
    && (forall c <- s.active :: !s.active[c].cleanSession ==> c in s.store && Mirrors(s.store[c], s.active[c]))
  }

  lemma CleanupKeeps(s: State, now: int)
    requires Durable(s)
    ensures Durable(Cleanup(s, now))
  {
    forall c | c in s.active {
      FreshOnesShrink(s.active[c].queue, now);
    }
  }

  lemma KeepKeeps(s: State, session: Session)
    requires Durable(s)
    requires session.cleanSession ==> session.queue == []
    ensures Durable(Keep(s, session))
  {
  }

  lemma ForgetKeeps(s: State, c: string)
    requires Durable(s)
    ensures Durable(Forget(s, c))
  {
  }

  /** Replacing a session in memory only is harmless while its record still mirrors it. */
  lemma PutKeeps(s: State, session: Session)
    requires Durable(s)
    requires if session.cleanSession then session.queue == []
             else session.clientID in s.store && Mirrors(s.store[session.clientID], session)
    ensures Durable(s.(active := s.active[session.clientID := session]))
  {
  }

  lemma ConnectKeeps(cfg: Config, s: State, c: string, clean: bool, expiryInterval: int, now: int)
    requires Durable(s)
    ensures Durable(Connect(cfg, s, c, clean, expiryInterval, now))
  {
    hide Keep, NewSession;
    if c in s.active {
      PutKeeps(s, Reconnect(s.active[c], clean, now));
    } else if !clean && c in s.store {
      PutKeeps(s, Resume(s.store[c], expiryInterval, now));
    } else {
      NewSessionIsEmpty(cfg, c, clean, expiryInterval, now);
      KeepKeeps(s, NewSession(cfg, c, clean, expiryInterval, now));
    }
  }

  lemma NewSessionIsEmpty(cfg: Config, c: string, clean: bool, expiryInterval: int, now: int)
    ensures NewSession(cfg, c, clean, expiryInterval, now).queue == []
  {
  }

  lemma QueueOfflineKeeps(cfg: Config, s: State, p: Post)
    requires Durable(s)
    ensures Durable(QueueOffline(cfg, s, p))
  {
  }

  lemma CloseKeeps(s: State)
    requires Durable(s)
    ensures Durable(Close(s))
  {
  }

  /** Calls that change one session and put it back. */
  lemma SessionCallKeeps(cfg: Config, s: State, a: Action)
    requires Durable(s)
    requires a.DisconnectAction? || a.SubscribeAction? || a.UnsubscribeAction? || a.QueueAction? || a.DeliverAction?
    ensures Durable(Step(cfg, s, a))
  {
    hide Keep, Forget, Handed, MessageOf, WillsAfterDisconnect;
    if a.clientID in s.active {
      var session := s.active[a.clientID];
      match a {
        case DisconnectAction(c, graceful, now) =>
          var t := s.(wills := WillsAfterDisconnect(s.wills, session, c, graceful, now));
          ForgetKeeps(t, c);
          KeepKeeps(t, session.(connected := false, lastActivity := now, will := None));
        case SubscribeAction(c, topic, qos, now) =>
          KeepKeeps(s, session.(subscriptions := session.subscriptions[topic := qos], lastActivity := now));
        case UnsubscribeAction(c, topic, now) =>
          KeepKeeps(s, session.(subscriptions := session.subscriptions - {topic}, lastActivity := now));
        case QueueAction(c, topic, payload, qos, retain, now) =>
          if Queues(session) {
            KeepKeeps(s, Enqueue(cfg, session, MessageOf(cfg, topic, payload, qos, retain, now)));
          }
        case DeliverAction(c, registered, failAt, now, lags) =>
          KeepKeeps(s, session.(queue := []));
      }
    }
  }

  lemma SameSessionsKeep(s: State, t: State)
    requires Durable(s) && t.active == s.active && t.store == s.store
    ensures Durable(t)
  {
  }

  /** Calls that change a session in memory only, and nothing that the record mirrors. */
  lemma MemoryCallKeeps(cfg: Config, s: State, a: Action)
    requires Durable(s) && (a.SetWillAction? || a.NextPacketIDAction?)
    ensures Durable(Step(cfg, s, a))
  {
    if a.clientID in s.active {
      assert s.active[a.clientID].clientID == a.clientID;
      PutKeeps(s, Step(cfg, s, a).active[a.clientID]);
    }
  }

  lemma CrashKeepsRecords(s: State)
    requires Durable(s)
    ensures Durable(Crash(s))
  {
  }

  lemma StepKeeps(cfg: Config, s: State, a: Action)
    requires Durable(s)
    ensures Durable(Step(cfg, s, a))
  {
    hide Durable, Connect, Disconnect, Subscribe, Unsubscribe, Queue, Deliver, QueueOffline, Cleanup, Close, Crash,
      SetWill, NextPacketID, MessageOf, FireTimer, CancelWills;
    match a {
      case ConnectAction(c, clean, expiryInterval, now) => ConnectKeeps(cfg, s, c, clean, expiryInterval, now);
      case QueueOfflineAction(post) => QueueOfflineKeeps(cfg, s, post);
      case CleanupAction(now) => CleanupKeeps(s, now);
      case CloseAction => CloseKeeps(s);
      case SetWillAction(_, _, _, _, _, _) => MemoryCallKeeps(cfg, s, a);
      case NextPacketIDAction(_) => MemoryCallKeeps(cfg, s, a);
      case FireAction(_, _) => SameSessionsKeep(s, Step(cfg, s, a));
      case CancelAction(_) => SameSessionsKeep(s, Step(cfg, s, a));
      case CrashAction => CrashKeepsRecords(s);
      case _ => SessionCallKeeps(cfg, s, a);
    }
  }

  /** The invariant holds in every reachable state. */
  lemma {:induction false} RunIsDurable(cfg: Config, actions: seq<Action>)
    ensures Durable(Run(cfg, actions))
  {
    if actions != [] {
      var front := actions[..|actions| - 1];
      RunIsDurable(cfg, front);
      StepKeeps(cfg, Run(cfg, front), actions[|actions| - 1]);
    }
  }

  predicate ConnectOf(a: Action, c: string) {
    a.ConnectAction? && a.clientID == c
  }

  /** The process is lost, anything but a connect of c happens, and c connects without the clean flag. */
  function Recovered(cfg: Config, s: State, c: string, others: seq<Action>, expiryInterval: int, now: int): State {
    RunFrom(cfg, s, [CrashAction] + others + [ConnectAction(c, false, expiryInterval, now)])
  }

  /**
   Crash recovery, exactly.  After any run, losing the process and resuming a session brings back its subscriptions and
   its queue exactly when it is persistent, or the record it left behind happens to mirror it.
   */
  lemma CrashRecoveryIff(cfg: Config, actions: seq<Action>, c: string, others: seq<Action>, expiryInterval: int, now: int)
    requires c in Run(cfg, actions).active && forall a <- others :: !ConnectOf(a, c)
    ensures var s := Run(cfg, actions); var was := s.active[c]; var t := Recovered(cfg, s, c, others, expiryInterval, now);
            && c in t.active && t.active[c].connected && !t.active[c].cleanSession
            && (Mirrors(t.active[c], was)
                <==> !was.cleanSession || (if c in s.store then Mirrors(s.store[c], was) else was.subscriptions == map[]))
  {
    var s := Run(cfg, actions);
    RunIsDurable(cfg, actions);
    var connect := ConnectAction(c, false, expiryInterval, now);
    assert RunFrom(cfg, s, [CrashAction]) == Crash(s) by { RunAppend(cfg, s, [], CrashAction); assert [] + [CrashAction] == [CrashAction]; }
    hide RunFrom;
    RunConcat(cfg, s, [CrashAction], others);
    OthersLeaveRecord(cfg, Crash(s), c, others);
    RunAppend(cfg, s, [CrashAction] + others, connect);
    var r := RunFrom(cfg, Crash(s), others);
    assert Recovered(cfg, s, c, others, expiryInterval, now) == Connect(cfg, r, c, false, expiryInterval, now);
  }

  /** In particular every persistent session comes back, whatever happens before it resumes. */
  lemma CrashRecovery(cfg: Config, actions: seq<Action>, c: string, others: seq<Action>, expiryInterval: int, now: int)
    requires c in Run(cfg, actions).active && !Run(cfg, actions).active[c].cleanSession
    requires forall a <- others :: !ConnectOf(a, c)
    ensures var t := Recovered(cfg, Run(cfg, actions), c, others, expiryInterval, now);
            c in t.active && Mirrors(t.active[c], Run(cfg, actions).active[c])
  {
    CrashRecoveryIff(cfg, actions, c, others, expiryInterval, now);
  }

  ghost predicate RecordAlike(s: State, t: State, c: string) {
    c !in t.active && (c in t.store <==> c in s.store) && (c in s.store ==> t.store[c] == s.store[c])
  }

  lemma KeepLeavesRecord(s: State, session: Session, c: string)
    requires c !in s.active && session.clientID != c
    ensures RecordAlike(s, Keep(s, session), c)
  {
  }

  /** Calls that change one session and put it back. */
  lemma SessionCallLeavesRecord(cfg: Config, s: State, a: Action, c: string)
    requires c !in s.active && forall d <- s.active :: s.active[d].clientID == d
    requires a.DisconnectAction? || a.SubscribeAction? || a.UnsubscribeAction? || a.QueueAction? || a.DeliverAction?
    ensures RecordAlike(s, Step(cfg, s, a), c)
  {
    hide Keep, Handed, MessageOf, WillsAfterDisconnect;
    if a.clientID in s.active {
      var session := s.active[a.clientID];
      match a {
        case DisconnectAction(d, graceful, now) =>
          var t := s.(wills := WillsAfterDisconnect(s.wills, session, d, graceful, now));
          KeepLeavesRecord(t, session.(connected := false, lastActivity := now, will := None), c);
        case SubscribeAction(_, topic, qos, now) =>
          KeepLeavesRecord(s, session.(subscriptions := session.subscriptions[topic := qos], lastActivity := now), c);
        case UnsubscribeAction(_, topic, now) =>
          KeepLeavesRecord(s, session.(subscriptions := session.subscriptions - {topic}, lastActivity := now), c);
        case QueueAction(_, topic, payload, qos, retain, now) =>
          KeepLeavesRecord(s, Enqueue(cfg, session, MessageOf(cfg, topic, payload, qos, retain, now)), c);
        case DeliverAction(_, registered, failAt, now, lags) =>
          KeepLeavesRecord(s, session.(queue := []), c);
      }
    }
  }

  lemma OtherCallLeavesRecord(cfg: Config, s: State, a: Action, c: string)
    requires c !in s.active && !ConnectOf(a, c)
    requires !(a.DisconnectAction? || a.SubscribeAction? || a.UnsubscribeAction? || a.QueueAction? || a.DeliverAction?)
    ensures RecordAlike(s, Step(cfg, s, a), c)
  {
    hide MessageOf, HasMatch, FreshOnes, Expired, Enqueue, CancelWills, CloseWills, FireTimer;
  }

  /** A client that is not active keeps its record, or the lack of one, until it connects. */
  lemma RecordStays(cfg: Config, s: State, a: Action, c: string)
    requires !ConnectOf(a, c) && c !in s.active && forall d <- s.active :: s.active[d].clientID == d
    ensures var t := Step(cfg, s, a);
            && c !in t.active && (c in t.store <==> c in s.store) && (c in s.store ==> t.store[c] == s.store[c])
  {
    hide Step;
    if a.DisconnectAction? || a.SubscribeAction? || a.UnsubscribeAction? || a.QueueAction? || a.DeliverAction? {
      SessionCallLeavesRecord(cfg, s, a, c);
    } else {
      OtherCallLeavesRecord(cfg, s, a, c);
    }
  }

  lemma {:induction false} OthersLeaveRecord(cfg: Config, s: State, c: string, others: seq<Action>)
    requires Durable(s) && c !in s.active && forall a <- others :: !ConnectOf(a, c)
    ensures var t := RunFrom(cfg, s, others);
            && Durable(t)
            && c !in t.active && (c in t.store <==> c in s.store) && (c in s.store ==> t.store[c] == s.store[c])
  {
    if others != [] {
      hide Step;
      var k := |others| - 1;
      OthersLeaveRecord(cfg, s, c, others[..k]);
      StepKeeps(cfg, RunFrom(cfg, s, others[..k]), others[k]);
      RecordStays(cfg, RunFrom(cfg, s, others[..k]), others[k], c);
    }
  }

  /**
   A session switched to clean while active keeps its old record until it disconnects: a crash in between brings the
   discarded subscription back.
   */
  lemma CleanSwitchIsNotDurable(cfg: Config, c: string, topic: string, qos: nat, expiry: int, now: int)
    ensures var s := Run(cfg, [ConnectAction(c, false, expiry, now), SubscribeAction(c, topic, qos, now),
                               ConnectAction(c, true, expiry, now)]);
            var t := RunFrom(cfg, s, [CrashAction, ConnectAction(c, false, expiry, now)]);
            && c in s.active && s.active[c].subscriptions == map[]
            && c in t.active && t.active[c].subscriptions == map[topic := qos]
  {
    var a1, a2, a3 := ConnectAction(c, false, expiry, now), SubscribeAction(c, topic, qos, now), ConnectAction(c, true, expiry, now);
    SwitchedToClean(cfg, c, topic, qos, expiry, now);
    ThreeSteps(cfg, a1, a2, a3);
    var s := Run(cfg, [a1, a2, a3]);
    TwoSteps(cfg, s, CrashAction, a1);
  }

  lemma SwitchedToClean(cfg: Config, c: string, topic: string, qos: nat, expiry: int, now: int)
    ensures var s := Connect(cfg, Subscribe(Connect(cfg, INIT, c, false, expiry, now), c, topic, qos, now), c, true, expiry, now);
            && c in s.active && s.active[c].subscriptions == map[]
            && c in s.store && s.store[c].subscriptions == map[topic := qos]
  {
  }

  lemma ThreeSteps(cfg: Config, a: Action, b: Action, c: Action)
    ensures Run(cfg, [a, b, c]) == Step(cfg, Step(cfg, Step(cfg, INIT, a), b), c)
  {
    assert RunFrom(cfg, INIT, []) == INIT;
    assert [] + [a] == [a] && [a] + [b] == [a, b] && [a, b] + [c] == [a, b, c];
    hide Step, RunFrom;
    RunAppend(cfg, INIT, [], a);
    RunAppend(cfg, INIT, [a], b);
    RunAppend(cfg, INIT, [a, b], c);
  }

  lemma TwoSteps(cfg: Config, s: State, a: Action, b: Action)
    ensures RunFrom(cfg, s, [a, b]) == Step(cfg, Step(cfg, s, a), b)
  {
    assert RunFrom(cfg, s, []) == s;
    assert [] + [a] == [a] && [a] + [b] == [a, b];
    hide Step, RunFrom;
    RunAppend(cfg, s, [], a);
    RunAppend(cfg, s, [a], b);
  }
}
