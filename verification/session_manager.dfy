/**
 The managers of pkg/persistent as objects: their loops and field updates, proved against the functions of `Sessions`.
 A session is a record in the `active` map that the methods replace.
 */
module SessionManagers {
  import opened Common
  import opened Sessions

  // ----- WillMessageManager -----

  class WillMessageManager {
    var timers: map<TimerID, Timer>
    var armed: map<nat, Timer>
    var nextHandle: nat
    var published: seq<Publication>

    ghost function View(): WillState
      reads this
    {
      WillState(timers, armed, nextHandle, published)
    }

    constructor ()
      ensures View() == NO_WILLS
    {
      timers, armed, nextHandle, published := map[], map[], 0, [];
    }

    method PublishWillMessage(will: Will, clientID: string, now: int)
      modifies this
      ensures View() == PublishWill(old(View()), will, clientID, now)
    {
      if will.delayInterval > 0 {
        ScheduleDelayedWillMessage(will, clientID, now);
      } else {
        PublishImmediately(will, clientID);
      }
    }

    method PublishImmediately(will: Will, clientID: string)
      modifies this`published
      ensures View() == PublishNow(old(View()), will, clientID)
    {
      published := published + [Publication(clientID, will)];
    }

    method ScheduleDelayedWillMessage(will: Will, clientID: string, now: int)
      modifies this
      ensures View() == Schedule(old(View()), will, clientID, now)
    {
      var timer := Timer(TimerID(clientID, now), nextHandle, will, clientID, now + will.delayInterval);
      armed := armed[nextHandle := timer];
      nextHandle := nextHandle + 1;
      timers := timers[timer.id := timer];
    }

    /** The body of a runtime timer, if it is still armed and due. */
    method TimerGoesOff(handle: nat, now: int)
      modifies this
      ensures View() == FireTimer(old(View()), handle, now)
    {
      if handle in armed && now >= armed[handle].due {
        var timer := armed[handle];
        armed := armed - {handle};
        timers := timers - {timer.id};
        PublishImmediately(timer.will, timer.clientID);
      }
    }

    method CancelWillMessage(clientID: string)
      modifies this
      ensures View() == CancelWills(old(View()), clientID)
    {
      ghost var start := View();
      CancelBounds(start, clientID);
      var todo := timers.Keys;
      ghost var seen: set<TimerID> := {};
      hide Cancelled, CancelWills;
      while todo != {}
        invariant seen !! todo && seen + todo == start.timers.Keys
        invariant View() == Cancelled(start, clientID, seen)
        decreases todo
      {
        var id :| id in todo;
        CancelOne(start, clientID, seen, id);
        todo, seen := todo - {id}, seen + {id};
        if timers[id].clientID == clientID {
          armed := armed - {timers[id].handle};
          timers := timers - {id};
        }
      }
      assert seen == start.timers.Keys;
    }

    method Close()
      modifies this
      ensures View() == CloseWills(old(View()))
    {
      ghost var start := View();
      StopBounds(start);
      var todo := timers.Keys;
      ghost var seen: set<TimerID> := {};
      hide Stopped, CloseWills;
      while todo != {}
        invariant seen !! todo && seen + todo == start.timers.Keys
        invariant View() == Stopped(start, seen)
        decreases todo
      {
        var id :| id in todo;
        StopOne(start, seen, id);
        todo, seen := todo - {id}, seen + {id};
        armed := armed - {timers[id].handle};
        timers := timers - {id};
      }
      assert seen == start.timers.Keys;
    }
  }

  /** `CancelWillMessage` after it has visited the timers in `seen`. */
  ghost function Cancelled(w: WillState, clientID: string, seen: set<TimerID>): WillState {
    var gone := set id <- w.timers | id in seen && w.timers[id].clientID == clientID;
    var stopped := set id <- gone :: w.timers[id].handle;
    w.(timers := w.timers - gone, armed := w.armed - stopped)
  }

  lemma CancelOne(w: WillState, clientID: string, seen: set<TimerID>, id: TimerID)
    requires id in w.timers && id !in seen
    ensures var v := Cancelled(w, clientID, seen);
            && id in v.timers && v.timers[id] == w.timers[id]
            && Cancelled(w, clientID, seen + {id})
               == if w.timers[id].clientID == clientID
                  then v.(timers := v.timers - {id}, armed := v.armed - {w.timers[id].handle}) else v
  {
    var gone := set i <- w.timers | i in seen && w.timers[i].clientID == clientID;
    var more := set i <- w.timers | i in seen + {id} && w.timers[i].clientID == clientID;
    if w.timers[id].clientID == clientID {
      assert more == gone + {id};
      assert (set i <- more :: w.timers[i].handle) == (set i <- gone :: w.timers[i].handle) + {w.timers[id].handle};
    } else {
      assert more == gone;
    }
  }

  lemma CancelBounds(w: WillState, clientID: string)
    ensures Cancelled(w, clientID, {}) == w
    ensures Cancelled(w, clientID, w.timers.Keys) == CancelWills(w, clientID)
  {
    assert Cancelled(w, clientID, {}).timers == w.timers && Cancelled(w, clientID, {}).armed == w.armed;
    assert (set id <- w.timers | id in w.timers.Keys && w.timers[id].clientID == clientID)
           == (set id <- w.timers | w.timers[id].clientID == clientID);
  }

  /** `Close` after it has visited the timers in `seen`. */
  ghost function Stopped(w: WillState, seen: set<TimerID>): WillState {
    w.(timers := w.timers - seen, armed := w.armed - (set id <- w.timers | id in seen :: w.timers[id].handle))
  }

  lemma StopOne(w: WillState, seen: set<TimerID>, id: TimerID)
    requires id in w.timers && id !in seen
    ensures var v := Stopped(w, seen);
            && id in v.timers && v.timers[id] == w.timers[id]
            && Stopped(w, seen + {id}) == v.(timers := v.timers - {id}, armed := v.armed - {w.timers[id].handle})
  {
    assert (set i <- w.timers | i in seen + {id} :: w.timers[i].handle)
           == (set i <- w.timers | i in seen :: w.timers[i].handle) + {w.timers[id].handle};
  }

  lemma StopBounds(w: WillState)
    ensures Stopped(w, {}) == w
    ensures Stopped(w, w.timers.Keys) == CloseWills(w)
  {
    assert (set id <- w.timers | id in w.timers.Keys :: w.timers[id].handle) == (set id <- w.timers :: w.timers[id].handle);
    assert w.timers - w.timers.Keys == map[];
  }

  // ----- Partial results of the loops over all sessions -----

  /** The cleanup scan after it has visited the sessions in `seen`. */
  ghost function Scanned(s: State, seen: set<string>, now: int): State {
    var saved := set c <- s.active | c in seen && SavedByCleanup(s.active[c], now);
    s.(active := map c | c in s.active ::
                   if c in seen && !Expired(s.active[c], now) then Cleaned(s.active[c], now) else s.active[c],
       store := map c | c in s.store.Keys + saved :: if c in saved then Cleaned(s.active[c], now) else s.store[c])
  }

  ghost function Dropped(s: State, gone: set<string>): State {
    s.(active := s.active - gone, store := s.store - gone)
  }

  lemma DropOne(s: State, gone: set<string>, c: string)
    requires c in s.active && c !in gone
    ensures var t := Dropped(s, gone);
            c in t.active && t.active[c] == s.active[c] && Dropped(s, gone + {c}) == Forget(t, c)
  {
    assert s.active - (gone + {c}) == s.active - gone - {c};
    assert s.store - (gone + {c}) == s.store - gone - {c};
  }

  lemma StillThere(s: State, gone: set<string>, c: string)
    requires c !in gone
    ensures var t := Dropped(s, gone); (c in t.active <==> c in s.active) && (c in s.active ==> t.active[c] == s.active[c])
  {
  }

  lemma DropNone(s: State)
    ensures Dropped(s, {}) == s
  {
    assert s.active - {} == s.active && s.store - {} == s.store;
  }

  function ExpiredOnes(s: State, now: int): set<string> {
    set c <- s.active | Expired(s.active[c], now)
  }

  /** The scan leaves expired sessions as they are, so the second test finds them expired again. */
  lemma StillExpired(s: State, now: int)
    ensures ExpiredOnes(s, now) * ExpiredOnes(Scanned(s, s.active.Keys, now), now) == ExpiredOnes(s, now)
  {
    hide FreshOnes, Cleaned;
  }

  lemma ScanThenDropIsCleanup(s: State, now: int)
    ensures Dropped(Scanned(s, s.active.Keys, now), ExpiredOnes(s, now)) == Cleanup(s, now)
  {
    var gone := ExpiredOnes(s, now);
    var a, b := Dropped(Scanned(s, s.active.Keys, now), gone), Cleanup(s, now);
    assert (set c <- s.active | c in s.active.Keys && SavedByCleanup(s.active[c], now))
           == (set c <- s.active | SavedByCleanup(s.active[c], now));
    assert a.active == b.active;
    assert a.store == b.store;
  }

  lemma ScanOneActive(s: State, seen: set<string>, c: string, now: int)
    requires c in s.active && c !in seen
    ensures var t := Scanned(s, seen, now);
            && c in t.active && t.active[c] == s.active[c]
            && Scanned(s, seen + {c}, now).active
               == if Expired(s.active[c], now) then t.active else t.active[c := Cleaned(s.active[c], now)]
  {
    hide FreshOnes;
  }

  lemma ScanOneStore(s: State, seen: set<string>, c: string, now: int)
    requires c in s.active && c !in seen
    ensures var t := Scanned(s, seen, now);
            Scanned(s, seen + {c}, now).store
            == if SavedByCleanup(s.active[c], now) then t.store[c := Cleaned(s.active[c], now)] else t.store
  {
    hide FreshOnes, Expired, Cleaned, SavedByCleanup;
    var saved := set d <- s.active | d in seen && SavedByCleanup(s.active[d], now);
    var more := set d <- s.active | d in seen + {c} && SavedByCleanup(s.active[d], now);
    assert more == if SavedByCleanup(s.active[c], now) then saved + {c} else saved;
  }

  /** Visiting one more session. */
  lemma ScanOne(s: State, seen: set<string>, c: string, now: int)
    requires c in s.active && c !in seen && s.active[c].clientID == c
    ensures var t := Scanned(s, seen, now); var session := s.active[c];
            && c in t.active && t.active[c] == session
            && Scanned(s, seen + {c}, now) ==
               if Expired(session, now) then t
               else if SavedByCleanup(session, now) then Keep(t, Cleaned(session, now))
               else t.(active := t.active[c := Cleaned(session, now)])
  {
    ScanOneActive(s, seen, c, now);
    ScanOneStore(s, seen, c, now);
    ScannedRest(s, seen, now);
    ScannedRest(s, seen + {c}, now);
    hide Scanned, FreshOnes;
  }

  lemma ScanNone(s: State, now: int)
    ensures Scanned(s, {}, now) == s
  {
    assert Scanned(s, {}, now).active == s.active && Scanned(s, {}, now).store == s.store;
  }

  lemma ScannedRest(s: State, seen: set<string>, now: int)
    ensures var t := Scanned(s, seen, now); t.wills == s.wills && t.nextWill == s.nextWill && t.closed == s.closed
  {
  }

  /** The fan-out of one message after it has visited the sessions in `seen`. */
  ghost function FannedOut(cfg: Config, s: State, p: Post, seen: set<string>): State {
    var to := Recipients(cfg, s, p.topic) * seen;
    s.(active := map c | c in s.active ::
                   if c in to then Enqueue(cfg, s.active[c], MessageFor(cfg, p, c)) else s.active[c],
       store := map c | c in s.store.Keys + to ::
                  if c in to then Enqueue(cfg, s.active[c], MessageFor(cfg, p, c)) else s.store[c])
  }

  predicate GetsMessage(cfg: Config, s: State, p: Post, c: string)
    requires c in s.active
  {
    Queues(s.active[c]) && HasMatch(cfg, s.active[c], p.topic)
  }

  lemma OneMoreRecipient(cfg: Config, s: State, p: Post, seen: set<string>, c: string)
    requires c in s.active && c !in seen
    ensures Recipients(cfg, s, p.topic) * (seen + {c})
            == if GetsMessage(cfg, s, p, c) then Recipients(cfg, s, p.topic) * seen + {c} else Recipients(cfg, s, p.topic) * seen
    ensures c !in Recipients(cfg, s, p.topic) * seen
  {
    hide HasMatch, Queues;
  }

  lemma FanOutOneActive(cfg: Config, s: State, p: Post, seen: set<string>, c: string)
    requires c in s.active && c !in seen
    ensures var t, u := FannedOut(cfg, s, p, seen), FannedOut(cfg, s, p, seen + {c});
            && c in t.active && t.active[c] == s.active[c]
            && u.active == if GetsMessage(cfg, s, p, c) then t.active[c := Enqueue(cfg, s.active[c], MessageFor(cfg, p, c))]
                           else t.active
  {
    hide *;
    OneMoreRecipient(cfg, s, p, seen, c);
    FannedActiveIs(cfg, s, p, seen);
    FannedActiveIs(cfg, s, p, seen + {c});
    MessagedAt(cfg, s, p, c);
    OverlayElsewhere(s.active, Messaged(cfg, s, p), Recipients(cfg, s, p.topic) * seen, c);
    if GetsMessage(cfg, s, p, c) {
      OverlayOne(s.active, Messaged(cfg, s, p), Recipients(cfg, s, p.topic) * seen, c);
    }
  }

  lemma FanOutOneStore(cfg: Config, s: State, p: Post, seen: set<string>, c: string)
    requires c in s.active && c !in seen
    ensures var t, u := FannedOut(cfg, s, p, seen), FannedOut(cfg, s, p, seen + {c});
            u.store == if GetsMessage(cfg, s, p, c) then t.store[c := Enqueue(cfg, s.active[c], MessageFor(cfg, p, c))]
                       else t.store
  {
    hide *;
    OneMoreRecipient(cfg, s, p, seen, c);
    FannedStoreIs(cfg, s, p, seen);
    FannedStoreIs(cfg, s, p, seen + {c});
    MessagedAt(cfg, s, p, c);
    if GetsMessage(cfg, s, p, c) {
      OverlayOne(s.store, Messaged(cfg, s, p), Recipients(cfg, s, p.topic) * seen, c);
    }
  }

  /** Every session with the message queued. */
  ghost function Messaged(cfg: Config, s: State, p: Post): map<string, Session> {
    map c | c in s.active :: Enqueue(cfg, s.active[c], MessageFor(cfg, p, c))
  }

  lemma MessagedAt(cfg: Config, s: State, p: Post, c: string)
    requires c in s.active
    ensures c in Messaged(cfg, s, p) && Messaged(cfg, s, p)[c] == Enqueue(cfg, s.active[c], MessageFor(cfg, p, c))
  {
  }

  ghost function Overlay(base: map<string, Session>, over: map<string, Session>, to: set<string>): map<string, Session>
    requires to <= over.Keys
  {
    map c | c in base.Keys + to :: if c in to then over[c] else base[c]
  }

  lemma FannedActiveIs(cfg: Config, s: State, p: Post, seen: set<string>)
    ensures Recipients(cfg, s, p.topic) * seen <= Messaged(cfg, s, p).Keys
    ensures FannedOut(cfg, s, p, seen).active == Overlay(s.active, Messaged(cfg, s, p), Recipients(cfg, s, p.topic) * seen)
  {
    hide HasMatch, Enqueue, MessageFor;
  }

  lemma OverlayElsewhere(base: map<string, Session>, over: map<string, Session>, to: set<string>, c: string)
    requires to <= over.Keys && c in base && c !in to
    ensures c in Overlay(base, over, to) && Overlay(base, over, to)[c] == base[c]
  {
  }

  lemma FannedStoreIs(cfg: Config, s: State, p: Post, seen: set<string>)
    ensures Recipients(cfg, s, p.topic) * seen <= Messaged(cfg, s, p).Keys
    ensures FannedOut(cfg, s, p, seen).store == Overlay(s.store, Messaged(cfg, s, p), Recipients(cfg, s, p.topic) * seen)
  {
    hide HasMatch, Enqueue, MessageFor;
  }

  lemma OverlayOne(base: map<string, Session>, over: map<string, Session>, to: set<string>, c: string)
    requires to + {c} <= over.Keys
    ensures Overlay(base, over, to + {c}) == Overlay(base, over, to)[c := over[c]]
  {
  }

  lemma FanOutOne(cfg: Config, s: State, p: Post, seen: set<string>, c: string)
    requires c in s.active && c !in seen && s.active[c].clientID == c
    ensures var t := FannedOut(cfg, s, p, seen);
            && c in t.active && t.active[c] == s.active[c]
            && FannedOut(cfg, s, p, seen + {c})
               == if Queues(s.active[c]) && HasMatch(cfg, s.active[c], p.topic) then Queue(cfg, t, c, MessageFor(cfg, p, c)) else t
  {
    FanOutOneActive(cfg, s, p, seen, c);
    FanOutOneStore(cfg, s, p, seen, c);
    FannedOutRest(cfg, s, p, seen);
    FannedOutRest(cfg, s, p, seen + {c});
    EnqueueKeepsIdentity(cfg, s.active[c], MessageFor(cfg, p, c));
    hide FannedOut, HasMatch, Enqueue, MessageFor;
  }

  lemma FannedOutRest(cfg: Config, s: State, p: Post, seen: set<string>)
    ensures var t := FannedOut(cfg, s, p, seen); t.wills == s.wills && t.nextWill == s.nextWill && t.closed == s.closed
  {
  }

  lemma EnqueueKeepsIdentity(cfg: Config, session: Session, m: QueuedMessage)
    ensures Enqueue(cfg, session, m).clientID == session.clientID
    ensures Enqueue(cfg, session, m).cleanSession == session.cleanSession
  {
  }

  lemma FanOutAll(cfg: Config, s: State, p: Post)
    ensures FannedOut(cfg, s, p, s.active.Keys) == QueueOffline(cfg, s, p)
    ensures FannedOut(cfg, s, p, {}) == s
  {
    hide HasMatch, MessageFor;
    assert Recipients(cfg, s, p.topic) * s.active.Keys == Recipients(cfg, s, p.topic);
    assert Recipients(cfg, s, p.topic) * {} == {};
    var t := FannedOut(cfg, s, p, {});
    assert t.active == s.active && t.store == s.store;
  }

  lemma LiveOnesStep(q: seq<QueuedMessage>, i: nat, now: int, lags: seq<nat>)
    requires i < |q|
    ensures LiveOnes(q[..i + 1], now, lags)
            == LiveOnes(q[..i], now, lags) + if Live(q[i], Reading(now, lags, i)) then [q[i]] else []
  {
    assert q[..i + 1][..i] == q[..i];
  }

  // ----- SessionManager -----

  class SessionManager {
    const config: Config
    const willManager: WillMessageManager
    var active: map<string, Session>
    var store: map<string, Session>
    var nextWill: nat
    var closed: bool

    ghost predicate Valid()
      reads this
    {
      && (forall c <- active :: active[c].clientID == c)
      && (forall c <- store :: store[c].clientID == c)
    }

    ghost function View(): State
      reads this, willManager
    {
      State(active, store, willManager.View(), nextWill, closed)
    }

    constructor (config: Config)
      ensures Valid() && View() == INIT && this.config == config && fresh(willManager)
    {
      this.config := config;
      willManager := new WillMessageManager();
      active, store, nextWill, closed := map[], map[], 0, false;
    }

    method SaveSession(session: Session)
      modifies this`store
      ensures store == old(store)[session.clientID := session]
    {
      store := store[session.clientID := session];
    }

    method LoadSession(clientID: string) returns (r: Option<Session>)
      ensures r == if clientID in store then Some(store[clientID]) else None
    {
      r := if clientID in store then Some(store[clientID]) else None;
    }

    method DeleteSession(clientID: string)
      modifies this`store
      ensures store == old(store) - {clientID}
    {
      store := store - {clientID};
    }

    method CreateOrResumeSession(clientID: string, clean: bool, expiryInterval: int, now: int) returns (session: Session)
      requires Valid()
      modifies this
      ensures Valid()
      ensures View() == Connect(config, old(View()), clientID, clean, expiryInterval, now)
      ensures clientID in active && active[clientID] == session && session.connected
    {
      if clientID in active {
        session := active[clientID].(connected := true, lastActivity := now);
        if clean {
          session := session.(cleanSession := true, subscriptions := map[], queue := [], will := None);
        }
        active := active[clientID := session];
        return;
      }
      if !clean {
        var stored := LoadSession(clientID);
        if stored.Some? {
          session := stored.value.(connected := true, lastActivity := now);
          if expiryInterval > 0 {
            session := session.(expiryInterval := expiryInterval);
          }
          active := active[clientID := session];
          return;
        }
      }
      session := Session(clientID, clean, true, now, now, expiryInterval, map[], 1, [], None);
      if session.expiryInterval == 0 {
        session := session.(expiryInterval := config.defaultSessionExpiry);
      }
      if expiryInterval > 0 {
        session := session.(expiryInterval := expiryInterval);
      }
      active := active[clientID := session];
      if !clean {
        SaveSession(session);
      }
    }

    method DisconnectSession(clientID: string, graceful: bool, now: int) returns (ok: bool)
      requires Valid()
      modifies this, willManager
      ensures Valid()
      ensures View() == Disconnect(old(View()), clientID, graceful, now)
      ensures ok <==> clientID in old(active)
    {
      if clientID !in active {
        return false;
      }
      var session := active[clientID].(connected := false, lastActivity := now);
      if !graceful && session.will.Some? {
        willManager.PublishWillMessage(session.will.value, clientID, now);
      } else if graceful {
        willManager.CancelWillMessage(clientID);
      }
      session := session.(will := None);
      if session.cleanSession {
        active := active - {clientID};
        DeleteSession(clientID);
      } else {
        active := active[clientID := session];
        SaveSession(session);
      }
      ok := true;
    }

    method AddSubscription(clientID: string, topic: string, qos: nat, now: int) returns (ok: bool)
      requires Valid()
      modifies this
      ensures Valid()
      ensures View() == Subscribe(old(View()), clientID, topic, qos, now)
      ensures ok <==> clientID in old(active)
    {
      if clientID !in active {
        return false;
      }
      var session := active[clientID];
      session := session.(subscriptions := session.subscriptions[topic := qos], lastActivity := now);
      active := active[clientID := session];
      if !session.cleanSession {
        SaveSession(session);
      }
      ok := true;
    }

    method RemoveSubscription(clientID: string, topic: string, now: int) returns (ok: bool)
      requires Valid()
      modifies this
      ensures Valid()
      ensures View() == Unsubscribe(old(View()), clientID, topic, now)
      ensures ok <==> clientID in old(active)
    {
      if clientID !in active {
        return false;
      }
      var session := active[clientID];
      session := session.(subscriptions := session.subscriptions - {topic}, lastActivity := now);
      active := active[clientID := session];
      if !session.cleanSession {
        SaveSession(session);
      }
      ok := true;
    }

    method SetWillMessage(clientID: string, topic: string, payload: Bytes, qos: nat, retain: bool, delay: int)
      returns (ok: bool)
      requires Valid()
      modifies this
      ensures Valid()
      ensures View() == SetWill(old(View()), clientID, topic, payload, qos, retain, delay)
      ensures ok <==> clientID in old(active)
    {
      if clientID !in active {
        return false;
      }
      active := active[clientID := active[clientID].(will := Some(Will(nextWill, topic, payload, qos, retain, delay)))];
      nextWill := nextWill + 1;
      ok := true;
    }

    method QueueMessage(clientID: string, topic: string, payload: Bytes, qos: nat, retain: bool, now: int)
      returns (ok: bool)
      requires Valid()
      modifies this
      ensures Valid()
      ensures View() == Queue(config, old(View()), clientID, MessageOf(config, topic, payload, qos, retain, now))
      ensures ok <==> clientID in old(active)
    {
      if clientID !in active {
        return false;
      }
      ok := true;
      var session := active[clientID];
      if session.connected {
        return;
      }
      if session.cleanSession {
        return;
      }
      if |session.queue| >= config.maxOfflineMessages {
        session := session.(queue := session.queue[1..]);
      }
      var m := QueuedMessage(topic, payload, qos, retain, now, None);
      if config.messageExpiryInterval > 0 {
        m := m.(expiryTime := Some(now + config.messageExpiryInterval));
      }
      session := session.(queue := session.queue + [m]);
      active := active[clientID := session];
      SaveSession(session);
    }

    /** Packet IDs run from 1 to 65535 and skip 0. */
    method NextPacketID(clientID: string) returns (id: Option<nat>)
      requires Valid()
      modifies this
      ensures Valid()
      ensures View() == Sessions.NextPacketID(old(View()), clientID)
      ensures clientID !in old(active) ==> id == None
      ensures clientID in old(active) ==> id == Some(active[clientID].packetIDCounter) && 0 < id.value < 0x1_0000
    {
      if clientID !in active {
        return None;
      }
      var session := active[clientID];
      var next := (session.packetIDCounter + 1) % 0x1_0000;
      if next == 0 {
        next := 1;
      }
      active := active[clientID := session.(packetIDCounter := next)];
      id := Some(next);
    }

    /** The queue without its expired messages. */
    method ValidMessages(queue: seq<QueuedMessage>, now: int) returns (valid: seq<QueuedMessage>)
      ensures valid == FreshOnes(queue, now)
    {
      valid := [];
      for i := 0 to |queue|
        invariant valid == FreshOnes(queue[..i], now)
      {
        assert queue[..i + 1][..i] == queue[..i];
        if queue[i].expiryTime.None? || now < queue[i].expiryTime.value {
          valid := valid + [queue[i]];
        }
      }
      assert queue[..|queue|] == queue;
    }

    /** The first pass for one session: report it as expired, or drop its expired messages. */
    method ScanSession(clientID: string, now: int) returns (isExpired: bool)
      requires Valid() && clientID in active
      modifies this`active, this`store
      ensures Valid()
      ensures isExpired <==> Expired(old(active)[clientID], now)
      ensures View() == var was := old(View()); var session := old(active)[clientID];
                        if isExpired then was
                        else if SavedByCleanup(session, now) then Keep(was, Cleaned(session, now))
                        else was.(active := was.active[clientID := Cleaned(session, now)])
    {
      var session := active[clientID];
      if !session.connected && now - session.lastActivity > session.expiryInterval {
        return true;
      }
      isExpired := false;
      var valid := ValidMessages(session.queue, now);
      if |valid| != |session.queue| {
        session := session.(queue := valid);
        active := active[clientID := session];
        if !session.cleanSession {
          SaveSession(session);
        }
      } else {
        FreshOnesShrink(session.queue, now);
        assert active == active[clientID := Cleaned(session, now)];
      }
    }

    method CleanupExpiredSessions(now: int)
      requires Valid()
      modifies this
      ensures Valid()
      ensures View() == Cleanup(old(View()), now)
    {
      ghost var start := View();
      var expired := ScanSessions(now);
      StillExpired(start, now);
      ScanThenDropIsCleanup(start, now);
      hide *;
      RemoveExpired(expired, now);
    }

    /** The first pass of the cleanup. */
    method ScanSessions(now: int) returns (expired: set<string>)
      requires Valid()
      modifies this`active, this`store
      ensures Valid()
      ensures View() == Scanned(old(View()), old(active).Keys, now)
      ensures expired == ExpiredOnes(old(View()), now)
    {
      ghost var start := View();
      expired := {};
      var todo := active.Keys;
      ScanNone(start, now);
      ghost var seen: set<string> := {};
      hide Scanned, FreshOnes, Cleaned, Expired, SavedByCleanup;
      while todo != {}
        invariant seen !! todo && seen + todo == start.active.Keys
        invariant Valid() && View() == Scanned(start, seen, now)
        invariant expired == set c <- start.active | c in seen && Expired(start.active[c], now)
        decreases todo
      {
        var c :| c in todo;
        ScanOne(start, seen, c, now);
        todo, seen := todo - {c}, seen + {c};
        var isExpired := ScanSession(c, now);
        if isExpired {
          expired := expired + {c};
        }
      }
      assert seen == start.active.Keys;
    }

    /** The second pass of the cleanup, which tests each session once more before it removes it. */
    method RemoveExpired(expired: set<string>, now: int)
      requires Valid()
      modifies this`active, this`store
      ensures Valid()
      ensures View() == Dropped(old(View()), expired * ExpiredOnes(old(View()), now))
    {
      ghost var start := View();
      DropNone(start);
      var todo := expired;
      ghost var dropped: set<string> := {};
      while todo != {}
        invariant todo <= expired && dropped <= expired - todo
        invariant forall c <- expired - todo :: c in dropped <==> c in ExpiredOnes(start, now)
        invariant View() == Dropped(start, dropped)
        decreases todo
      {
        var c :| c in todo;
        StillThere(start, dropped, c);
        hide Dropped;
        todo := todo - {c};
        if c in active {
          var session := active[c];
          if !session.connected && now - session.lastActivity > session.expiryInterval {
            DropOne(start, dropped, c);
            dropped := dropped + {c};
            active := active - {c};
            DeleteSession(c);
          }
        }
      }
      assert dropped == expired * ExpiredOnes(start, now);
    }

    method Close()
      requires Valid()
      modifies this, willManager
      ensures Valid()
      ensures View() == Sessions.Close(old(View()))
    {
      if closed {
        return;
      }
      closed := true;
      willManager.Close();
      ghost var was := store;
      SaveBounds(was, active);
      var todo := active.Keys;
      ghost var seen: set<string> := {};
      hide SavedAll;
      while todo != {}
        invariant seen !! todo && seen + todo == active.Keys
        invariant Valid() && store == SavedAll(was, active, seen)
        invariant closed && active == old(active) && nextWill == old(nextWill)
        invariant willManager.View() == CloseWills(old(willManager.View()))
        decreases todo
      {
        var c :| c in todo;
        SaveOne(was, active, seen, c);
        todo, seen := todo - {c}, seen + {c};
        if !active[c].cleanSession {
          SaveSession(active[c]);
        }
      }
      assert seen == active.Keys;
    }
  }

  ghost function SavedAll(store: map<string, Session>, active: map<string, Session>, seen: set<string>): map<string, Session> {
    var saved := set c <- active | c in seen && !active[c].cleanSession;
    map c | c in store.Keys + saved :: if c in saved then active[c] else store[c]
  }

  lemma SaveOne(store: map<string, Session>, active: map<string, Session>, seen: set<string>, c: string)
    requires c in active && c !in seen
    ensures SavedAll(store, active, seen + {c})
            == if active[c].cleanSession then SavedAll(store, active, seen) else SavedAll(store, active, seen)[c := active[c]]
  {
  }

  lemma SaveBounds(store: map<string, Session>, active: map<string, Session>)
    ensures SavedAll(store, active, {}) == store
    ensures SavedAll(store, active, active.Keys)
            == var saved := set c <- active | !active[c].cleanSession;
               map c | c in store.Keys + saved :: if c in saved then active[c] else store[c]
  {
    assert (set c <- active | c in active.Keys && !active[c].cleanSession) == (set c <- active | !active[c].cleanSession);
  }

  // ----- OfflineMessageManager -----

  class OfflineMessageManager {
    const sessionManager: SessionManager
    var deliveryCallbacks: set<string>

    constructor (sessionManager: SessionManager)
      ensures this.sessionManager == sessionManager && deliveryCallbacks == {}
    {
      this.sessionManager := sessionManager;
      deliveryCallbacks := {};
    }

    method SetDeliveryCallback(clientID: string)
      modifies this
      ensures deliveryCallbacks == old(deliveryCallbacks) + {clientID}
    {
      deliveryCallbacks := deliveryCallbacks + {clientID};
    }

    method RemoveDeliveryCallback(clientID: string)
      modifies this
      ensures deliveryCallbacks == old(deliveryCallbacks) - {clientID}
    {
      deliveryCallbacks := deliveryCallbacks - {clientID};
    }

    /** `handed` is the sequence of messages the callback accepted; it refuses the one at position `failAt`. */
    method DeliverOfflineMessages(clientID: string, failAt: Option<nat>, now: int, lags: seq<nat>)
      returns (handed: seq<QueuedMessage>, ok: bool)
      requires sessionManager.Valid()
      modifies sessionManager
      ensures sessionManager.Valid()
      ensures Delivery(handed, ok) == Handed(old(sessionManager.View()), clientID, clientID in deliveryCallbacks, failAt, now, lags)
      ensures sessionManager.View()
              == Deliver(old(sessionManager.View()), clientID, clientID in deliveryCallbacks, failAt, now, lags)
    {
      handed, ok := [], false;
      if clientID !in deliveryCallbacks {
        return;
      }
      if clientID !in sessionManager.active {
        return;
      }
      var session := sessionManager.active[clientID];
      if !session.connected {
        return;
      }
      var queue := session.queue;
      assert LiveOnes(queue[..0], now, lags) == [];
      hide LiveOnes;
      for i := 0 to |queue|
        invariant handed == LiveOnes(queue[..i], now, lags)
        invariant failAt.Some? && failAt.value < i ==> !Live(queue[failAt.value], Reading(now, lags, failAt.value))
        invariant !ok && sessionManager.Valid()
        invariant sessionManager.View() == old(sessionManager.View())
      {
        LiveOnesStep(queue, i, now, lags);
        if queue[i].expiryTime.Some? && Reading(now, lags, i) > queue[i].expiryTime.value {
          continue;
        }
        if failAt == Some(i) {
          return;
        }
        handed := handed + [queue[i]];
      }
      assert queue[..|queue|] == queue;
      session := session.(queue := []);
      sessionManager.active := sessionManager.active[clientID := session];
      if !session.cleanSession {
        sessionManager.SaveSession(session);
      }
      ok := true;
    }

    method HasMatchingSubscription(session: Session, topic: string) returns (found: bool)
      ensures found <==> HasMatch(sessionManager.config, session, topic)
    {
      var todo := session.subscriptions.Keys;
      found := false;
      while todo != {}
        invariant todo <= session.subscriptions.Keys
        invariant !found && forall f <- session.subscriptions :: f !in todo ==> !sessionManager.config.matches(topic, f)
        decreases todo
      {
        var f :| f in todo;
        todo := todo - {f};
        if sessionManager.config.matches(topic, f) {
          return true;
        }
      }
    }

    /** `p` is the message with the clock readings of the loop. */
    method QueueMessageForOfflineClients(p: Post)
      requires sessionManager.Valid()
      modifies sessionManager
      ensures sessionManager.Valid()
      ensures sessionManager.View() == QueueOffline(sessionManager.config, old(sessionManager.View()), p)
    {
      ghost var start := sessionManager.View();
      ghost var cfg := sessionManager.config;
      var todo := sessionManager.active.Keys;
      FanOutAll(cfg, start, p);
      ghost var seen: set<string> := {};
      hide FannedOut;
      while todo != {}
        invariant seen !! todo && seen + todo == start.active.Keys
        invariant sessionManager.Valid()
        invariant sessionManager.View() == FannedOut(cfg, start, p, seen)
        decreases todo
      {
        var c :| c in todo;
        FanOutOne(cfg, start, p, seen, c);
        todo, seen := todo - {c}, seen + {c};
        var session := sessionManager.active[c];
        if session.connected {
          continue;
        }
        if session.cleanSession {
          continue;
        }
        var found := HasMatchingSubscription(session, p.topic);
        if found {
          var ok := sessionManager.QueueMessage(c, p.topic, p.payload, p.qos, p.retain, StampFor(p, c));
        }
      }
      assert seen == start.active.Keys;
    }
  }
}
