/**
 Sessions read off the calls: pkg/persistent/session.go.

 Whether a client has a session, every field of it but its queue, and what is in the store are computed from the list of
 calls alone and compared with the state after every run.  None of it looks at how the state machine decides.
 */
module SessionCalls {
  import opened Common
  import opened Sessions
  import opened DurableMirror

  function At<V>(m: map<string, V>, k: string): Option<V> {
    if k in m then Some(m[k]) else None
  }

  // ----- The last call of a client -----

  predicate Connects(a: Action, c: string) {
    a.ConnectAction? && a.clientID == c
  }

  predicate Disconnects(a: Action, c: string) {
    a.DisconnectAction? && a.clientID == c
  }

  /** A subscribe or an unsubscribe of this client. */
  predicate Resubscribes(a: Action, c: string) {
    (a.SubscribeAction? || a.UnsubscribeAction?) && a.clientID == c
  }

  /** The last connect or disconnect of the client is a connect. */
  predicate Online(actions: seq<Action>, c: string) {
    if actions == [] then false
    else
      var a := actions[|actions| - 1];
      Connects(a, c) || (!Disconnects(a, c) && Online(actions[..|actions| - 1], c))
  }

  /** The reading of the client's last connect, disconnect, subscribe or unsubscribe. */
  function Touched(actions: seq<Action>, c: string): int {
    if actions == [] then 0
    else
      var a := actions[|actions| - 1];
      if Connects(a, c) || Disconnects(a, c) || Resubscribes(a, c) then a.now else Touched(actions[..|actions| - 1], c)
  }

  /** The manager is closed: the last close or crash is a close. */
  predicate Closed(actions: seq<Action>) {
    if actions == [] then false
    else
      var a := actions[|actions| - 1];
      a.CloseAction? || (!a.CrashAction? && Closed(actions[..|actions| - 1]))
  }

  // ----- The life of a session -----

  /** The client has connected and its session has not ended since. */
  ghost predicate Alive(cfg: Config, actions: seq<Action>, c: string)
    decreases |actions|, 0
  {
    if actions == [] then false
    else
      var front, a := actions[..|actions| - 1], actions[|actions| - 1];
      Connects(a, c) || (Alive(cfg, front, c) && !Ends(cfg, front, a, c))
  }

  /** A disconnect ends a clean session, a cleanup one whose client is away for too long, a crash every session. */
  ghost predicate Ends(cfg: Config, before: seq<Action>, a: Action, c: string)
    decreases |before|, 1
  {
    || (Disconnects(a, c) && Clean(cfg, before, c))
    || (a.CleanupAction? && !Online(before, c) && a.now > Touched(before, c) + Interval(cfg, before, c))
    || a.CrashAction?
  }

  /** A connect of this session asked for a clean one. */
  ghost predicate Clean(cfg: Config, actions: seq<Action>, c: string)
    decreases |actions|, 0
  {
    if actions == [] then false
    else
      var front, a := actions[..|actions| - 1], actions[|actions| - 1];
      if Connects(a, c) then a.clean || (Alive(cfg, front, c) && Clean(cfg, front, c)) else Clean(cfg, front, c)
  }

  /** The connect finds no session but a record, and takes it up. */
  ghost predicate TakesUp(cfg: Config, before: seq<Action>, a: Action, c: string)
    decreases |before|, 1
  {
    Connects(a, c) && !a.clean && !Alive(cfg, before, c) && SavedAt(cfg, before, c).Some?
  }

  /** A session keeps the interval it started with, or that of the record it was taken up from. */
  ghost function Interval(cfg: Config, actions: seq<Action>, c: string): int
    decreases |actions|, 0
  {
    if actions == [] then 0
    else
      var front, a := actions[..|actions| - 1], actions[|actions| - 1];
      if !Connects(a, c) || Alive(cfg, front, c) then Interval(cfg, front, c)
      else if a.expiryInterval > 0 then a.expiryInterval
      else if TakesUp(cfg, front, a, c) then Interval(cfg, front[..SavedAt(cfg, front, c).value], c)
      else if a.expiryInterval == 0 then cfg.defaultSessionExpiry
      else a.expiryInterval
  }

  /** The QoS of the client's subscription to a topic: the last subscribe since the session began, unless undone. */
  ghost function Wants(cfg: Config, actions: seq<Action>, c: string, topic: string): Option<nat>
    decreases |actions|, 0
  {
    if actions == [] then None
    else
      var front, a := actions[..|actions| - 1], actions[|actions| - 1];
      if Resubscribes(a, c) && a.topic == topic then (if a.SubscribeAction? then Some(a.qos) else None)
      else if !Connects(a, c) then Wants(cfg, front, c, topic)
      else if a.clean then None
      else if Alive(cfg, front, c) then Wants(cfg, front, c, topic)
      else if TakesUp(cfg, front, a, c) then Wants(cfg, front[..SavedAt(cfg, front, c).value], c, topic)
      else None
  }

  ghost predicate Interested(cfg: Config, actions: seq<Action>, c: string, topic: string)
    decreases |actions|, 1
  {
    exists f :: Wants(cfg, actions, c, f).Some? && cfg.matches(topic, f)
  }

  /** The client is away from a session that is kept for it. */
  ghost predicate Away(cfg: Config, actions: seq<Action>, c: string)
    decreases |actions|, 1
  {
    Alive(cfg, actions, c) && !Clean(cfg, actions, c) && !Online(actions, c)
  }

  // ----- The record in the store -----

  function Backlog(s: State, c: string): seq<QueuedMessage> {
    if c in s.active then s.active[c].queue else []
  }

  /** No message that the delivery comes to before its expiry is refused. */
  predicate NoneRefused(q: seq<QueuedMessage>, a: Action)
    requires a.DeliverAction?
  {
    a.failAt.Some? && a.failAt.value < |q| ==>
      q[a.failAt.value].expiryTime.Some? && Reading(a.now, a.lags, a.failAt.value) > q[a.failAt.value].expiryTime.value
  }

  predicate SomeLapsed(q: seq<QueuedMessage>, now: int) {
    exists i :: 0 <= i < |q| && q[i].expiryTime.Some? && now >= q[i].expiryTime.value
  }

  /** The call removes the record: it ends the session and is not a crash. */
  ghost predicate Forgets(cfg: Config, before: seq<Action>, a: Action, c: string)
    decreases |before|, 2
  {
    Alive(cfg, before, c) && Ends(cfg, before, a, c) && !a.CrashAction?
  }

  /** The call writes the record: it starts a session that is not clean, or changes one. */
  ghost predicate Saves(cfg: Config, before: seq<Action>, a: Action, c: string)
    decreases |before|, 2
  {
    if Connects(a, c) then !a.clean && !Alive(cfg, before, c) && SavedAt(cfg, before, c).None?
    else
      && Alive(cfg, before, c) && !Clean(cfg, before, c)
      && (|| Disconnects(a, c) || Resubscribes(a, c)
          || (a.QueueAction? && a.clientID == c && !Online(before, c))
          || (a.QueueOfflineAction? && !Online(before, c) && Interested(cfg, before, c, a.post.topic))
          || (a.DeliverAction? && a.clientID == c && a.registered && Online(before, c)
              && NoneRefused(Backlog(Run(cfg, before), c), a))
          || (a.CleanupAction? && SomeLapsed(Backlog(Run(cfg, before), c), a.now))
          || (a.CloseAction? && !Closed(before)))
  }

  /** After how many calls the record in the store was written, if there is one. */
  ghost function SavedAt(cfg: Config, actions: seq<Action>, c: string): (r: Option<nat>)
    ensures r.Some? ==> 0 < r.value <= |actions|
    decreases |actions|, 0
  {
    if actions == [] then None
    else
      var front, a := actions[..|actions| - 1], actions[|actions| - 1];
      if Forgets(cfg, front, a, c) then None
      else if Saves(cfg, front, a, c) then Some(|actions|)
      else SavedAt(cfg, front, c)
  }

  // ----- What else a session holds -----

  /** The call whose will the session holds. */
  ghost function WillFrom(cfg: Config, actions: seq<Action>, c: string): (r: Option<nat>)
    ensures r.Some? ==> r.value < |actions| && actions[r.value].SetWillAction? && actions[r.value].clientID == c
    decreases |actions|
  {
    if actions == [] then None
    else
      var front, a := actions[..|actions| - 1], actions[|actions| - 1];
      if a.SetWillAction? && a.clientID == c then Some(|front|)
      else if Disconnects(a, c) then None
      else if !Connects(a, c) then WillFrom(cfg, front, c)
      else if a.clean then None
      else if Alive(cfg, front, c) then WillFrom(cfg, front, c)
      else if TakesUp(cfg, front, a, c) then WillFrom(cfg, front[..SavedAt(cfg, front, c).value], c)
      else None
  }

  /** Packet IDs run from 1 to 65535 and start over. */
  ghost function PacketID(cfg: Config, actions: seq<Action>, c: string): nat
    decreases |actions|
  {
    if actions == [] then 1
    else
      var front, a := actions[..|actions| - 1], actions[|actions| - 1];
      if a.NextPacketIDAction? && a.clientID == c then PacketID(cfg, front, c) % 65535 + 1
      else if !Connects(a, c) || Alive(cfg, front, c) then PacketID(cfg, front, c)
      else if TakesUp(cfg, front, a, c) then PacketID(cfg, front[..SavedAt(cfg, front, c).value], c)
      else 1
  }

  ghost function CreatedAt(cfg: Config, actions: seq<Action>, c: string): int
    decreases |actions|
  {
    if actions == [] then 0
    else
      var front, a := actions[..|actions| - 1], actions[|actions| - 1];
      if !Connects(a, c) || Alive(cfg, front, c) then CreatedAt(cfg, front, c)
      else if TakesUp(cfg, front, a, c) then CreatedAt(cfg, front[..SavedAt(cfg, front, c).value], c)
      else a.now
  }

  /** The will is the one that the call set, argument by argument. */
  predicate SetBy(will: Will, a: Action)
    requires a.SetWillAction?
  {
    && will.topic == a.topic && will.payload == a.payload && will.qos == a.qos && will.retain == a.retain
    && will.delayInterval == a.delay
  }

  ghost predicate HoldsWill(cfg: Config, actions: seq<Action>, c: string, will: Option<Will>) {
    var k := WillFrom(cfg, actions, c);
    && (k.Some? <==> will.Some?)
    && (k.Some? ==> SetBy(will.value, actions[k.value]) && will.value.serial == Run(cfg, actions[..k.value]).nextWill)
  }

  /** The flags and times of a session. */
  ghost predicate FlagsAsCalled(cfg: Config, actions: seq<Action>, c: string, session: Session) {
    && session.clientID == c
    && session.connected == Online(actions, c) && session.cleanSession == Clean(cfg, actions, c)
    && session.lastActivity == Touched(actions, c) && session.createdAt == CreatedAt(cfg, actions, c)
    && session.expiryInterval == Interval(cfg, actions, c)
  }

  /** Every field of the session but its queue is what the calls say. */
  ghost predicate AsCalled(cfg: Config, actions: seq<Action>, c: string, session: Session) {
    && FlagsAsCalled(cfg, actions, c, session)
    && (forall topic :: At(session.subscriptions, topic) == Wants(cfg, actions, c, topic))
    && session.packetIDCounter == PacketID(cfg, actions, c)
    && HoldsWill(cfg, actions, c, session.will)
  }

  // ----- Calls that leave a session's fields alone -----

  /** A call of this client that changes a field of its session other than the queue. */
  predicate Changes(a: Action, c: string) {
    || Connects(a, c) || Disconnects(a, c) || Resubscribes(a, c)
    || (a.SetWillAction? && a.clientID == c) || (a.NextPacketIDAction? && a.clientID == c)
  }

  lemma FrontOf(front: seq<Action>, a: Action)
    ensures var actions := front + [a];
            actions != [] && actions[..|actions| - 1] == front && actions[|actions| - 1] == a
  {
  }

  lemma WillStays(cfg: Config, front: seq<Action>, a: Action, c: string, will: Option<Will>)
    requires HoldsWill(cfg, front, c, will) && WillFrom(cfg, front + [a], c) == WillFrom(cfg, front, c)
    ensures HoldsWill(cfg, front + [a], c, will)
  {
    var k := WillFrom(cfg, front, c);
    hide WillFrom, Run;
    if k.Some? {
      assert (front + [a])[..k.value] == front[..k.value];
    }
  }

  lemma OthersLeave(cfg: Config, front: seq<Action>, a: Action, c: string, session: Session)
    requires AsCalled(cfg, front, c, session) && !Changes(a, c)
    ensures AsCalled(cfg, front + [a], c, session)
  {
    FrontOf(front, a);
    WillStays(cfg, front, a, c, session.will);
    hide HoldsWill, Run, Alive, TakesUp;
  }

  lemma QueueIsNotRead(cfg: Config, actions: seq<Action>, c: string, session: Session, q: seq<QueuedMessage>)
    requires AsCalled(cfg, actions, c, session)
    ensures AsCalled(cfg, actions, c, session.(queue := q))
  {
    hide HoldsWill, Wants, Online, Clean, Touched, CreatedAt, Interval, PacketID;
  }

  // ----- Calls that change them -----

  lemma NewAsCalled(cfg: Config, front: seq<Action>, a: Action, c: string)
    requires Connects(a, c) && !Alive(cfg, front, c) && !TakesUp(cfg, front, a, c)
    ensures AsCalled(cfg, front + [a], c, NewSession(cfg, c, a.clean, a.expiryInterval, a.now))
  {
    FrontOf(front, a);
    hide Run, Alive, TakesUp, SavedAt;
  }

  lemma ReconnectAsCalled(cfg: Config, front: seq<Action>, a: Action, c: string, session: Session)
    requires Connects(a, c) && Alive(cfg, front, c) && AsCalled(cfg, front, c, session)
    ensures AsCalled(cfg, front + [a], c, Reconnect(session, a.clean, a.now))
  {
    FrontOf(front, a);
    hide Run, Alive, TakesUp, SavedAt;
    if !a.clean {
      WillStays(cfg, front, a, c, session.will);
    }
  }

  /** The record was the session after k calls, and is taken up by a connect. */
  lemma ResumeAsCalled(cfg: Config, front: seq<Action>, a: Action, c: string, record: Session)
    requires TakesUp(cfg, front, a, c) && !record.cleanSession
    requires AsCalled(cfg, front[..SavedAt(cfg, front, c).value], c, record)
    ensures AsCalled(cfg, front + [a], c, Resume(record, a.expiryInterval, a.now))
  {
    FrontOf(front, a);
    assert !Alive(cfg, front, c);
    var k := SavedAt(cfg, front, c).value;
    var saved := front[..k];
    assert WillFrom(cfg, front + [a], c) == WillFrom(cfg, saved, c);
    var w := WillFrom(cfg, saved, c);
    hide Run, Alive, TakesUp, SavedAt, WillFrom;
    if w.Some? {
      assert (front + [a])[..w.value] == saved[..w.value];
    }
  }

  lemma DisconnectAsCalled(cfg: Config, front: seq<Action>, a: Action, c: string, session: Session)
    requires Disconnects(a, c) && AsCalled(cfg, front, c, session)
    ensures AsCalled(cfg, front + [a], c, session.(connected := false, lastActivity := a.now, will := None))
  {
    FrontOf(front, a);
    hide Run, Alive, TakesUp, SavedAt;
  }

  lemma ResubscribeAsCalled(cfg: Config, front: seq<Action>, a: Action, c: string, session: Session)
    requires Resubscribes(a, c) && AsCalled(cfg, front, c, session)
    ensures var was := session.subscriptions;
            var subs := if a.SubscribeAction? then was[a.topic := a.qos] else was - {a.topic};
            AsCalled(cfg, front + [a], c, session.(subscriptions := subs, lastActivity := a.now))
  {
    FrontOf(front, a);
    WillStays(cfg, front, a, c, session.will);
    hide HoldsWill, Run, Alive, TakesUp, SavedAt;
    var was := session.subscriptions;
    var subs := if a.SubscribeAction? then was[a.topic := a.qos] else was - {a.topic};
    forall topic ensures At(subs, topic) == Wants(cfg, front + [a], c, topic) {
      assert At(was, topic) == Wants(cfg, front, c, topic);
    }
  }

  lemma SetWillAsCalled(cfg: Config, front: seq<Action>, a: Action, c: string, session: Session)
    requires a.SetWillAction? && a.clientID == c && AsCalled(cfg, front, c, session)
    ensures var will := Will(Run(cfg, front).nextWill, a.topic, a.payload, a.qos, a.retain, a.delay);
            AsCalled(cfg, front + [a], c, session.(will := Some(will)))
  {
    FrontOf(front, a);
    hide Run, Alive, TakesUp, SavedAt;
    assert WillFrom(cfg, front + [a], c) == Some(|front|);
    assert (front + [a])[..|front|] == front && (front + [a])[|front|] == a;
  }

  /** A 16-bit increment that skips zero. */
  function NextID(p: nat): nat {
    var next := (p + 1) % 0x1_0000;
    if next == 0 then 1 else next
  }

  lemma NextIDCycles(p: nat)
    requires 1 <= p <= 65535
    ensures NextID(p) == p % 65535 + 1
  {
  }

  lemma NextPacketIDAsCalled(cfg: Config, front: seq<Action>, a: Action, c: string, session: Session)
    requires a.NextPacketIDAction? && a.clientID == c && AsCalled(cfg, front, c, session)
    requires 1 <= session.packetIDCounter <= 65535
    ensures AsCalled(cfg, front + [a], c, session.(packetIDCounter := NextID(session.packetIDCounter)))
  {
    hide NextID;
    NextIDCycles(session.packetIDCounter);
    FrontOf(front, a);
    WillStays(cfg, front, a, c, session.will);
    hide HoldsWill, Run, Alive, TakesUp, SavedAt;
  }

  lemma {:induction false} PacketIDInRange(cfg: Config, actions: seq<Action>, c: string)
    ensures 1 <= PacketID(cfg, actions, c) <= 65535
    decreases |actions|
  {
    if actions != [] {
      var front := actions[..|actions| - 1];
      PacketIDInRange(cfg, front, c);
      if SavedAt(cfg, front, c).Some? {
        PacketIDInRange(cfg, front[..SavedAt(cfg, front, c).value], c);
      }
      hide Alive, TakesUp, SavedAt;
    }
  }

  // ----- One call and the sessions in memory -----

  lemma ConnectActive(cfg: Config, s: State, a: Action, c: string)
    requires Connects(a, c)
    ensures var t := Step(cfg, s, a);
            && c in t.active
            && t.active[c] == if c in s.active then Reconnect(s.active[c], a.clean, a.now)
                              else if !a.clean && c in s.store then Resume(s.store[c], a.expiryInterval, a.now)
                              else NewSession(cfg, c, a.clean, a.expiryInterval, a.now)
  {
  }

  lemma OwnCallActive(cfg: Config, s: State, a: Action, c: string)
    requires Changes(a, c) && !Connects(a, c) && Durable(s)
    ensures var t := Step(cfg, s, a);
            && (c in t.active <==> c in s.active && !(Disconnects(a, c) && s.active[c].cleanSession))
            && (c in t.active ==>
                  var session := s.active[c];
                  t.active[c]
                  == if Disconnects(a, c) then session.(connected := false, lastActivity := a.now, will := None)
                     else if a.SubscribeAction?
                     then session.(subscriptions := session.subscriptions[a.topic := a.qos], lastActivity := a.now)
                     else if a.UnsubscribeAction?
                     then session.(subscriptions := session.subscriptions - {a.topic}, lastActivity := a.now)
                     else if a.SetWillAction?
                     then session.(will := Some(Will(s.nextWill, a.topic, a.payload, a.qos, a.retain, a.delay)))
                     else session.(packetIDCounter := NextID(session.packetIDCounter)))
  {
    hide WillsAfterDisconnect;
  }

  /** Every field but the queue is as before. */
  ghost predicate SameButQueue(s: State, t: State, c: string) {
    (c in t.active <==> c in s.active) && (c in t.active ==> t.active[c] == s.active[c].(queue := t.active[c].queue))
  }

  lemma OtherConnect(cfg: Config, s: State, a: Action, c: string)
    requires a.ConnectAction? && a.clientID != c
    ensures SameButQueue(s, Step(cfg, s, a), c)
  {
  }

  lemma CleanupActive(s: State, now: int, c: string)
    ensures var t := Cleanup(s, now);
            && (c in t.active <==> c in s.active && !Expired(s.active[c], now))
            && (c in t.active ==> t.active[c] == s.active[c].(queue := t.active[c].queue))
  {
    hide FreshOnes, Expired;
  }

  lemma RemainingCall(cfg: Config, s: State, a: Action, c: string)
    requires !Changes(a, c) && !a.ConnectAction? && !a.CleanupAction? && !a.CrashAction?
    requires !(a.DisconnectAction? || a.SubscribeAction? || a.UnsubscribeAction? || a.QueueAction? || a.DeliverAction?)
    ensures SameButQueue(s, Step(cfg, s, a), c)
  {
    hide MessageOf, HasMatch, CancelWills, CloseWills, FireTimer;
  }

  /** Any other call leaves every field but the queue alone, or ends the session. */
  lemma OtherCallActive(cfg: Config, s: State, a: Action, c: string)
    requires !Changes(a, c) && Durable(s)
    ensures var t := Step(cfg, s, a);
            && (c in t.active
                <==> c in s.active && !a.CrashAction?
                     && !(a.CleanupAction? && !s.active[c].connected
                          && a.now > s.active[c].lastActivity + s.active[c].expiryInterval))
            && (c in t.active ==> t.active[c] == s.active[c].(queue := t.active[c].queue))
  {
    if a.CleanupAction? {
      CleanupActive(s, a.now, c);
    } else if a.ConnectAction? {
      OtherConnect(cfg, s, a, c);
    } else if a.DisconnectAction? {
      DisconnectFollows(cfg, s, a, c);
    } else if a.SubscribeAction? || a.UnsubscribeAction? {
      ResubscribeFollows(cfg, s, a, c);
    } else if a.QueueAction? {
      QueueFollows(cfg, s, a, c);
    } else if a.DeliverAction? {
      DeliverFollows(cfg, s, a, c);
    } else if !a.CrashAction? {
      RemainingCall(cfg, s, a, c);
    }
    hide Durable, Connect, Disconnect, Subscribe, Unsubscribe, Queue, Deliver, QueueOffline, Cleanup, Close, SetWill,
         NextPacketID, MessageOf, FireTimer, CancelWills;
  }

  // ----- One call and the store -----

  /** The state-level condition under which a call writes the record of a client. */
  predicate Written(cfg: Config, s: State, a: Action, c: string) {
    if Connects(a, c) then !a.clean && c !in s.active && c !in s.store
    else
      && c in s.active && !s.active[c].cleanSession
      && (|| Disconnects(a, c) || Resubscribes(a, c)
          || (a.QueueAction? && a.clientID == c && !s.active[c].connected)
          || (a.QueueOfflineAction? && c in Recipients(cfg, s, a.post.topic))
          || (a.DeliverAction? && a.clientID == c && Handed(s, c, a.registered, a.failAt, a.now, a.lags).ok)
          || (a.CleanupAction? && SavedByCleanup(s.active[c], a.now))
          || (a.CloseAction? && !s.closed))
  }

  predicate Dropped(s: State, a: Action, c: string) {
    && c in s.active
    && ((Disconnects(a, c) && s.active[c].cleanSession) || (a.CleanupAction? && Expired(s.active[c], a.now)))
  }

  /** What becomes of the record of one client. */
  ghost predicate RecordFollows(cfg: Config, s: State, a: Action, t: State, c: string) {
    if Dropped(s, a, c) then c !in t.store
    else if Written(cfg, s, a, c) then c in t.store && c in t.active && t.store[c] == t.active[c]
    else At(t.store, c) == At(s.store, c)
  }

  lemma KeepFollows(s: State, session: Session, c: string)
    ensures var t := Keep(s, session);
            && (session.clientID != c ==> At(t.store, c) == At(s.store, c))
            && (session.clientID == c ==>
                  if session.cleanSession then t.store == s.store
                  else c in t.store && c in t.active && t.store[c] == t.active[c])
            && ((session.clientID == c ==> c in s.active && session == s.active[c].(queue := session.queue)) ==>
                  SameButQueue(s, t, c))
  {
  }

  lemma ConnectFollows(cfg: Config, s: State, a: Action, c: string)
    requires a.ConnectAction? && Durable(s)
    ensures RecordFollows(cfg, s, a, Step(cfg, s, a), c)
  {
    KeepFollows(s, NewSession(cfg, a.clientID, a.clean, a.expiryInterval, a.now), c);
    hide Durable, Keep, Reconnect, Resume;
  }

  lemma DisconnectFollows(cfg: Config, s: State, a: Action, c: string)
    requires Durable(s) && a.DisconnectAction?
    ensures RecordFollows(cfg, s, a, Step(cfg, s, a), c)
    ensures a.clientID != c ==> SameButQueue(s, Step(cfg, s, a), c)
  {
    hide Keep, WillsAfterDisconnect, Expired, Handed;
    if a.clientID in s.active {
      var session := s.active[a.clientID];
      var t := s.(wills := WillsAfterDisconnect(s.wills, session, a.clientID, a.graceful, a.now));
      KeepFollows(t, session.(connected := false, lastActivity := a.now, will := None), c);
    }
  }

  lemma ResubscribeFollows(cfg: Config, s: State, a: Action, c: string)
    requires Durable(s) && (a.SubscribeAction? || a.UnsubscribeAction?)
    ensures RecordFollows(cfg, s, a, Step(cfg, s, a), c)
    ensures a.clientID != c ==> SameButQueue(s, Step(cfg, s, a), c)
  {
    hide Keep, Expired, Handed;
    if a.clientID in s.active {
      var session := s.active[a.clientID];
      var was := session.subscriptions;
      var subs := if a.SubscribeAction? then was[a.topic := a.qos] else was - {a.topic};
      KeepFollows(s, session.(subscriptions := subs, lastActivity := a.now), c);
    }
  }

  lemma QueueFollows(cfg: Config, s: State, a: Action, c: string)
    requires Durable(s) && a.QueueAction?
    ensures RecordFollows(cfg, s, a, Step(cfg, s, a), c)
    ensures SameButQueue(s, Step(cfg, s, a), c)
  {
    hide Keep, Expired, Handed, MessageOf;
    if a.clientID in s.active {
      KeepFollows(s, Enqueue(cfg, s.active[a.clientID], MessageOf(cfg, a.topic, a.payload, a.qos, a.retain, a.now)), c);
    }
  }

  lemma DeliverFollows(cfg: Config, s: State, a: Action, c: string)
    requires Durable(s) && a.DeliverAction?
    ensures RecordFollows(cfg, s, a, Step(cfg, s, a), c)
    ensures SameButQueue(s, Step(cfg, s, a), c)
  {
    hide Keep, Expired, Handed;
    if a.clientID in s.active {
      KeepFollows(s, s.active[a.clientID].(queue := []), c);
    }
  }

  lemma OtherCallFollows(cfg: Config, s: State, a: Action, c: string)
    requires !a.ConnectAction?
    requires !(a.DisconnectAction? || a.SubscribeAction? || a.UnsubscribeAction? || a.QueueAction? || a.DeliverAction?)
    ensures RecordFollows(cfg, s, a, Step(cfg, s, a), c)
  {
    hide MessageOf, HasMatch, FreshOnes, Expired, Enqueue, CancelWills, CloseWills, FireTimer;
  }

  lemma StepFollows(cfg: Config, s: State, a: Action, c: string)
    requires Durable(s)
    ensures RecordFollows(cfg, s, a, Step(cfg, s, a), c)
  {
    hide Step, Durable, RecordFollows;
    if a.ConnectAction? {
      ConnectFollows(cfg, s, a, c);
    } else if a.DisconnectAction? {
      DisconnectFollows(cfg, s, a, c);
    } else if a.SubscribeAction? || a.UnsubscribeAction? {
      ResubscribeFollows(cfg, s, a, c);
    } else if a.QueueAction? {
      QueueFollows(cfg, s, a, c);
    } else if a.DeliverAction? {
      DeliverFollows(cfg, s, a, c);
    } else {
      OtherCallFollows(cfg, s, a, c);
    }
  }

  // ----- The conditions on the state are conditions on the calls -----

  lemma {:induction false} NoneLapsedIff(q: seq<QueuedMessage>, now: int)
    ensures |FreshOnes(q, now)| <= |q|
    ensures |FreshOnes(q, now)| != |q| <==> SomeLapsed(q, now)
  {
    if q != [] {
      var front, m := q[..|q| - 1], q[|q| - 1];
      NoneLapsedIff(front, now);
      assert SomeLapsed(q, now) <==> SomeLapsed(front, now) || !Fresh(m, now) by {
        assert forall i :: 0 <= i < |front| ==> q[i] == front[i];
      }
      hide SomeLapsed;
    }
  }

  lemma HandedIff(s: State, a: Action, c: string)
    requires a.DeliverAction? && c in s.active
    ensures Handed(s, c, a.registered, a.failAt, a.now, a.lags).ok
            <==> a.registered && s.active[c].connected && NoneRefused(s.active[c].queue, a)
  {
    hide LiveOnes;
  }

  lemma RecipientIff(cfg: Config, actions: seq<Action>, s: State, c: string, topic: string)
    requires c in s.active && AsCalled(cfg, actions, c, s.active[c])
    ensures c in Recipients(cfg, s, topic)
            <==> !s.active[c].connected && !s.active[c].cleanSession && Interested(cfg, actions, c, topic)
  {
    var subs := s.active[c].subscriptions;
    hide Wants, HoldsWill, FlagsAsCalled, PacketID;
    assert forall f :: At(subs, f) == Wants(cfg, actions, c, f);
    if Interested(cfg, actions, c, topic) {
      var f :| Wants(cfg, actions, c, f).Some? && cfg.matches(topic, f);
      assert f in subs;
    }
    if HasMatch(cfg, s.active[c], topic) {
      var f :| f in subs && cfg.matches(topic, f);
      assert At(subs, f) == Wants(cfg, actions, c, f);
    }
  }

  // ----- Runs -----

  /** The record is the session as it stood right after the call that wrote it last. */
  ghost predicate RecordAsSaved(cfg: Config, actions: seq<Action>, s: State, c: string) {
    var k := SavedAt(cfg, actions, c);
    && (c in s.store <==> k.Some?)
    && (c in s.store ==> var saved := Run(cfg, actions[..k.value]); c in saved.active && s.store[c] == saved.active[c])
  }

  ghost predicate SessionAsCalled(cfg: Config, actions: seq<Action>, s: State, c: string) {
    (c in s.active <==> Alive(cfg, actions, c)) && (c in s.active ==> AsCalled(cfg, actions, c, s.active[c]))
  }

  lemma WrittenIff(cfg: Config, front: seq<Action>, a: Action, c: string)
    requires SessionAsCalled(cfg, front, Run(cfg, front), c)
    requires c in Run(cfg, front).store <==> SavedAt(cfg, front, c).Some?
    requires Run(cfg, front).closed <==> Closed(front)
    ensures Dropped(Run(cfg, front), a, c) <==> Forgets(cfg, front, a, c)
    ensures !Dropped(Run(cfg, front), a, c) ==> (Written(cfg, Run(cfg, front), a, c) <==> Saves(cfg, front, a, c))
  {
    var s := Run(cfg, front);
    if c in s.active {
      if a.DeliverAction? {
        HandedIff(s, a, c);
      } else if a.QueueOfflineAction? {
        RecipientIff(cfg, front, s, c, a.post.topic);
      } else if a.CleanupAction? {
        NoneLapsedIff(s.active[c].queue, a.now);
      }
    }
    hide Run, Handed, Recipients, FreshOnes, HoldsWill, Interested, Alive, Clean, Online, Touched, Interval, SavedAt,
         Wants, PacketID, CreatedAt, NoneRefused, SomeLapsed;
  }

  lemma RecordStep(cfg: Config, front: seq<Action>, a: Action, c: string)
    requires var s := Run(cfg, front); SessionAsCalled(cfg, front, s, c) && RecordAsSaved(cfg, front, s, c)
    requires Run(cfg, front).closed <==> Closed(front)
    ensures RecordAsSaved(cfg, front + [a], Run(cfg, front + [a]), c)
  {
    hide *;
    RecordedIff(cfg, front, Run(cfg, front), c);
    RunStep(cfg, front, a);
    RunIsDurable(cfg, front);
    StepFollows(cfg, Run(cfg, front), a, c);
    WrittenIff(cfg, front, a, c);
    SavedAtStep(cfg, front, a, c);
    RecordAfter(cfg, front, a, c);
  }

  lemma RecordedIff(cfg: Config, actions: seq<Action>, s: State, c: string)
    requires RecordAsSaved(cfg, actions, s, c)
    ensures c in s.store <==> SavedAt(cfg, actions, c).Some?
  {
    hide SavedAt, Run;
  }

  lemma RunStep(cfg: Config, front: seq<Action>, a: Action)
    ensures Run(cfg, front + [a]) == Step(cfg, Run(cfg, front), a)
  {
    RunAppend(cfg, INIT, front, a);
    hide Step, RunFrom;
  }

  lemma RecordAfter(cfg: Config, front: seq<Action>, a: Action, c: string)
    requires var s, t := Run(cfg, front), Run(cfg, front + [a]);
             && RecordAsSaved(cfg, front, s, c) && RecordFollows(cfg, s, a, t, c)
             && (Dropped(s, a, c) <==> Forgets(cfg, front, a, c))
             && (!Dropped(s, a, c) ==> (Written(cfg, s, a, c) <==> Saves(cfg, front, a, c)))
    requires SavedAt(cfg, front + [a], c)
             == if Forgets(cfg, front, a, c) then None
                else if Saves(cfg, front, a, c) then Some(|front| + 1)
                else SavedAt(cfg, front, c)
    ensures RecordAsSaved(cfg, front + [a], Run(cfg, front + [a]), c)
  {
    hide Run, Dropped, Written, Forgets, Saves, SavedAt;
    assert (front + [a])[..|front| + 1] == front + [a];
    var k := SavedAt(cfg, front, c);
    if k.Some? {
      assert (front + [a])[..k.value] == front[..k.value];
    }
  }

  lemma SavedAtStep(cfg: Config, front: seq<Action>, a: Action, c: string)
    ensures SavedAt(cfg, front + [a], c)
            == if Forgets(cfg, front, a, c) then None
               else if Saves(cfg, front, a, c) then Some(|front| + 1)
               else SavedAt(cfg, front, c)
  {
    FrontOf(front, a);
    hide Forgets, Saves;
  }

  lemma AliveStep(cfg: Config, front: seq<Action>, a: Action, c: string)
    ensures Alive(cfg, front + [a], c) <==> Connects(a, c) || (Alive(cfg, front, c) && !Ends(cfg, front, a, c))
  {
    FrontOf(front, a);
    hide Ends;
  }

  lemma ConnectStep(cfg: Config, front: seq<Action>, a: Action, c: string)
    requires Connects(a, c)
    requires var s := Run(cfg, front); SessionAsCalled(cfg, front, s, c) && RecordAsSaved(cfg, front, s, c)
    requires var k := SavedAt(cfg, front, c);
             k.Some? ==> SessionAsCalled(cfg, front[..k.value], Run(cfg, front[..k.value]), c)
    ensures SessionAsCalled(cfg, front + [a], Run(cfg, front + [a]), c)
  {
    var s := Run(cfg, front);
    RunAppend(cfg, INIT, front, a);
    RunIsDurable(cfg, front);
    ConnectActive(cfg, s, a, c);
    AliveStep(cfg, front, a, c);
    assert c in s.store ==> !s.store[c].cleanSession;
    hide Run, Step, Durable, Reconnect, Resume, NewSession, Alive, SavedAt, AsCalled;
    if c in s.active {
      ReconnectAsCalled(cfg, front, a, c, s.active[c]);
    } else if !a.clean && c in s.store {
      ResumeAsCalled(cfg, front, a, c, s.store[c]);
    } else {
      NewAsCalled(cfg, front, a, c);
    }
  }

  lemma DisconnectStep(cfg: Config, front: seq<Action>, a: Action, c: string)
    requires Disconnects(a, c) && SessionAsCalled(cfg, front, Run(cfg, front), c)
    ensures SessionAsCalled(cfg, front + [a], Run(cfg, front + [a]), c)
  {
    var s := Run(cfg, front);
    RunAppend(cfg, INIT, front, a);
    RunIsDurable(cfg, front);
    OwnCallActive(cfg, s, a, c);
    AliveStep(cfg, front, a, c);
    hide Run, Step, Durable, Alive, AsCalled, Clean, CreatedAt, Interval, Online, Touched;
    if c in s.active {
      FlagsOf(cfg, front, c, s.active[c]);
      DisconnectAsCalled(cfg, front, a, c, s.active[c]);
    }
  }

  lemma ResubscribeStep(cfg: Config, front: seq<Action>, a: Action, c: string)
    requires Resubscribes(a, c) && SessionAsCalled(cfg, front, Run(cfg, front), c)
    ensures SessionAsCalled(cfg, front + [a], Run(cfg, front + [a]), c)
  {
    var s := Run(cfg, front);
    RunAppend(cfg, INIT, front, a);
    RunIsDurable(cfg, front);
    OwnCallActive(cfg, s, a, c);
    AliveStep(cfg, front, a, c);
    hide Run, Step, Durable, Alive, AsCalled, Clean;
    if c in s.active {
      ResubscribeAsCalled(cfg, front, a, c, s.active[c]);
    }
  }

  lemma SetWillStep(cfg: Config, front: seq<Action>, a: Action, c: string)
    requires a.SetWillAction? && a.clientID == c && SessionAsCalled(cfg, front, Run(cfg, front), c)
    ensures SessionAsCalled(cfg, front + [a], Run(cfg, front + [a]), c)
  {
    var s := Run(cfg, front);
    RunAppend(cfg, INIT, front, a);
    RunIsDurable(cfg, front);
    OwnCallActive(cfg, s, a, c);
    AliveStep(cfg, front, a, c);
    hide Run, Step, Durable, Alive, AsCalled, Clean;
    if c in s.active {
      SetWillAsCalled(cfg, front, a, c, s.active[c]);
    }
  }

  lemma DrawIDStep(cfg: Config, front: seq<Action>, a: Action, c: string)
    requires a.NextPacketIDAction? && a.clientID == c && SessionAsCalled(cfg, front, Run(cfg, front), c)
    ensures SessionAsCalled(cfg, front + [a], Run(cfg, front + [a]), c)
  {
    var s := Run(cfg, front);
    RunAppend(cfg, INIT, front, a);
    RunIsDurable(cfg, front);
    OwnCallActive(cfg, s, a, c);
    AliveStep(cfg, front, a, c);
    PacketIDInRange(cfg, front, c);
    hide Run, Step, Durable, Alive, AsCalled, Clean, PacketID, NextID;
    if c in s.active {
      FlagsOf(cfg, front, c, s.active[c]);
      NextPacketIDAsCalled(cfg, front, a, c, s.active[c]);
    }
  }

  lemma FlagsOf(cfg: Config, actions: seq<Action>, c: string, session: Session)
    requires AsCalled(cfg, actions, c, session)
    ensures FlagsAsCalled(cfg, actions, c, session) && session.packetIDCounter == PacketID(cfg, actions, c)
  {
    hide HoldsWill, FlagsAsCalled;
  }

  lemma OtherCallStep(cfg: Config, front: seq<Action>, a: Action, c: string)
    requires !Connects(a, c) && !Disconnects(a, c) && !Resubscribes(a, c)
    requires !((a.SetWillAction? || a.NextPacketIDAction?) && a.clientID == c)
    requires SessionAsCalled(cfg, front, Run(cfg, front), c)
    ensures SessionAsCalled(cfg, front + [a], Run(cfg, front + [a]), c)
  {
    var s, t := Run(cfg, front), Run(cfg, front + [a]);
    RunAppend(cfg, INIT, front, a);
    RunIsDurable(cfg, front);
    OtherCallActive(cfg, s, a, c);
    AliveStep(cfg, front, a, c);
    if c in s.active {
      FlagsOf(cfg, front, c, s.active[c]);
      hide Run, Step, Durable, Alive, AsCalled, Clean, Online, Touched, Interval, CreatedAt;
      OthersLeave(cfg, front, a, c, s.active[c]);
      if c in t.active {
        QueueIsNotRead(cfg, front + [a], c, s.active[c], t.active[c].queue);
      }
    }
  }

  lemma ClosedStep(cfg: Config, front: seq<Action>, a: Action)
    requires Run(cfg, front).closed <==> Closed(front)
    ensures Run(cfg, front + [a]).closed <==> Closed(front + [a])
  {
    FrontOf(front, a);
    RunAppend(cfg, INIT, front, a);
    hide RunFrom, WillsAfterDisconnect, MessageOf, Handed, HasMatch, FreshOnes, Expired;
  }

  /**
   Sessions are what the calls made them.  In every run, for every client: there is a session exactly when the client
   has connected and nothing has ended the session since; each of its fields, but for the queue, is given by the client's
   own last call about it; and the record in the store is the session as it stood right after the call that saved it
   last.
   */
  lemma {:induction false} SessionsAreCalls(cfg: Config, actions: seq<Action>, c: string)
    ensures SessionAsCalled(cfg, actions, Run(cfg, actions), c) && RecordAsSaved(cfg, actions, Run(cfg, actions), c)
    ensures Run(cfg, actions).closed <==> Closed(actions)
    decreases |actions|
  {
    if actions != [] {
      var front, a := actions[..|actions| - 1], actions[|actions| - 1];
      assert actions == front + [a];
      hide *;
      SessionsAreCalls(cfg, front, c);
      ClosedStep(cfg, front, a);
      RecordStep(cfg, front, a, c);
      var k := SavedAt(cfg, front, c);
      if k.Some? {
        SessionsAreCalls(cfg, front[..k.value], c);
      }
      if Connects(a, c) {
        ConnectStep(cfg, front, a, c);
      } else if Disconnects(a, c) {
        DisconnectStep(cfg, front, a, c);
      } else if Resubscribes(a, c) {
        ResubscribeStep(cfg, front, a, c);
      } else if a.SetWillAction? && a.clientID == c {
        SetWillStep(cfg, front, a, c);
      } else if a.NextPacketIDAction? && a.clientID == c {
        DrawIDStep(cfg, front, a, c);
      } else {
        OtherCallStep(cfg, front, a, c);
      }
    }
  }

  // ----- What a cleanup drops -----

  /**
   After any run, a cleanup drops a session exactly when the client's last connect or disconnect is a disconnect and
   more than the session's interval has passed since the client's last call.  Every field but the queue of a session that
   stays is as before; the record goes exactly when the session does, and a record without a session stays.
   */
  lemma CleanupDecides(cfg: Config, actions: seq<Action>, c: string, now: int)
    ensures var s, t := Run(cfg, actions), Run(cfg, actions + [CleanupAction(now)]);
            && (c in s.active ==>
                  && (c in t.active <==> Online(actions, c) || now <= Touched(actions, c) + Interval(cfg, actions, c))
                  && (c in t.active ==> t.active[c] == s.active[c].(queue := t.active[c].queue))
                  && (c in t.store <==> c in t.active && c in s.store)
                  && (!s.active[c].cleanSession ==> c in s.store))
            && (c !in s.active ==> c !in t.active && At(t.store, c) == At(s.store, c))
  {
    var s, a := Run(cfg, actions), CleanupAction(now);
    RunAppend(cfg, INIT, actions, a);
    RunIsDurable(cfg, actions);
    SessionsAreCalls(cfg, actions, c);
    OtherCallActive(cfg, s, a, c);
    StepFollows(cfg, s, a, c);
    if c in s.active {
      FlagsOf(cfg, actions, c, s.active[c]);
    }
    hide Run, Step, AsCalled, HoldsWill, Online, Touched, Interval, Clean, CreatedAt, FreshOnes, Alive;
  }

  // ----- Packet IDs -----

  /** How many packet IDs are drawn for a client. */
  function Draws(actions: seq<Action>, c: string): nat {
    if actions == [] then 0
    else
      var a := actions[|actions| - 1];
      Draws(actions[..|actions| - 1], c) + if a.NextPacketIDAction? && a.clientID == c then 1 else 0
  }

  /** The n-th ID after p. */
  function Further(p: nat, n: nat): nat
    requires p > 0
  {
    (p - 1 + n) % 65535 + 1
  }

  lemma OneFurther(p: nat, n: nat)
    requires p > 0
    ensures Further(p, n) % 65535 + 1 == Further(p, n + 1)
  {
  }

  lemma NoneFurther(p: nat, n: nat)
    requires 1 <= p <= 65535
    ensures Further(p, 0) == p
    ensures 0 < n < 65535 ==> Further(p, n) != p
  {
  }

  lemma DrawStep(cfg: Config, front: seq<Action>, a: Action, c: string)
    requires !Connects(a, c)
    ensures PacketID(cfg, front + [a], c)
            == if a.NextPacketIDAction? && a.clientID == c then PacketID(cfg, front, c) % 65535 + 1
               else PacketID(cfg, front, c)
  {
    FrontOf(front, a);
    hide Alive, TakesUp, SavedAt;
  }

  lemma DrawsStep(front: seq<Action>, a: Action, c: string)
    ensures Draws(front + [a], c) == Draws(front, c) + if a.NextPacketIDAction? && a.clientID == c then 1 else 0
  {
    FrontOf(front, a);
  }

  lemma NoDraws(c: string)
    ensures Draws([], c) == 0
  {
  }

  /** Whatever else happens, short of a connect, the n-th draw from now gives the n-th ID from here round the cycle. */
  lemma {:induction false} PacketIDsCycle(cfg: Config, actions: seq<Action>, more: seq<Action>, c: string)
    requires forall a <- more :: !Connects(a, c)
    ensures PacketID(cfg, actions, c) > 0
    ensures PacketID(cfg, actions + more, c) == Further(PacketID(cfg, actions, c), Draws(more, c))
  {
    hide *;
    var p := PacketID(cfg, actions, c);
    PacketIDInRange(cfg, actions, c);
    if more == [] {
      assert actions + more == actions;
      NoDraws(c);
      NoneFurther(p, 0);
    } else {
      var front, a := more[..|more| - 1], more[|more| - 1];
      assert more == front + [a] && actions + more == (actions + front) + [a];
      PacketIDsCycle(cfg, actions, front, c);
      DrawStep(cfg, actions + front, a, c);
      DrawsStep(front, a, c);
      OneFurther(p, Draws(front, c));
    }
  }

  /** Fewer than 65535 draws after one another never give an ID twice. */
  lemma PacketIDsDiffer(cfg: Config, actions: seq<Action>, more: seq<Action>, c: string)
    requires c in Run(cfg, actions).active && c in Run(cfg, actions + more).active
    requires (forall a <- more :: !Connects(a, c)) && 0 < Draws(more, c) < 65535
    ensures Run(cfg, actions).active[c].packetIDCounter != Run(cfg, actions + more).active[c].packetIDCounter
  {
    hide *;
    SessionsAreCalls(cfg, actions, c);
    SessionsAreCalls(cfg, actions + more, c);
    PacketIDsCycle(cfg, actions, more, c);
    PacketIDInRange(cfg, actions, c);
    NoneFurther(PacketID(cfg, actions, c), Draws(more, c));
    PacketIDIs(cfg, actions, c);
    PacketIDIs(cfg, actions + more, c);
  }

  lemma PacketIDIs(cfg: Config, actions: seq<Action>, c: string)
    requires SessionAsCalled(cfg, actions, Run(cfg, actions), c) && c in Run(cfg, actions).active
    ensures Run(cfg, actions).active[c].packetIDCounter == PacketID(cfg, actions, c)
  {
    hide HoldsWill, FlagsAsCalled, Run;
  }
}
