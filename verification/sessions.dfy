/**
 Persistent sessions, the offline queue and will messages: pkg/persistent/session.go, offline.go and will.go.

 `State` is everything the three managers hold, plus the key-value store.  `Step` is one public call, one turn of the
 cleanup routine, one timer that goes off, or the loss of the process.  Clock readings (nanoseconds) are parameters,
 the JSON round trip through the store is the identity, and store writes succeed.
 */
module Sessions {
  import opened Common
  import Topics

  // ----- Data -----

  type Bytes = seq<bv8>

  datatype QueuedMessage = QueuedMessage(
    topic: string, payload: Bytes, qos: nat, retain: bool, timestamp: int, expiryTime: Option<int>)

  /** `serial` stands for the identity of the allocated WillMessage: every SetWillMessage makes a new one. */
  datatype Will = Will(serial: nat, topic: string, payload: Bytes, qos: nat, retain: bool, delayInterval: int)

  datatype Session = Session(
    clientID: string, cleanSession: bool, connected: bool, createdAt: int, lastActivity: int, expiryInterval: int,
    subscriptions: map<string, nat>, packetIDCounter: nat, queue: seq<QueuedMessage>, will: Option<Will>)

  /** `matches` is the topic matcher that the broker passes to the offline manager. */
  datatype Settings = Settings(
    maxOfflineMessages: nat, messageExpiryInterval: int, defaultSessionExpiry: int, matches: (string, string) -> bool)

  const HOUR: int := 3_600_000_000_000

  /** With a cap of zero the code slices an empty queue, so the cap is positive. */
  type Config = c: Settings | c.maxOfflineMessages > 0
    witness Settings(10000, 24 * HOUR, 24 * HOUR, Topics.BasicTopicMatch)

  datatype TimerID = TimerID(clientID: string, nanos: int)

  /** `handle` stands for the identity of the runtime timer. */
  datatype Timer = Timer(id: TimerID, handle: nat, will: Will, clientID: string, due: int)

  datatype Publication = Publication(clientID: string, will: Will)

  /** `timers` is the manager's map; `armed` are the runtime timers that may still go off. */
  datatype WillState = WillState(
    timers: map<TimerID, Timer>, armed: map<nat, Timer>, nextHandle: nat, published: seq<Publication>)

  datatype State = State(
    active: map<string, Session>, store: map<string, Session>, wills: WillState, nextWill: nat, closed: bool)

  const NO_WILLS := WillState(map[], map[], 0, [])

  const INIT := State(map[], map[], NO_WILLS, 0, false)

  // ----- Will messages (will.go) -----

  function PublishNow(w: WillState, will: Will, clientID: string): WillState {
    w.(published := w.published + [Publication(clientID, will)])
  }

  function Schedule(w: WillState, will: Will, clientID: string, now: int): WillState {
    var timer := Timer(TimerID(clientID, now), w.nextHandle, will, clientID, now + will.delayInterval);
    w.(timers := w.timers[timer.id := timer],
       armed := w.armed[timer.handle := timer],
       nextHandle := w.nextHandle + 1)
  }

  function PublishWill(w: WillState, will: Will, clientID: string, now: int): WillState {
    if will.delayInterval > 0 then Schedule(w, will, clientID, now) else PublishNow(w, will, clientID)
  }

  /** The map entries of a client are dropped and their timers stopped. */
  function CancelWills(w: WillState, clientID: string): WillState {
    var gone := set id <- w.timers | w.timers[id].clientID == clientID;
    var stopped := set id <- gone :: w.timers[id].handle;
    w.(timers := w.timers - gone, armed := w.armed - stopped)
  }

  function CloseWills(w: WillState): WillState {
    var stopped := set id <- w.timers :: w.timers[id].handle;
    w.(timers := map[], armed := w.armed - stopped)
  }

  /** A timer that goes off removes the map entry under its ID and publishes. */
  function FireTimer(w: WillState, handle: nat, now: int): WillState {
    if handle !in w.armed || now < w.armed[handle].due then w
    else
      var timer := w.armed[handle];
      PublishNow(w.(timers := w.timers - {timer.id}, armed := w.armed - {handle}), timer.will, timer.clientID)
  }

  // ----- Sessions (session.go) -----

  function NewSession(cfg: Config, clientID: string, clean: bool, expiryInterval: int, now: int): Session {
    var expiry := if expiryInterval == 0 then cfg.defaultSessionExpiry else expiryInterval;
    Session(clientID, clean, true, now, now, expiry, map[], 1, [], None)
  }

  function Reconnect(s: Session, clean: bool, now: int): Session {
    var t := s.(connected := true, lastActivity := now);
    if clean then t.(cleanSession := true, subscriptions := map[], queue := [], will := None) else t
  }

  function Resume(s: Session, expiryInterval: int, now: int): Session {
    s.(connected := true, lastActivity := now,
       expiryInterval := if expiryInterval > 0 then expiryInterval else s.expiryInterval)
  }

  function Connect(cfg: Config, s: State, clientID: string, clean: bool, expiryInterval: int, now: int): State {
    if clientID in s.active then
      s.(active := s.active[clientID := Reconnect(s.active[clientID], clean, now)])
    else if !clean && clientID in s.store then
      s.(active := s.active[clientID := Resume(s.store[clientID], expiryInterval, now)])
    else
      Keep(s, NewSession(cfg, clientID, clean, expiryInterval, now))
  }

  /** Puts a changed session back, and into the store unless it is a clean session. */
  function Keep(s: State, session: Session): State {
    s.(active := s.active[session.clientID := session],
       store := if session.cleanSession then s.store else s.store[session.clientID := session])
  }

  function Forget(s: State, clientID: string): State {
    s.(active := s.active - {clientID}, store := s.store - {clientID})
  }

  function WillsAfterDisconnect(w: WillState, session: Session, clientID: string, graceful: bool, now: int): WillState {
    if !graceful && session.will.Some? then PublishWill(w, session.will.value, clientID, now)
    else if graceful then CancelWills(w, clientID)
    else w
  }

  function Disconnect(s: State, clientID: string, graceful: bool, now: int): State {
    if clientID !in s.active then s
    else
      var session := s.active[clientID];
      var t := s.(wills := WillsAfterDisconnect(s.wills, session, clientID, graceful, now));
      if session.cleanSession then Forget(t, clientID)
      else Keep(t, session.(connected := false, lastActivity := now, will := None))
  }

  function Subscribe(s: State, clientID: string, topic: string, qos: nat, now: int): State {
    if clientID !in s.active then s
    else
      var session := s.active[clientID];
      Keep(s, session.(subscriptions := session.subscriptions[topic := qos], lastActivity := now))
  }

  function Unsubscribe(s: State, clientID: string, topic: string, now: int): State {
    if clientID !in s.active then s
    else
      var session := s.active[clientID];
      Keep(s, session.(subscriptions := session.subscriptions - {topic}, lastActivity := now))
  }

  function SetWill(s: State, clientID: string, topic: string, payload: Bytes, qos: nat, retain: bool, delay: int): State {
    if clientID !in s.active then s
    else
      var will := Will(s.nextWill, topic, payload, qos, retain, delay);
      s.(active := s.active[clientID := s.active[clientID].(will := Some(will))], nextWill := s.nextWill + 1)
  }

  function MessageOf(cfg: Config, topic: string, payload: Bytes, qos: nat, retain: bool, now: int): QueuedMessage {
    QueuedMessage(topic, payload, qos, retain, now,
                  if cfg.messageExpiryInterval > 0 then Some(now + cfg.messageExpiryInterval) else None)
  }

  /** Messages are queued only for a persistent session whose client is away. */
  predicate Queues(session: Session) {
    !session.connected && !session.cleanSession
  }

  function Enqueue(cfg: Config, session: Session, m: QueuedMessage): Session {
    var room := if |session.queue| >= cfg.maxOfflineMessages then session.queue[1..] else session.queue;
    session.(queue := room + [m])
  }

  function Queue(cfg: Config, s: State, clientID: string, m: QueuedMessage): State {
    if clientID !in s.active || !Queues(s.active[clientID]) then s
    else Keep(s, Enqueue(cfg, s.active[clientID], m))
  }

  function NextPacketID(s: State, clientID: string): State {
    if clientID !in s.active then s
    else
      var session := s.active[clientID];
      var next := (session.packetIDCounter + 1) % 0x1_0000;
      s.(active := s.active[clientID := session.(packetIDCounter := if next == 0 then 1 else next)])
  }

  /** The cleanup routine's test: strictly before the expiry instant. */
  predicate Fresh(m: QueuedMessage, now: int) {
    m.expiryTime.None? || now < m.expiryTime.value
  }

  function FreshOnes(q: seq<QueuedMessage>, now: int): seq<QueuedMessage> {
    if q == [] then []
    else FreshOnes(q[..|q| - 1], now) + (if Fresh(q[|q| - 1], now) then [q[|q| - 1]] else [])
  }

  lemma {:induction false} FreshOnesShrink(q: seq<QueuedMessage>, now: int)
    ensures |FreshOnes(q, now)| <= |q|
    ensures |FreshOnes(q, now)| == |q| ==> FreshOnes(q, now) == q
  {
    if q != [] {
      FreshOnesShrink(q[..|q| - 1], now);
      assert q == q[..|q| - 1] + [q[|q| - 1]];
    }
  }

  predicate Expired(session: Session, now: int) {
    !session.connected && now - session.lastActivity > session.expiryInterval
  }

  function Cleaned(session: Session, now: int): Session {
    session.(queue := FreshOnes(session.queue, now))
  }

  /** Sessions whose queue shrinks are saved again. */
  predicate SavedByCleanup(session: Session, now: int) {
    !Expired(session, now) && !session.cleanSession && |FreshOnes(session.queue, now)| != |session.queue|
  }

  function Cleanup(s: State, now: int): State {
    var saved := set c <- s.active | SavedByCleanup(s.active[c], now);
    var gone := set c <- s.active | Expired(s.active[c], now);
    s.(active := map c | c in s.active && c !in gone :: Cleaned(s.active[c], now),
       store := map c | c in s.store.Keys + saved && c !in gone ::
                  if c in saved then Cleaned(s.active[c], now) else s.store[c])
  }

  function Close(s: State): State {
    if s.closed then s
    else
      var saved := set c <- s.active | !s.active[c].cleanSession;
      s.(closed := true,
         wills := CloseWills(s.wills),
         store := map c | c in s.store.Keys + saved :: if c in saved then s.active[c] else s.store[c])
  }

  /** The process ends: only the store survives. */
  function Crash(s: State): State {
    State(map[], s.store, s.wills.(timers := map[], armed := map[]), s.nextWill, false)
  }

  // ----- Offline messages (offline.go) -----

  /** The delivery loop's test: not after the expiry instant. */
  predicate Live(m: QueuedMessage, now: int) {
    m.expiryTime.None? || now <= m.expiryTime.value
  }

  /** The delivery loop reads the clock for every message; `lags` is by how much each reading is later than the first. */
  function Reading(now: int, lags: seq<nat>, i: nat): int {
    now + if i < |lags| then lags[i] else 0
  }

  /** The messages that are live when the loop comes to them. */
  function LiveOnes(q: seq<QueuedMessage>, now: int, lags: seq<nat>): seq<QueuedMessage> {
    if q == [] then []
    else
      var k := |q| - 1;
      LiveOnes(q[..k], now, lags) + (if Live(q[k], Reading(now, lags, k)) then [q[k]] else [])
  }

  datatype Delivery = Delivery(handed: seq<QueuedMessage>, ok: bool)

  /** `failAt` is the position at which the delivery callback reports an error, if it is reached. */
  function Deliveries(q: seq<QueuedMessage>, failAt: Option<nat>, now: int, lags: seq<nat>): Delivery {
    if failAt.Some? && failAt.value < |q| && Live(q[failAt.value], Reading(now, lags, failAt.value))
    then Delivery(LiveOnes(q[..failAt.value], now, lags), false)
    else Delivery(LiveOnes(q, now, lags), true)
  }

  /** What a delivery hands to the client: nothing without a callback, a session or a connection. */
  function Handed(s: State, clientID: string, registered: bool, failAt: Option<nat>, now: int, lags: seq<nat>): Delivery {
    if !registered || clientID !in s.active || !s.active[clientID].connected then Delivery([], false)
    else Deliveries(s.active[clientID].queue, failAt, now, lags)
  }

  function Deliver(s: State, clientID: string, registered: bool, failAt: Option<nat>, now: int, lags: seq<nat>): State {
    if clientID in s.active && Handed(s, clientID, registered, failAt, now, lags).ok
    then Keep(s, s.active[clientID].(queue := []))
    else s
  }

  predicate HasMatch(cfg: Config, session: Session, topic: string) {
    exists f <- session.subscriptions :: cfg.matches(topic, f)
  }

  /** The clients for which QueueMessageForOfflineClients queues a message. */
  function Recipients(cfg: Config, s: State, topic: string): set<string> {
    set c <- s.active | Queues(s.active[c]) && HasMatch(cfg, s.active[c], topic)
  }

  /** A message for all offline clients; the clock is read for each of them, from `now` on and not after `until`. */
  datatype Post = Post(
    topic: string, payload: Bytes, qos: nat, retain: bool, now: int, until: int, readings: map<string, int>)

  function StampFor(p: Post, c: string): int {
    if c in p.readings && p.now <= p.readings[c] <= p.until then p.readings[c] else p.now
  }

  function MessageFor(cfg: Config, p: Post, c: string): QueuedMessage {
    MessageOf(cfg, p.topic, p.payload, p.qos, p.retain, StampFor(p, c))
  }

  function QueueOffline(cfg: Config, s: State, p: Post): State {
    var to := Recipients(cfg, s, p.topic);
    s.(active := map c | c in s.active ::
                   if c in to then Enqueue(cfg, s.active[c], MessageFor(cfg, p, c)) else s.active[c],
       store := map c | c in s.store.Keys + to ::
                  if c in to then Enqueue(cfg, s.active[c], MessageFor(cfg, p, c)) else s.store[c])
  }

  // ----- Runs -----

  datatype Action =
    | ConnectAction(clientID: string, clean: bool, expiryInterval: int, now: int)
    | DisconnectAction(clientID: string, graceful: bool, now: int)
    | SubscribeAction(clientID: string, topic: string, qos: nat, now: int)
    | UnsubscribeAction(clientID: string, topic: string, now: int)
    | SetWillAction(clientID: string, topic: string, payload: Bytes, qos: nat, retain: bool, delay: int)
    | QueueAction(clientID: string, topic: string, payload: Bytes, qos: nat, retain: bool, now: int)
    | QueueOfflineAction(post: Post)
    | NextPacketIDAction(clientID: string)
    | DeliverAction(clientID: string, registered: bool, failAt: Option<nat>, now: int, lags: seq<nat>)
    | CleanupAction(now: int)
    | FireAction(handle: nat, now: int)
    | CancelAction(clientID: string)
    | CloseAction
    | CrashAction

  function Step(cfg: Config, s: State, a: Action): State {
    match a
    case ConnectAction(c, clean, expiryInterval, now) => Connect(cfg, s, c, clean, expiryInterval, now)
    case DisconnectAction(c, graceful, now) => Disconnect(s, c, graceful, now)
    case SubscribeAction(c, topic, qos, now) => Subscribe(s, c, topic, qos, now)
    case UnsubscribeAction(c, topic, now) => Unsubscribe(s, c, topic, now)
    case SetWillAction(c, topic, payload, qos, retain, delay) => SetWill(s, c, topic, payload, qos, retain, delay)
    case QueueAction(c, topic, payload, qos, retain, now) =>
      Queue(cfg, s, c, MessageOf(cfg, topic, payload, qos, retain, now))
    case QueueOfflineAction(post) => QueueOffline(cfg, s, post)
    case NextPacketIDAction(c) => NextPacketID(s, c)
    case DeliverAction(c, registered, failAt, now, lags) => Deliver(s, c, registered, failAt, now, lags)
    case CleanupAction(now) => Cleanup(s, now)
    case FireAction(handle, now) => s.(wills := FireTimer(s.wills, handle, now))
    case CancelAction(c) => s.(wills := CancelWills(s.wills, c))
    case CloseAction => Close(s)
    case CrashAction => Crash(s)
  }

  function RunFrom(cfg: Config, s: State, actions: seq<Action>): State {
    if actions == [] then s else Step(cfg, RunFrom(cfg, s, actions[..|actions| - 1]), actions[|actions| - 1])
  }

  function Run(cfg: Config, actions: seq<Action>): State {
    RunFrom(cfg, INIT, actions)
  }

  lemma RunAppend(cfg: Config, s: State, actions: seq<Action>, a: Action)
    ensures RunFrom(cfg, s, actions + [a]) == Step(cfg, RunFrom(cfg, s, actions), a)
  {
    assert (actions + [a])[..|actions|] == actions;
  }

  lemma {:induction false} RunConcat(cfg: Config, s: State, actions: seq<Action>, more: seq<Action>)
    ensures RunFrom(cfg, s, actions + more) == RunFrom(cfg, RunFrom(cfg, s, actions), more)
  {
    if more == [] {
      assert actions + more == actions;
    } else {
      var k := |more| - 1;
      RunConcat(cfg, s, actions, more[..k]);
      assert actions + more == (actions + more[..k]) + [more[k]];
      RunAppend(cfg, s, actions + more[..k], more[k]);
    }
  }
}
