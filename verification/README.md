# Verified models of emqx-go

emqx-go is an MQTT broker.  This project models the parts of it that keep state which several calls must agree on, and
proves what those parts promise over whole runs.  Every public method of the broker is one step of a state machine; the
clock, the order in which Go walks a map and the outcome of a callback are parameters, so the results hold for all of
them.

| file | models |
|---|---|
| `replication.dfy`, `replay_order.dfy`, `last_calls.dfy` | the Mria replication log: emit, keep a thousand entries, apply, catch up, apply out of order; its tables and entries read off the calls |
| `sessions.dfy` and `session_manager.dfy` | the persistent session manager, its offline queue and its will messages: a state machine, and the classes that implement it |
| `durable_mirror.dfy`, `offline_queue.dfy`, `wills.dfy`, `delayed_wills.dfy` | what runs of that machine guarantee |
| `session_calls.dfy`, `offline_calls.dfy`, `will_calls.dfy` | its sessions, records, queued messages and wills read off the calls |
| `high_water.dfy` | the lock-free maxima of the metrics, instruction by instruction |
| `topics.dfy` | three topic matchers against section 4.7.1 of MQTT 3.1.1 |
| `blacklist.dfy`, `blacklist_stats.dfy`, `blacklist_calls.dfy` | the blacklist indexes against a scan of all entries, its statistics, and its entries and answers read off the calls |
| `duplicates.dfy` | the QoS 1 duplicate window against the arrival history |
| `route_table.dfy`, `remote_routes.dfy`, `site_events.dfy`, `site_log.dfy` | routes of the Mria broker integration against its local clients, and against those of other nodes; clients and rows read off the events; what it sends |
| `cluster.dfy`, `announcements.dfy` | one-hop forwarding between cluster nodes over a network that reorders and loses messages; who is forwarded what, read off the steps |
| `election.dfy` | leader election and its notifications |
| `delivery.dfy` | overlapping subscriptions, section 3.3.5 of MQTT 3.1.1 |
| `json_path.dfy`, `json_objects.dfy` | dotted paths into JSON documents, on value trees and on maps changed in place |
| `rules.dfy` | priority order and running mean of the rule engine |
| `common.dfy` | shared value types |

Code that changes objects is modelled by classes with the same fields.  Each method is proved equal to a transition
function on values (`View() == F(old(View()), ...)`), loops and all, and the lemmas are about runs of those transitions.

For each of these state machines one group of lemmas computes what the state should be from the list of calls alone, as
what the last call about it said, without looking at how the transition function decides, and proves that after every
run it is that: `LastCalls.RowsAreLastCalls`, `SiteEvents.LocalClientsIff`, `Announcements.ListedIff`,
`SessionCalls.SessionsAreCalls`, `OfflineCalls.HistoryIsCalls`, `WillCalls.WillsAreCalls`,
`BlacklistCalls.FieldsAreLastGiven`, `HighWater.CountIsExpected`.

`dafny verify dfyconfig.toml` verifies everything.

## Where the code falls short of its intent

Each item names the lemma with the exact condition under which the property holds, and one with a failing case where
that adds something.

- The two topic matchers differ on every filter with "#" elsewhere than as the whole last level
  (`Topics.MatchersAgreeIff`); the simplified one misses every other wildcard (`Topics.BasicAgreesWithRetainerIff`,
  `Topics.BasicAgreesWithRecursiveIff`).
- A value shared by two blacklist entries, or an update with a bad pattern, takes an entry out of every index
  (`Blacklist.StepKeeps`, `Blacklist.SharedValueEscapes`, `Blacklist.BadPatternEscapes`).
- An update that changes the action of a blacklist entry leaves the counts by action wrong
  (`BlacklistStats.ReactionCountsStepIff`).
- A session switched to clean while active is not clean in the store (`DurableMirror.CrashRecoveryIff`,
  `DurableMirror.CleanSwitchIsNotDurable`).
- Two will timers of one client at one instant share an ID, and a cancel stops one of them
  (`DelayedWills.GracefulDisconnectIsFinalIff`, `DelayedWills.SharedTimerIDEscapes`); a reconnect does not cancel a
  delayed will (`DelayedWills.ReconnectDoesNotCancel`).
- Entries for one row that arrive swapped leave a replicant wrong until the next entry for the row
  (`ReplayOrder.ReorderedReplayConvergesIff`, `ReplayOrder.RowAgreesIff`).
- A replicated route can drop a node from a route it still serves (`RouteTable.ReceiveRouteIff`), and the withdrawal of
  one of two subscriptions of another node drops that node (`RemoteRoutes.StepListedIff`,
  `RemoteRoutes.SharedFilterBreaks`).
- An empty node ID makes the election depend on map order and hides notifications (`Election.OrderMattersIff`,
  `Election.NotificationsFaithfulIff`).
- Publishes forwarded by another node are delivered once per subscription, at QoS 0 and without their properties
  (`Delivery.RoutesAgreeIff`, `Delivery.ForwardedAgreesIff`).
- A replicant takes over the version of the entry it applies last, out of order also an older one
  (`ReplayOrder.VersionIsOfLastEntry`).
- Subscriptions of two clients share a row when one client ID continues the other after a colon
  (`LastCalls.SharedRowIff`).
- An update of a blacklist entry that fails on its pattern has changed value and pattern, but not what is matched
  (`BlacklistCalls.FieldsAreLastGiven`).
- AddSession labels every entry UPDATE although its code means to tell new sessions apart
  (`Replication.AddSessionIsAlwaysUpdate`).

## Model

| member | source | states |
|---|---|---|
| `Replication.ReplayCorrectness` | pkg/mria/replication.go:147-344 | For every sequence of calls on a core node and every k, applying the first k emitted entries to an empty replicant gives exactly the tables and version the core had after its k-th successful call; failed removals emit nothing |
| `Replication.ApplyMirrorsExecute` | pkg/mria/replication.go:539-588 | One successful call: applying its entry to the sender's old tables and version gives the sender's new ones, for all five operations |
| `Replication.VersionsAreConsecutive` | pkg/mria/replication.go:529-536 | In every run the entries carry versions 1, 2, 3, ... and ID numbers 1, 2, 3, ... without a gap |
| `Replication.LogIsNewestSuffix` | pkg/mria/replication.go:446-454 | In every run the kept log is exactly the newest min(n, 1000) of the n processed entries, and the channel holds exactly the entries not processed yet |
| `Replication.KeptLogIsCompleteIff` | pkg/mria/replication.go:446-463 | The kept log offers every entry a replicant at version v is missing if and only if v is at or past the horizon n - min(n, 1000) |
| `Replication.CatchUp` | pkg/mria/replication.go:446-463 | A replicant at any version v from the horizon on reaches the core's n-th state by applying only the kept entries above v |
| `Replication.RunKeepsKeys` | pkg/mria/replication.go:147-344 | In every run each row of the three tables is stored under its own key |
| `Replication.ApplyKeepsKeys` | pkg/mria/replication.go:559-647 | Applying any entry, also one that no core sent, keeps rows under their own keys |
| `Replication.AddSessionIsAlwaysUpdate` | pkg/mria/replication.go:228-270 | The entry of AddSession is labelled UPDATE even for a session that was not there |
| `LastCalls.RowsAreLastCalls` | pkg/mria/replication.go:147-344 | After every run, on either role, each row of each table is absent if there was no call about it or the last one removed it; otherwise client, filter, QoS, flags, expiry and node list are the arguments of that call, and the node is this one |
| `LastCalls.EntriesAreCalls` | pkg/mria/replication.go:147-344 | In every run of a core node the i-th entry sent tells of the i-th call that took effect: its clock reading, row, arguments and label, with version and number i; no other entry is sent |
| `LastCalls.SucceedsIff` | pkg/mria/replication.go:187-308 | A removal succeeds if and only if the last call about its row put something there; every other call succeeds |
| `LastCalls.ReplicantFollowsCalls` | pkg/mria/replication.go:539-647 | After any k entries each row of a replicant is what the last call about it left there, among the calls up to the k-th that took effect |
| `LastCalls.ReplicantSendsNothing` | pkg/mria/replication.go:147-344 | In every run a node that is no core node sends, numbers and logs nothing |
| `LastCalls.SharedRowIff` | pkg/mria/replication.go:148 | Two subscriptions share a row if and only if they are the same, or one client ID is the other with a colon and more, and the filter of the other makes up for it |
| `Common.LastOfAppend` | pkg/mria/replication.go:450-454 | Trimming the log after each append keeps the same entries as trimming the whole history once |
| `Replication.ReplicationManager.AddSubscription` | pkg/mria/replication.go:147-184 | Updates table, version, log ID and channel in place as the transition of the run model says |
| `Replication.ReplicationManager.RemoveSubscription` | pkg/mria/replication.go:187-225 | The same; reports an error and changes nothing when the row is missing |
| `Replication.ReplicationManager.AddSession` | pkg/mria/replication.go:228-270 | The same for sessions; after every run of such calls the row holds the arguments of the last one, flag by flag (`LastCalls.RowsAreLastCalls`) |
| `Replication.ReplicationManager.RemoveSession` | pkg/mria/replication.go:273-308 | The same; reports an error and changes nothing when the session is missing |
| `Replication.ReplicationManager.UpdateRoute` | pkg/mria/replication.go:311-344 | The same for routes |
| `Replication.ReplicationManager.ProcessReplicationLog` | pkg/mria/replication.go:446-463 | Takes the oldest entry off the channel into the log and trims the log |
| `Replication.ReplicationManager.ApplyReplicationLog` | pkg/mria/replication.go:539-556 | Applies an entry to the table it names, and to no other; an unknown table is an error that changes nothing |
| `Replication.ReplicationManager.ApplySubscriptionChange` | pkg/mria/replication.go:559-588 | Inserts, replaces or deletes one subscription and takes over the entry's version |
| `Replication.ReplicationManager.ApplySessionChange` | pkg/mria/replication.go:591-618 | The same for one session |
| `Replication.ReplicationManager.ApplyRouteChange` | pkg/mria/replication.go:621-647 | The same for one route |
| `ReplayOrder.DeliveryOrdersAgree` | pkg/mria/replication.go:539-647 | From any state, two delivery orders of one log that keep the relative order of entries for the same row leave identical tables |
| `ReplayOrder.ReorderedReplayConverges` | pkg/cluster/manager.go:185-189 | For every run of a core node, any delivery order that keeps the order per row brings an empty replicant to the core's tables |
| `ReplayOrder.RowOrderDeterminesTables` | pkg/mria/replication.go:539-647 | Two entry lists that agree row by row leave the same tables, whatever else differs |
| `ReplayOrder.ReplayAtRow` | pkg/mria/replication.go:539-647 | A row after a replay is a function of the entries that touch it and of its old content alone |
| `ReplayOrder.ApplyIsLocal` | pkg/mria/replication.go:559-647 | An entry changes the row it names as INSERT, UPDATE or DELETE says and no other row |
| `ReplayOrder.VersionIsOfLastEntry` | pkg/mria/replication.go:539-647 | After any entries the version is that of the last one for a known table, also when it is the older |
| `ReplayOrder.DeliveryOrdersAgreeIff` | pkg/mria/replication.go:539-647 | Two delivery orders of one log leave the same tables, from any start, if and only if for every row the entries that arrive last make the same of it |
| `ReplayOrder.ReorderedReplayConvergesIff` | pkg/cluster/manager.go:185-189 | For every run of a core node, a delivery order brings an empty replicant to the core's tables if and only if the last entry to arrive for every row makes of it what the last one sent does |
| `ReplayOrder.TablesAgreeIff` | pkg/mria/replication.go:539-647 | Any two entry lists, also when entries are missing from one, leave the same tables if and only if for every row the last entry that settles it, or the old content when there is none, comes out the same |
| `ReplayOrder.RowAgreesIff` | pkg/mria/replication.go:559-647 | After any two histories followed by the same entries, a row agrees if and only if it agreed before or one of those entries settles it: divergence lasts until the next entry for the row |
| `ReplayOrder.SwappedRowDiverges` | pkg/mria/replication.go:559-588 | Divergence happens: after an insert and its delete are swapped, the row agrees with the core's if and only if a later entry settles it |
| `DurableMirror.RunIsDurable` | pkg/persistent/session.go:181-641 | In every reachable state each active session that is not clean has a stored record with the same subscriptions and queue |
| `DurableMirror.StepKeeps` | pkg/persistent/session.go:181-641 | Every call keeps that invariant, from any state that satisfies it |
| `DurableMirror.CrashRecoveryIff` | pkg/persistent/session.go:181-274 | After any run, losing the memory and resuming without the clean flag restores subscriptions and queue of an active session if and only if it is not clean, or the record it left behind (or the lack of one) happens to match; whatever but a connect of that client comes between |
| `DurableMirror.CrashRecovery` | pkg/persistent/session.go:181-274 | In particular every session that is not clean is restored |
| `DurableMirror.RecordStays` | pkg/persistent/session.go:181-641 | A client that is not active keeps its record, or the lack of one, through every call but its own connect |
| `DurableMirror.CleanSwitchIsNotDurable` | pkg/persistent/session.go:191-199 | The failing case occurs: a session switched to clean while active gets its old subscriptions back after a crash |
| `SessionCalls.SessionsAreCalls` | pkg/persistent/session.go:181-641 | In every run, for every client: there is a session if and only if the client has connected and no disconnect of a clean session, late cleanup or crash came since; its flags, times, interval, subscriptions, packet ID and will are those of the client's own last calls; the stored record is the session as it stood right after the call that saved it last |
| `SessionCalls.CleanupDecides` | pkg/persistent/session.go:575-641 | After any run a cleanup keeps a session if and only if the client's last connect or disconnect is a connect or its interval since its last call has not passed; what stays is unchanged but for the queue, the record goes if and only if the session does, and a record without a session stays |
| `SessionCalls.PacketIDsCycle` | pkg/persistent/session.go:452-469 | Until the next connect, the n-th draw gives the n-th ID from here round the cycle 1..65535, whatever else happens |
| `SessionCalls.PacketIDsDiffer` | pkg/persistent/session.go:452-469 | In every run fewer than 65535 draws after one another give no ID twice |
| `OfflineQueue.PushTracks` | pkg/persistent/session.go:415-424 | Dropping the oldest message at the cap keeps the queue equal to the last messages of the history |
| `OfflineQueue.RunRefines` | pkg/persistent/session.go:398-449 | In every run with a clock that does not go back, the stored queue is the bounded suffix of the full history without exactly those messages that had expired when it was last cleaned |
| `OfflineQueue.DeliveryRefinesHistory` | pkg/persistent/offline.go:63-116 | With such a clock, a successful delivery hands over, in arrival order, exactly those of the last MaxOfflineMessages messages accepted since the queue was last emptied that had not expired when it was last cleaned and have not when the loop comes to them; a cleaning strictly before the delivery makes no difference |
| `OfflineQueue.CleanTracks` | pkg/persistent/session.go:598-614 | A cleanup keeps the queue a suffix of the history and drops exactly the expired messages |
| `OfflineQueue.CleanupAtSameInstant` | pkg/persistent/session.go:598-604 | A cleanup at the instant of a delivery changes what is handed over if and only if a queued message expires at that very instant |
| `OfflineQueue.FreshOnesIsSuffix` | pkg/persistent/session.go:598-604 | With a fixed expiry interval the expired messages are a prefix of the queue |
| `OfflineQueue.FailedDeliveryKeepsQueue` | pkg/persistent/offline.go:86-105 | A delivery succeeds if and only if it hands over all it owes; a failed one changes nothing and has handed over what is owed up to the message that was refused, or nothing without callback or connection |
| `OfflineCalls.HistoryIsCalls` | pkg/persistent/session.go:398-449 | In every run the messages accepted since the queue was last emptied are, one by one and in order, those of the calls that reached the client since then, with their topic, payload, QoS, retain flag, stamp and expiry |
| `OfflineCalls.AcceptsIff` | pkg/persistent/session.go:398-416 | In every run a message is accepted if and only if the calls say that the client is away from a session that is not clean and is addressed, or has a matching subscription |
| `OfflineCalls.EmptiesIff` | pkg/persistent/offline.go:63-116 | In every run the queue is emptied if and only if a registered, connected client refuses no message that has not expired, or its session ends |
| `OfflineCalls.HandedCameFromCalls` | pkg/persistent/offline.go:63-116 | Every message that a delivery hands over carries what one of those calls offered |
| `Wills.AtMostOnce` | pkg/persistent/will.go:55-166 | In every run of set, connect, disconnect, timer, cancel, cleanup, close and crash steps, each installed will reaches the publisher at most once |
| `Wills.ImmediateWillExactlyOnce` | pkg/persistent/session.go:277-322 | A will without delay followed by an ungraceful disconnect reaches the publisher exactly once, whatever happened before and happens after |
| `Wills.PublishedGrows` | pkg/persistent/session.go:277-322 | Publications are never taken back, and a graceful disconnect adds none |
| `Wills.RunKeepsWills` | pkg/persistent/will.go:55-130 | In every reachable state a will is held, armed or published, never two of these, and no will is armed or published twice |
| `WillCalls.WillsAreCalls` | pkg/persistent/will.go:55-110 | In every run each waiting timer and each publication goes back to an ungraceful disconnect of its client and to the last SetWillMessage before it, and has its topic, payload, QoS and retain flag; a delayed will is due exactly its delay after the disconnect and published no earlier |
| `WillCalls.DropPublishesLastWill` | pkg/persistent/session.go:277-322 | After any run an ungraceful disconnect publishes the will that the client's last call set, or arms exactly one timer for it if it has a delay, and does nothing without a session or a will |
| `DelayedWills.GracefulDisconnectIsFinalIff` | pkg/persistent/session.go:277-322 | After any run, something a client installed before its graceful disconnect can still be published afterwards if and only if one of its armed timers is not the one filed under its ID |
| `DelayedWills.GracefulDisconnectIsFinal` | pkg/persistent/session.go:277-322 | In particular never after a run in which this client made no timer at the very instant of one that was still armed |
| `DelayedWills.StepTracksIff` | pkg/persistent/will.go:81-110 | From a state where all timers of a client are filed, a call loses one if and only if it makes a second timer for the client and instant of an armed one |
| `DelayedWills.RunTracks` | pkg/persistent/will.go:81-130 | In every run without such a call all timers of the client are filed, so a cancel reaches them |
| `DelayedWills.SharedTimerIDEscapes` | pkg/persistent/will.go:81-110 | Such runs exist: two disconnects with delayed wills at one instant |
| `DelayedWills.DelayedWillExactlyOnce` | pkg/persistent/will.go:81-130 | After any run, the delayed will of a client that disconnects ungracefully is published exactly once, in any continuation, if its timer goes off, due, before a call stops it, and otherwise never |
| `DelayedWills.DelayedWillFate` | pkg/persistent/will.go:81-130 | The same from any good state, for any armed timer, filed or not |
| `DelayedWills.StepFate` | pkg/persistent/will.go:87-130 | One call: an armed will is published by its own timer alone, is stopped by a crash or, if it is filed, by a graceful disconnect, a cancel or a close, and else stays armed |
| `DelayedWills.GoneStays` | pkg/persistent/session.go:277-322 | A will that was stopped is never published |
| `DelayedWills.ReconnectDoesNotCancel` | pkg/persistent/session.go:181-274 | In any continuation without a graceful disconnect or cancel of the client, a close or a crash, an armed will is published exactly once when its timer goes off, whoever reconnects, unlike section 3.1.3.2.2 of MQTT 5.0 asks |
| `DelayedWills.RunIsGood` | pkg/persistent/will.go:81-166 | In every reachable state a filed timer whose handle is armed is that armed timer |
| `SessionManagers.WillMessageManager.PublishWillMessage` | pkg/persistent/will.go:55-65 | Publishes now or arms a timer, by the delay |
| `SessionManagers.WillMessageManager.ScheduleDelayedWillMessage` | pkg/persistent/will.go:81-110 | Arms a timer and files it under client and instant |
| `SessionManagers.WillMessageManager.TimerGoesOff` | pkg/persistent/will.go:87-97 | A due timer publishes once and removes its ID |
| `SessionManagers.WillMessageManager.CancelWillMessage` | pkg/persistent/will.go:113-130 | The deleting walk stops exactly the filed timers of one client, in any order of the map |
| `SessionManagers.WillMessageManager.Close` | pkg/persistent/will.go:157-166 | The deleting walk stops every filed timer |
| `SessionManagers.SessionManager.CreateOrResumeSession` | pkg/persistent/session.go:181-274 | Resumes from memory, from the store or creates, with the clean, expired and missing cases of the run model; the session is active and connected |
| `SessionManagers.SessionManager.DisconnectSession` | pkg/persistent/session.go:277-322 | Handles the will, then keeps or forgets the session; an unknown client is an error that changes nothing |
| `SessionManagers.SessionManager.AddSubscription` | pkg/persistent/session.go:325-347 | Adds to the session and saves it unless it is clean |
| `SessionManagers.SessionManager.RemoveSubscription` | pkg/persistent/session.go:350-372 | Removes from the session and saves it unless it is clean |
| `SessionManagers.SessionManager.SetWillMessage` | pkg/persistent/session.go:375-395 | Installs a new will in memory only |
| `SessionManagers.SessionManager.QueueMessage` | pkg/persistent/session.go:398-449 | Queues for a disconnected session that is not clean, dropping the oldest at the cap |
| `SessionManagers.SessionManager.NextPacketID` | pkg/persistent/session.go:452-469 | The next ID is in 1..65535; the 16-bit counter wraps past 0 |
| `SessionManagers.SessionManager.Close` | pkg/persistent/session.go:472-508 | Saves every session that is not clean, in any order of the map, and stops the timers |
| `SessionManagers.SessionManager.ValidMessages` | pkg/persistent/session.go:598-604 | The filter loop keeps exactly the messages that have not expired, in order |
| `SessionManagers.SessionManager.CleanupExpiredSessions` | pkg/persistent/session.go:575-641 | The two passes remove exactly the expired sessions and the expired messages of the others, in any order of the map; which sessions those are is told from the calls by `SessionCalls.CleanupDecides` |
| `SessionManagers.SessionManager.ScanSessions` | pkg/persistent/session.go:575-617 | The first pass drops the expired messages of all sessions that have not expired, in any order of the map, and lists those that have |
| `SessionManagers.SessionManager.RemoveExpired` | pkg/persistent/session.go:623-641 | The second pass removes, of any listed clients, exactly those that are still there, not connected, and away for longer than their interval |
| `SessionManagers.ScanThenDropIsCleanup` | pkg/persistent/session.go:575-641 | Scanning all sessions and then dropping the expired ones is one cleanup step of the run model |
| `SessionManagers.OfflineMessageManager.DeliverOfflineMessages` | pkg/persistent/offline.go:63-116 | The loop, with a clock reading per message, hands over the live messages in order, stops at the first refusal, and empties the queue only when all were accepted |
| `SessionManagers.OfflineMessageManager.HasMatchingSubscription` | pkg/persistent/offline.go:141-147 | Finds a matching subscription if and only if there is one |
| `SessionManagers.OfflineMessageManager.QueueMessageForOfflineClients` | pkg/persistent/offline.go:120-167 | Queues the message once for every disconnected, not clean session with a match, stamped with a clock reading of its own, in any order of the map |
| `HighWater.HighWaterMark` | pkg/metrics/metrics.go:336-357 | Over every interleaving the maximum never falls and never exceeds the peak count; when no thread is in its retry loop it equals the peak |
| `HighWater.RunIsGood` | pkg/metrics/metrics.go:336-500 | The invariant behind it, for all five counters that share the loop |
| `HighWater.CountIsExpected` | pkg/metrics/metrics.go:336-500 | In every interleaving the counter is the last value set plus the increments and minus the decrements since; the peak is that of these values |
| `HighWater.CountIsBalance` | pkg/metrics/metrics.go:336-413 | A counter that is never set is the number of increments minus the number of decrements |
| `HighWater.MaxNeverFalls` | pkg/metrics/metrics.go:341-350 | Only a successful swap changes the maximum, and it stores the swapping thread's value |
| `HighWater.RetriesAreBounded` | pkg/metrics/metrics.go:341-350 | A thread that holds a count has failed at most that many swaps |
| `HighWater.FailedSwapMeansProgress` | pkg/metrics/metrics.go:341-350 | A failed swap means that another thread strictly raised the maximum between this thread's load and swap |
| `Topics.MatchersAgreeIff` | pkg/blacklist/manager.go:625-663 | The two matchers agree on every topic if and only if the filter has "#" only as its whole last level |
| `Topics.RecursiveMatcherIsStandard` | pkg/blacklist/manager.go:633-663 | On those filters the recursive matcher is the level-wise reading of section 4.7.1 of MQTT 3.1.1 |
| `Topics.IterativeMatcherIsStandard` | pkg/retainer/retainer.go:274-320 | So is the one with index loops and two shortcuts |
| `Topics.MatchersDiffer` | pkg/blacklist/manager.go:633-663 | On every other filter, a topic built from it is matched by the recursive matcher and denied by the iterative one |
| `Topics.MatchTopicFilter` | pkg/retainer/retainer.go:274-320 | The loops compute the function that the lemmas are about |
| `Topics.BasicImpliesBoth` | pkg/persistent/offline.go:254-265 | On every filter the simplified matcher claims no match that the other two deny |
| `Topics.BasicAgreesWithRetainerIff` | pkg/persistent/offline.go:254-265 | The simplified and the iterative matcher agree on every topic if and only if the filter is "#" or has no "+" level and no final "#" |
| `Topics.BasicAgreesWithRecursiveIff` | pkg/persistent/offline.go:254-265 | The simplified and the recursive matcher agree on every topic if and only if the filter is "#" or has no wildcard level at all |
| `Strings.SplitJoin` | pkg/blacklist/manager.go:626-627 | Splitting what was joined gives the parts back |
| `Strings.JoinSplit` | pkg/blacklist/manager.go:626-627 | And joining what was split gives the string back |
| `Blacklist.RunIsSound` | pkg/blacklist/manager.go:152-269 | In every reachable state each index reference is to a live entry under its own type and value and the counts are exact; after tidy calls (no successful second entry for a value, no update with a bad pattern) every entry is indexed, and the first call that is not tidy ends that |
| `Blacklist.StepKeeps` | pkg/blacklist/manager.go:152-269 | Every call keeps the invariants, and keeps every entry indexed if and only if it is tidy |
| `Blacklist.CheckAgreesWithScan` | pkg/blacklist/manager.go:497-586 | In every reachable state a check blocks if and only if a scan of the indexed entries does; while every entry is indexed, if and only if a scan of all entries does |
| `Blacklist.ConnectionAgreesWithScan` | pkg/blacklist/manager.go:318-341 | In every reachable state a connection is refused if and only if an indexed entry blocks its client ID, user name or address; while every entry is indexed, if and only if any entry does |
| `BlacklistCalls.FieldsAreLastGiven` | pkg/blacklist/manager.go:152-269 | In every run the table holds exactly the entries that were added and neither removed nor cleaned up since; each field of each is the one given by the last call that gave it, where a failed update has given value and pattern |
| `BlacklistCalls.DisabledIsSilent` | pkg/blacklist/manager.go:193-247 | After a successful update that disables an entry no check of any kind, input or time names it, whatever calls follow, until the next add or update of its ID |
| `BlacklistCalls.EnabledAnswers` | pkg/blacklist/manager.go:152-247 | After an add or update that enables an entry, until the expiry that then holds, a check of its kind hits for every input it covers, and names it if it has no pattern |
| `BlacklistCalls.HitIsGiven` | pkg/blacklist/manager.go:497-586 | In every reachable state the entry a check names was added for that kind, is enabled and not expired by its last calls, and covers the input |
| `BlacklistCalls.HitIffGiven` | pkg/blacklist/manager.go:497-586 | After every tidy run a check hits if and only if the calls have left an entry that covers the input: its value, its pattern, its address range or its topic filter |
| `BlacklistCalls.AddErrorIsGiven` | pkg/blacklist/manager.go:152-190 | After every run an add reports the first thing that is wrong with it, and succeeds if and only if nothing is |
| `BlacklistCalls.UpdateErrorIsGiven` | pkg/blacklist/manager.go:193-247 | After every run an update fails if and only if there is no such entry or its pattern does not compile |
| `BlacklistCalls.RefusalAccounts` | pkg/blacklist/manager.go:318-341 | In every reachable state a connection leaves a block if and only if it is refused, for the first check that hits, with the action and reason last given for the entry that was hit |
| `Blacklist.Fault` | pkg/blacklist/manager.go:405-432 | An entry is accepted if and only if it has an ID, a known type and action, and a value or pattern |
| `Blacklist.RemoveAllKeeps` | pkg/blacklist/manager.go:385-402 | Removing a list of entries keeps them and removes exactly those entries |
| `Blacklist.SharedValueEscapes` | pkg/blacklist/manager.go:455-478 | Two entries share a value: removing one takes the other out of the index |
| `Blacklist.BadPatternEscapes` | pkg/blacklist/manager.go:193-247 | An update with a pattern that does not compile leaves its entry in no index |
| `Blacklist.BlacklistManager.RemoveFromTypeIndex` | pkg/blacklist/manager.go:455-478 | The loop removes the first reference from the pattern list, or the value from the value index |
| `Blacklist.BlacklistManager.AddEntry` | pkg/blacklist/manager.go:152-190 | The first fault in the order of the source is returned and changes nothing; otherwise entry, index and counts change as in the run model |
| `Blacklist.BlacklistManager.UpdateEntry` | pkg/blacklist/manager.go:193-247 | The update with its error paths, including the half-made one after a bad pattern; after every run each field is the one last given (`BlacklistCalls.FieldsAreLastGiven`) |
| `Blacklist.BlacklistManager.RemoveEntry` | pkg/blacklist/manager.go:250-269 | Entry, index and counts change together; a missing entry is an error |
| `Blacklist.BlacklistManager.CleanupExpiredEntries` | pkg/blacklist/manager.go:385-402 | Removes exactly the expired entries, in any order of the map, and returns their number |
| `Blacklist.BlacklistManager.CheckKind` | pkg/blacklist/manager.go:497-586 | The lookups and the pattern loop compute the check that the lemmas are about |
| `Blacklist.BlacklistManager.CheckClientConnection` | pkg/blacklist/manager.go:318-341 | Client ID, then user name, then address; a hit leaves exactly one block, of the check that hit, to be recorded |
| `Blacklist.BlacklistManager.CheckTopicAccess` | pkg/blacklist/manager.go:344-354 | The topic check; a hit leaves exactly one block to be recorded |
| `Blacklist.BlacklistManager.RecordBlock` | pkg/blacklist/manager.go:678-693 | A recording goroutine takes its block off the pending ones and adds it to totals and to the list of the last hundred |
| `BlacklistStats.BlocksAreConserved` | pkg/blacklist/manager.go:666-693 | Over every interleaving of checks and recording goroutines, total, counts by type and the last hundred are those of the blocks recorded so far, and every refusal is recorded or pending, exactly once |
| `BlacklistStats.ReactionCountsStepIff` | pkg/blacklist/manager.go:481-494 | From exact counts by action, a call keeps them exact if and only if it is not a successful update that changes the action of an entry |
| `BlacklistStats.ReactionCountsOfRuns` | pkg/blacklist/manager.go:193-247 | The counts by action are exact after every run without such an update, and the next call keeps them so if and only if it is none |
| `Duplicates.DuplicateMeansSeenRecently` | pkg/broker/broker.go:1836-1869 | For a non-zero packet ID and a clock that does not go back, a publish is a duplicate if and only if the same client and ID arrived less than 30 s ago since the client was last unregistered |
| `Duplicates.CleanupIsInvisible` | pkg/broker/broker.go:1862-1866 | A table that never forgets gives the same answers after every run |
| `Duplicates.SeenRecentlyIsLastSeen` | pkg/broker/broker.go:1836-1869 | Only the last arrival since the last unregistration matters |
| `Duplicates.RunIsFaithful` | pkg/broker/broker.go:1836-1869 | In every run the table remembers the last arrival, or has forgotten one outside the window |
| `Duplicates.FreshAfterMark` | pkg/broker/broker.go:1862-1866 | After a call that is no duplicate the client's table holds nothing older than the window |
| `Duplicates.Broker.MarkAndCheckDuplicate` | pkg/broker/broker.go:1836-1869 | The answer and the new table |
| `Duplicates.Broker.DropOld` | pkg/broker/broker.go:1862-1866 | The deleting loop keeps exactly the recent arrivals |
| `Duplicates.Broker.UnregisterSession` | pkg/broker/broker.go:1820-1834 | Forgets one client |
| `RouteTable.RoutesTrackLocalClients` | pkg/mria/integration.go:247-318 | In every benign run the node is in a filter's route if and only if the filter has local clients, and node lists are free of duplicates; the next event keeps that if and only if it is benign |
| `RouteTable.StepKeepsGoodIff` | pkg/mria/integration.go:247-318 | From a good state an event keeps the invariant if and only if it is benign: a replicated route is consistent with the local clients, and a node that cleans up after itself walks no route it serves |
| `RouteTable.ReceiveRouteIff` | pkg/mria/replication.go:621-647 | A replicated route keeps it if and only if it lists no node twice and this node just when the filter has local clients; a deletion, if and only if it has none |
| `RouteTable.SelfCleanupIff` | pkg/mria/integration.go:568-608 | A cleanup of the node itself keeps it if and only if no walked filter has local clients |
| `RouteTable.CleanupForgets` | pkg/mria/integration.go:568-608 | Whatever order the maps are walked in, afterwards no route, session or subscription names the departed node; unless it is the node itself, it keeps its own routes, and no route gains a node |
| `RouteTable.CleanupAfterRun` | pkg/mria/integration.go:568-608 | The cleanup forgets the node after every run, benign or not |
| `RouteTable.RunKeepsKeys` | pkg/mria/integration.go:247-318 | In every run, benign or not, each row of the three tables is stored under its own key |
| `SiteLog.SiteReplays` | pkg/mria/integration.go:247-608 | In every run, also with received entries, callbacks and cleanups, another node that applies what this one received and sent, in order, holds exactly its tables and version |
| `SiteLog.SiteLogIsNewestSuffix` | pkg/mria/replication.go:446-463 | In every such run the channel holds what was sent and not yet taken, and the log the newest thousand of what was taken |
| `SiteEvents.LocalClientsIff` | pkg/mria/integration.go:247-318 | In every run a client is in the local list of a filter if and only if its last event for that filter is a subscribe |
| `SiteEvents.LocalListsAreSets` | pkg/mria/integration.go:247-318 | In every run no local list is empty or names a client twice |
| `SiteEvents.OwnRouteIff` | pkg/mria/integration.go:469-494 | In every benign run the node is in the route of a filter if and only if the last event of some client for that filter is a subscribe |
| `SiteEvents.SessionRowsAreEvents` | pkg/mria/integration.go:175-205 | In every run each session row is the last own or replicated change of that client, unless a cleanup came across it as a row of the departed node |
| `SiteEvents.SubscriptionRowsAreEvents` | pkg/mria/integration.go:247-318 | The same for subscription rows, by client and filter |
| `SiteEvents.CleanupIsExact` | pkg/mria/integration.go:568-608 | After any run a cleanup that walks all keys removes exactly the rows of the departed node and exactly its membership in the routes |
| `RemoteRoutes.RoutesTrackRemoteClients` | pkg/mria/integration.go:443-451 | In every run of events that are benign for other nodes, a route lists another node if and only if one of its clients is subscribed; the next event keeps that if and only if it is benign too |
| `RemoteRoutes.StepListedIff` | pkg/mria/integration.go:247-608 | The exact condition for every event: subscribe, unsubscribe, received subscription or route, cleanup |
| `RemoteRoutes.RemoteListedIff` | pkg/mria/integration.go:443-451 | A replicated subscription change keeps it if and only if a withdrawal is its node's last one for the filter and no other node loses its last row to it |
| `RemoteRoutes.SubscribeIff` | pkg/mria/integration.go:247-282 | A local subscribe keeps it if and only if it takes no other node's last row for a filter |
| `RemoteRoutes.UnsubscribeIff` | pkg/mria/integration.go:285-318 | A local unsubscribe keeps it if and only if a row it takes from another node was that node's last one for the filter |
| `RemoteRoutes.ReceiveRouteListedIff` | pkg/mria/replication.go:621-647 | A replicated route keeps it if and only if it lists exactly the other nodes with subscriptions |
| `RemoteRoutes.CleanupListedIff` | pkg/mria/integration.go:568-608 | A cleanup keeps it if and only if, for every filter, the walk covers all subscriptions of the departed node, or neither any of them nor the route |
| `RemoteRoutes.SharedFilterBreaks` | pkg/mria/integration.go:443-451 | Of two clients of another node with one filter, the first to withdraw is not benign |
| `RouteTable.ForeignRouteBreaks` | pkg/mria/replication.go:621-647 | Events that are not benign exist for every served filter |
| `RouteTable.RemoteRouteFacts` | pkg/mria/integration.go:497-531 | Adding or removing one node changes its membership in that route and nothing else |
| `RouteTable.BrokerIntegration.HandleSubscribe` | pkg/mria/integration.go:247-282 | Local clients, subscription and route change as in the run model; afterwards the clients of a filter are those whose last event for it is a subscribe (`SiteEvents.LocalClientsIff`) |
| `RouteTable.BrokerIntegration.HandleUnsubscribe` | pkg/mria/integration.go:285-318 | The same; a filter without clients is dropped |
| `RouteTable.BrokerIntegration.HandleSubscriptionChange` | pkg/mria/integration.go:443-451 | Changes of other nodes update the route, own changes do not |
| `RouteTable.BrokerIntegration.UpdateClusterRoute` | pkg/mria/integration.go:469-494 | Puts the node into the route or takes it out, by whether there are local clients |
| `RouteTable.BrokerIntegration.UpdateRemoteRoute` | pkg/mria/integration.go:497-531 | Adds a node once or removes it |
| `RouteTable.BrokerIntegration.ReceiveEntry` | pkg/mria/replication.go:539-588 | Applies an entry and runs the subscription callback |
| `RouteTable.BrokerIntegration.CleanupRoutes` | pkg/mria/integration.go:570-589 | The first walk |
| `RouteTable.BrokerIntegration.CleanupSessions` | pkg/mria/integration.go:591-597 | The second walk |
| `RouteTable.BrokerIntegration.CleanupSubscriptions` | pkg/mria/integration.go:599-607 | The third walk |
| `RouteTable.BrokerIntegration.CleanupNodeData` | pkg/mria/integration.go:568-608 | All three, over snapshots of the maps |
| `Cluster.ReceivedAtMostOnce` | pkg/cluster/server.go:97-102 | Each node receives each publish at most once, and only what was sent to it |
| `Cluster.PublishReachesEverySubscriber` | pkg/broker/broker.go:1933-1949 | A publish is forwarded to a node if and only if it is listed for the topic, connected and another node |
| `Announcements.ForwardedExactlyOnce` | pkg/broker/broker.go:1933-1949 | After any run a publish is forwarded exactly once to each other node that is a peer and whose announcement of exactly that topic was delivered, and not at all to any other |
| `Announcements.ListedIff` | pkg/cluster/manager.go:136-147 | In every run a node lists another under a topic if and only if an announcement that says so, still on its way, was delivered to it |
| `Announcements.NetworkHoldsAnnouncements` | pkg/cluster/manager.go:111-128 | In every run the network holds one copy of an announcement for each subscribe that sent it to a peer, less those delivered or lost |
| `Announcements.PeersIff` | pkg/cluster/manager.go:64-104 | In every run a node has exactly the peers that were added to it |
| `Cluster.RunIsGood` | pkg/cluster/manager.go:111-189 | In every run route lists are announced and free of duplicates, and every forward ever sent is in flight, received or lost, exactly once |
| `Cluster.OneHop` | pkg/broker/broker.go:1933-1949 | In every run each forward was sent by a client's publish at its origin (received publishes cause none), each publish is forwarded at most once to any node, never to its origin, and only to nodes that had announced that exact filter string before it was published |
| `Cluster.Manager.HandleForwardPublish` | pkg/cluster/server.go:97-102 | A received publish reaches the matching clients of this node, at QoS 0, and neither sends nor announces anything |
| `Cluster.Manager.AddRemoteRoute` | pkg/cluster/manager.go:136-147 | Adds a node to the list of a topic, behind those already there, unless the loop finds it; after every run the list is that of the announcements that arrived (`Announcements.ListedIff`) |
| `Cluster.Manager.BroadcastRouteUpdate` | pkg/cluster/manager.go:111-128 | One announcement to each peer, in any order of the map |
| `Cluster.Manager.BatchUpdateRoutes` | pkg/cluster/server.go:76-87 | The nested loops add every announced pair |
| `Cluster.Manager.RoutePublish` | pkg/broker/broker.go:1933-1949 | The loop forwards to every listed node but this one |
| `Election.ElectIsSmallest` | pkg/mria/manager.go:473-480 | The scan finds the smallest running core ID, and none when nothing runs |
| `Election.OrderMattersIff` | pkg/mria/manager.go:473-480 | The result depends on the order in which the map is walked if and only if a running node with an empty ID meets a running node with another ID |
| `Election.EqualViewsAgree` | pkg/mria/manager.go:462-497 | Whatever two core nodes believed before, after electing over the same view they name the same leader, at most one claims to be it, and a node claims it if and only if it is the smallest running one |
| `Election.RunIsFaithful` | pkg/mria/manager.go:482-496 | In every run of a node with a non-empty ID the notifications alternate starting with "become", and the last one says whether the node is leader |
| `Election.LeaderIsOfLastView` | pkg/mria/manager.go:462-497 | In every run a core node knows the leader of the last view that listed anyone and claims to be it if and only if it is; an empty list changes nothing |
| `Election.NotificationsFaithfulIff` | pkg/mria/manager.go:482-496 | They do so in every run if and only if the node is not a core node with an empty ID |
| `Election.EnumerationsAgree` | pkg/mria/manager.go:260-269 | Any two walks of one map are the same view |
| `Election.LessIsTotal` | pkg/mria/manager.go:476 | The order of IDs is total and irreflexive |
| `Election.LessIsTransitive` | pkg/mria/manager.go:476 | And transitive |
| `Election.FindLeader` | pkg/mria/manager.go:473-480 | The loop computes the scan that the lemmas are about |
| `Election.MriaManager.GetCoreNodes` | pkg/mria/manager.go:260-269 | Every entry of the map exactly once, in some order |
| `Election.MriaManager.PerformLeaderElection` | pkg/mria/manager.go:462-497 | Leader, claim and notifications change as in the run model, over some walk of the map |
| `Delivery.RouteWithRequestResponse` | pkg/broker/broker.go:2035-2058 | Each distinct mailbox gets exactly one message, with QoS min(publish QoS, highest QoS of its matching subscriptions); no other mailbox is touched |
| `Delivery.TableResolves` | pkg/broker/broker.go:2035-2045 | The table has one row per distinct mailbox, with that QoS |
| `Delivery.OrderDoesNotMatter` | pkg/broker/broker.go:2035-2045 | The QoS depends only on which subscriptions match, not on their order or repetition |
| `Delivery.RouteWithQoS` | pkg/broker/broker.go:2071-2094 | The route without the table sends one message per subscription, in order, and no properties |
| `Delivery.CopiesAreInOrder` | pkg/broker/broker.go:2071-2094 | Each mailbox gets one copy per subscription of its own, in the order of the subscriptions, with topic, payload, the lower of the two QoS and no properties |
| `Delivery.RouteForwarded` | pkg/broker/broker.go:2101-2103 | The callback for forwarded publishes does so at QoS 0 |
| `Delivery.RoutesAgreeIff` | pkg/broker/broker.go:2071-2094 | The two routes deliver the same messages if and only if there are no subscribers, or no mailbox has two matching subscriptions and the message has no properties |
| `Delivery.ForwardedAgreesIff` | pkg/broker/broker.go:2101-2103 | A forwarded publish is delivered as at home if and only if, in addition, it or every matching subscription has QoS 0 |
| `JsonPath.SetIsReadBackIff` | pkg/integration/processors.go:244-268 | Setting a path either changes nothing at all or is read back; it is read back if and only if no existing value other than an object stands in the way, or null is written; the empty path replaces nothing |
| `JsonPath.WriteIsReadBack` | pkg/integration/processors.go:244-268 | A write that is not stopped is read back, also at every path below the written one |
| `JsonPath.StoppedWriteChangesNothing` | pkg/integration/processors.go:253-263 | A stopped write creates nothing on its way |
| `JsonPath.WriteFrame` | pkg/integration/processors.go:244-268 | Paths that are neither prefix nor extension of the written one read as before |
| `JsonPath.EraseIsReadBack` | pkg/integration/processors.go:271-291 | After a removal the path and everything below it read as null |
| `JsonPath.EraseFrame` | pkg/integration/processors.go:271-291 | With the same frame |
| `JsonPath.SetAndRemoveLaws` | pkg/integration/processors.go:223-291 | The same laws for dotted paths |
| `JsonPath.WriteTwice` | pkg/integration/processors.go:244-268 | The last write wins and leaves no trace of the first |
| `JsonPath.EraseUndoesWrite` | pkg/integration/processors.go:271-291 | Removing a field that a write added to an existing object restores the document |
| `JsonPath.GetValueByPath` | pkg/integration/processors.go:223-241 | The loop with its early exit computes the read that the laws are about |
| `JsonObjects.SetValueByPath` | pkg/integration/processors.go:244-268 | On nested maps changed in place, the result looks as the function on value trees says, and the maps still form a tree |
| `JsonObjects.SetAlong` | pkg/integration/processors.go:253-267 | The walk creates missing maps, stops at other values and changes only the last map |
| `JsonObjects.RemoveFieldByPath` | pkg/integration/processors.go:271-291 | The same for a removal |
| `JsonObjects.RemoveAlong` | pkg/integration/processors.go:279-290 | The walk stops at anything but a map and deletes from the last one |
| `Rules.NonNegativeLatencies` | pkg/rules/engine.go:388-404 | For n non-negative latencies with sum S, 0 <= S - n*AvgLatency <= n(n-1)/2, and the numerator computed in 64 bits is between 0 and S |
| `Rules.MeanErrorBound` | pkg/rules/engine.go:388-404 | For latencies of any sign the difference is at most n(n-1)/2 either way |
| `Rules.MeanWithinSamples` | pkg/rules/engine.go:388-404 | The mean is never above the largest nor below the smallest sample |
| `Rules.BoundIsAttained` | pkg/rules/engine.go:388-404 | The bound is sharp at every n: the latencies 0, 1, 2, ... attain it |
| `Rules.RuleMetrics.RecordRuleExecution` | pkg/rules/engine.go:388-404 | The fields are the count and truncated mean of all latencies recorded so far |
| `Rules.SortByPriority` | pkg/rules/engine.go:315-321 | The exchange sort leaves a permutation in descending order of priority |
| `Rules.BringUpHighest` | pkg/rules/engine.go:317-320 | The inner loop |
| `Rules.RuleEngine.EnabledRules` | pkg/rules/engine.go:305-312 | Each enabled rule of the map once |
| `Rules.RuleEngine.ProcessMessage` | pkg/rules/engine.go:304-331 | Every enabled rule is processed exactly once, higher priority first |

## Left out

- Sockets, TLS, gRPC, packet encoding, Prometheus, HTTP handlers, dashboards, discovery, database, Redis and Kafka connectors: input and output, or libraries that are not part of this model.
- JSON encoding of entries and session records is taken to be an identity, and store writes are taken to succeed.
- Locks: every public method is one atomic step.  In particular the replication methods release their lock between changing a table and sending the entry, and nothing is claimed about deadlock or about blocking on a full channel.
- 64-bit overflow of versions, counters, times and sums; packet IDs do wrap at 16 bits, and the numerator of the running mean is bounded by the exact sum.
- A nil and an empty property map are the same in Delivery.
- Sessions, entries and rules are records in a map; aliasing of the pointers that Go hands out is not modelled.
- JsonObjects.SetAlong: recurses where the source moves a cursor in a loop, and requires that the maps form a tree that does not meet the value; maps shared between two places are not modelled.
- JsonObjects.RemoveAlong: recurses where the source moves a cursor in a loop, and requires that the maps form a tree.
- JsonObjects.SetValueByPath: requires that the maps form a tree that does not meet the value, as parsed JSON does; a value that a "map" transformation has put in two places is shared, and a write through one place then shows at the other.
- JsonObjects.RemoveFieldByPath: requires that the maps form a tree, for the same reason.
- Blacklist.BlacklistManager.CheckKind: stands for the four check functions, and the four value indexes are one map keyed by type and value; CIDR matching and regular expressions are parameters.
- Duplicates.Broker.UnregisterSession: models the duplicate table only, not the removal of the mailbox and its subscriptions, whose store is not part of this model.
- MaxOfflineMessages = 0, for which the source would slice an empty queue.
- A timer body that has started before its timer is stopped: it is outside the atomic steps.
- In-flight QoS 1 and QoS 2 tables and their retries, which the source leaves unimplemented.
- Mria RPC dispatch and HandleClientDisconnect, which looks a session up after it has deleted it.
- Cluster withdrawal of routes on unsubscribe, which the source does not have, and republishing by rules.
- The "$" rule of section 4.7.2 of MQTT 3.1.1, which none of the matchers implements.
- The topic store, and shared subscriptions with it: the list of matching subscribers is a parameter.
- The SUBSCRIBE filter loop and its reason codes: easy members.
- Rule SQL, action executors, authentication and password hashing.
