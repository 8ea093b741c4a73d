# Prometheus Alertmanager: a verified model

Alertmanager takes alerts from Prometheus servers, groups them along a routing tree,
silences or inhibits some of them, and notifies receivers. Several replicas gossip their
silences and their notification log, so that one replica speaks for all. This project
models the parts of it that carry state from one call to the next, and proves what they
keep over whole runs.

The source updates objects in place, so most components come twice. A module of
specification functions says what each operation does to the state and carries the
theorems; a class with the source's fields has one method for each operation, proved
equal to that function. Concurrent parts are state machines: each thread has a program
counter, and a step is one atomic map, counter or store operation.

- **Silences**: `SilenceStore` and `Silences` (state map, matcher index and version index,
  garbage collection in place), `SilenceCache` and `Silencer` (the per-alert cache),
  `SilenceRuns` (runs of all operations), `SilenceHistory`, `SilenceEffects`, `SilenceSnapshot`.
- **Replication**: `Gossip` (last writer wins, convergence, the end of flooding) and
  `SilenceGossip`.
- **Notification**: `Nflog`, `Dedup` (the stages of a receiver), `Cluster` (a peer's
  position), `HighAvailability` (one round of all peers).
- **Dispatch**: `AlertStore`, `Dispatcher` (workers, flushes, maintenance and the start sweep
  on a concurrent map of groups), `GroupLifecycle`, `GroupLimit`, `GroupStart`,
  `NoAlertLost`, `RouteLabelCache`, `RouteTree`, `RouteMatching`.
- **Rules and text**: `Inhibition` and `Inhibitor`, `RouteLabelResolver`, `MatcherLexer`,
  `MatcherParser`, `MatcherGrammar`.
- **Limits and events**: `ExpiryBucket`, `WebhookBatching`.

Regular expressions, fingerprints, unquoting and template parsing are function parameters.
What the theorems ask of them (fingerprints are injective, equal IDs carry equal matchers)
is a named premise of the theorem that needs it. Time is an integer; every clock reading of
an operation is a parameter.

Eleven properties one would expect of this code do not hold of it. For each there is a run
or a state that shows it, and the exact condition under which the property holds:

- A silence that has ended and is prolonged by a peer is missed by the cache
  (`SilenceRuns.RevivedSilenceIsMissed`, `SilenceRuns.ExactUnlessHidden`), because a merge
  does not raise the version of an ID it knows.
- An in-place update of a silence can change the past within a second
  (`SilenceHistory.UpdateWithinSecondRewritesHistory`, `SilenceHistory.InPlaceKeepsHistoryIff`),
  because starts are compared by the second.
- Set and Expire report success without effect when the stored silence carries an update time
  that is not past (`SilenceEffects.AheadIsNotChanged`, `SilenceEffects.UpdateTakesEffectIff`,
  `SilenceEffects.ExpireTakesEffectIff`).
- A notification is repeated early when the alerts that fired are gone and only resolved ones
  are left, although these were reported (`Dedup.AllResolvedRepeatsEarly`, `Dedup.RepeatBound`).
  A receiver that does not want resolved alerts is sent nothing then, but the record is cleared,
  and the firing alerts are sent again early when they come back (`Dedup.ClearedRepeatsEarly`,
  `Dedup.SendBound`).
- A firing inhibitor is not found by the index when another source alert with the same equal
  labels is collected, or is resolved while it is indexed, or has an end and is indexed before
  an alert that has none (`Inhibition.CollectionHidesInhibitor`,
  `Inhibition.EarlierEndHidesInhibitor`, `Inhibition.NoEndHidesInhibitor`,
  `Inhibition.StaysExactIff`). The last needs an alert that does not come through the API,
  which gives every alert an end (`upstream/api/v2/api.go:378-383`).
- An alert that matches both sides of a rule is not inhibited, although a source that matches
  only the source side fires, when the index has another source that matches both
  (`Inhibition.TwoSidedHidesInhibitor`, `Inhibition.AnswersLikeAScanIff`).
- Gossip of an entry does not stop while the clock stands at its expiry and nodes are collected
  in between (`Gossip.FloodingWhileClockStands`, `Gossip.RetakenIff`, `Gossip.FloodingStops`).
- A firing alert can be deleted by the flush of its resolved version if both carry the same
  update time, as all alerts of one request do (`NoAlertLost.SameUpdateTimeLosesFiring`,
  `NoAlertLost.HeldUntilNotified`).
- The limit on groups can be exceeded by concurrent workers
  (`GroupLimit.SoftLimitIsReached`, `GroupLimit.LimitHoldsIffOneWorker`).
- A bucket counts as stale although not everything in it has expired
  (`ExpiryBucket.StaleButNotExpired`, `ExpiryBucket.StaleExactIff`). The comment on
  `IsStale` speaks of the latest item; the code looks at the last slot of the heap.
- Cached route labels can be stale after as many changes as the generation counter has values
  (`RouteLabelCache.WrapServesStale`, `RouteLabelCache.FreshIffBelowWrap`); it has 2^64.

## Model

| member | source | states |
|---|---|---|
| SilenceRuns.CacheRefinesFullScan | upstream/silence/silence.go:164-321 | In every run of Set, Expire, GC, Merge, Mutes and cache deletions with a clock that does not go back, compiling and ID-stable matchers and no merge that revives an ended silence, every Mutes call marks exactly the IDs a full scan for active matching silences finds, each once, and answers true exactly when there is one. |
| SilenceRuns.IndicesAlwaysAgree | upstream/silence/silence.go:655-715 | Over the same runs, before and after every step, the version index is sorted with distinct IDs and its IDs are the keys of the state map and of the matcher index. |
| SilenceRuns.StepKeepsGood | upstream/silence/silence.go:843-1002 | Every allowed step keeps the invariant that ties every cache entry to the store: sound, and complete for everything up to its version. |
| SilenceRuns.SetThenMuted | upstream/silence/silence.go:164-321 | A run that meets all these premises, in which a silence is set and then mutes an alert. |
| SilenceRuns.RevivedSilenceIsMissed | upstream/silence/silence.go:1298-1327 | Without the no-revival premise the cache theorem fails: a run in which a prolonged silence is active in the store and the alert is reported as not silenced. |
| SilenceRuns.ExactUnlessHidden | upstream/silence/silence.go:1308-1313 | After a merge, the next Mutes answers like a full scan if and only if the merged entry does not replace a silence the cache entry has seen and no longer lists, and that now is active and matches. |
| SilenceCache.MutesMarksCovered | upstream/silence/silence.go:164-321 | What one Mutes call marks on any sound cache entry: exactly the silences of the full scan that the entry covers. |
| SilenceCache.MutesCallExact | upstream/silence/silence.go:164-321 | On a sound and complete entry one call answers like the full scan. |
| SilenceCache.MutesKeepsEntry | upstream/silence/silence.go:282-300 | One call leaves a sound and complete entry behind. |
| SilenceCache.QuerySinceExact | upstream/silence/silence.go:1156-1230 | A query since version v never meets a missing entry and returns exactly the unexpired matching silences indexed after v. |
| SilenceCache.QueryIdsExact | upstream/silence/silence.go:1190-1201 | A query by IDs returns exactly the known unexpired silences among them. |
| SilenceStore.SetAgrees | upstream/silence/silence.go:843-931 | Setting a silence, in any of its branches, keeps the three indices in agreement and never lowers the version. |
| SilenceStore.ExpireAgrees | upstream/silence/silence.go:978-1002 | Expiring keeps the indices in agreement, the version and the set of IDs. |
| SilenceStore.EntryAgrees | upstream/silence/silence.go:1342-1361 | Merging one entry keeps the indices in agreement. |
| SilenceStore.GCAgrees | upstream/silence/silence.go:655-715 | Collection removes exactly the silences at or past their expiry, changes no other, and keeps the indices in agreement. |
| SilenceStore.CompactKeepsExactly | upstream/silence/silence.go:665-713 | The in-place compaction of the version index keeps exactly the surviving entries, in their old order. |
| SilenceStore.AdditionAgreesIff | upstream/silence/silence.go:800-808 | Adding a silence keeps the indices in agreement if and only if its matchers compile. |
| SilenceStore.LoadedAgreesIff | upstream/silence/silence.go:1234-1270 | Loading a snapshot gives agreeing indices if and only if every silence in it compiles. |
| SilenceHistory.HistoryIsNeverRewritten | upstream/silence/silence.go:843-1002 | Over every run of local Set, Expire and GC steps in which no update in place moves the start of an active silence, which silences were active at an instant before the run and within the retention window is never changed. |
| SilenceHistory.WholeRunIsLocal | upstream/silence/silence.go:935-960 | With times in whole seconds every run is such a run, because starts are compared by the second. |
| SilenceHistory.StepKeepsHistory | upstream/silence/silence.go:843-1002 | The same for one step, with what the next step needs. |
| SilenceHistory.InPlaceKeepsHistoryIff | upstream/silence/silence.go:935-960 | A Set that updates in place leaves the past of an alert it silences alone if and only if the update is dropped, keeps the start, or both starts lie ahead. |
| SilenceHistory.UpdateWithinSecondRewritesHistory | upstream/silence/silence.go:943-946 | A Set that changes the past: start 1.1 s becomes 1.5 s at 1.9 s. |
| SilenceEffects.UpdateTakesEffectIff | upstream/silence/silence.go:864-884 | A successful update in place stores the given silence, with the time of the call as update time, if and only if the stored version is older than the clock, or is that silence already. |
| SilenceEffects.CreationTakesEffectIff | upstream/silence/silence.go:894-930 | A successful Set that creates a silence stores it under its new ID if and only if its end plus the retention is not past: with the given matchers and end, the time of the call as update time, and the given start, or the time of the call if that is unset or past. |
| SilenceEffects.CreatedIsScheduled | upstream/silence/silence.go:894-930 | The new silence is found by a scan exactly for alerts its matchers match, from its start to its end, and never before the call. |
| SilenceEffects.SetAnswersExactly | upstream/silence/silence.go:843-931 | When Set answers invalid, not found, too many, too large or success, and when it updates in place, each as a condition on the given silence, the stored one, the clock and the limits; everything but success leaves the store alone. |
| SilenceEffects.ValidSetNeedsALabel | upstream/silence/silence.go:736-777 | A valid matcher set that matches an alert without labels has a negative matcher. |
| SilenceEffects.NegativeSetMatchesAnything | upstream/silence/silence.go:736-746 | With a negative matcher a valid set can match an alert without labels, because only equality and regular expression matchers are asked whether they match the empty string. |
| Silences.ValidateSilence | upstream/silence/silence.go:748-783 | The loop over the matcher sets accepts exactly the valid silences. |
| Silences.ValidateMatcherSet | upstream/silence/silence.go:756-773 | The loop over the matchers accepts exactly the valid sets. |
| SilenceEffects.ReplacedIsOverIff | upstream/silence/silence.go:911-917 | A successful Set that replaces a silence leaves the old one over if and only if it ended by itself or its stored version is older than the clock. |
| SilenceEffects.ExpireTakesEffectIff | upstream/silence/silence.go:978-1002 | A successful Expire leaves the silence over if and only if it ended by itself or its stored version is older than the clock. |
| SilenceEffects.AheadIsNotChanged | upstream/silence/silence.go:1355-1360 | A silence merged from a peer whose clock is ahead: Expire and Set report success and change nothing. |
| SilenceSnapshot.MarshalBinary | upstream/silence/silence.go:1363-1374 | Writes every silence once, in any order of the map; reading the records gives the same state back. |
| SilenceSnapshot.DecodeState | upstream/silence/silence.go:1376-1396 | Reads records one after the other, the last one for an ID winning, and fails on a record without a silence. |
| SilenceSnapshot.OldAndNewFieldsAgree | upstream/silence/silence.go:1401-1419 | A record of an older version reads as one matcher set matching the same label sets, changes nothing else, and is written back with the same old field. |
| Silences.Silences.LoadSnapshot | upstream/silence/silence.go:1234-1270 | Fails exactly when the records cannot be decoded, changing nothing; otherwise replaces the store by the decoded silences, indexing exactly those that compile, each once, under the next version. |
| SilenceSnapshot.DecodedIds | upstream/silence/silence.go:1376-1396 | A decoded silence is stored under its own ID. |
| Silences.Silences.CollectGarbage | upstream/silence/silence.go:655-715 | The in-place method does what the specification GC says, and returns how many silences went and how many index entries were reported as faulty. |
| Silences.FaultsIffNoExpiry | upstream/silence/silence.go:684-697 | While the indices agree, a collection reports an error exactly when a stored silence has no expiry. |
| Silences.Silences.SetSilence | upstream/silence/silence.go:843-931 | Same answer and same new store as the specification, on every branch. |
| Silences.Silences.ExpireOne | upstream/silence/silence.go:978-1002 | Same new store as the specification; not found exactly for an unknown ID. |
| Silences.Silences.Merge | upstream/silence/silence.go:1298-1327 | Folds the entries into the store; broadcasts once for every entry taken, unless the message is oversized, so exactly when the store changed. |
| Silences.Silences.MergeOne | upstream/silence/silence.go:1342-1361 | Reports a change exactly when the entry is live and new or strictly newer, an addition exactly when the ID was unknown. |
| Silences.Silences.IndexOne | upstream/silence/silence.go:800-808 | Bumps the version and indexes the silence under it if its matchers compile. |
| Silences.Silences.FindVersionGreaterThan | upstream/silence/silence.go:138-143 | The binary search finds the first entry after the version. |
| Silences.Silences.QueryNewer | upstream/silence/silence.go:1202-1229 | Same result as the specification query since a version. |
| Silences.Silences.QueryByIds | upstream/silence/silence.go:1190-1201 | Same result as the specification query by IDs. |
| Silencer.Silencer.Mutes | upstream/silence/silence.go:164-321 | Same answer and same new cache entry as the specification of a call. |
| Silencer.Silencer.PostGC | upstream/silence/silence.go:327-331 | Drops exactly the cache entries of the collected alerts. |
| Labels.OneMatcher | upstream/pkg/labels/matcher.go:62-99 | What one matcher of each type says of a label set, a missing label counting as empty and a regular expression matching the whole value, and when it compiles. |
| Labels.Together | upstream/pkg/labels/matcher.go:184-191 | A list of matchers matches where all of them do, the empty list everywhere. |
| Labels.Either | upstream/pkg/labels/matcher.go:215-222 | Several lists match where one of them does, none of them nowhere. |
| Gossip.ReplicasConverge | upstream/nflog/nflog.go:262-274 | Replicas that received the same live entries, in any order, grouping and number of copies, hold equal states if no two entries share key and time. |
| Gossip.MergeAllHoldsNewest | upstream/nflog/nflog.go:262-274 | Whatever the order, a replica holds for each key the newest live entry it received. |
| Gossip.OrderShowsIff | upstream/nflog/nflog.go:262-274 | For two live entries the order of merging shows if and only if they are different and share key and time. |
| Gossip.FloodingStops | upstream/nflog/nflog.go:610-631 | In every run of deliveries and collections in which a message reaches a node later than its last collection, where a message carries many entries and a node sends it on once for every entry it took, the number of deliveries is at most a measure of the network at the start. |
| Gossip.HopDoesWork | upstream/nflog/nflog.go:610-631 | Every delivery later than the node's last collection lowers the measure, whatever the message makes the node take and send. |
| Gossip.FloodingWhileClockStands | upstream/nflog/nflog.go:262-274 | While the clock stands at the expiry of an entry and nodes are collected after each delivery, there are runs with any number of deliveries. |
| Gossip.RetakenIff | upstream/nflog/nflog.go:513-534 | An entry that a collection removed is taken again if and only if the clock still stands at its expiry. |
| Gossip.SweepMakesNoWork | upstream/nflog/nflog.go:513-534 | A collection never raises it, although it can make a node take older entries again. |
| Gossip.ChangesIffTaken | upstream/nflog/nflog.go:618-629 | A message changes the state exactly when an entry of it is taken. |
| SilenceGossip.SilencesConverge | upstream/silence/silence.go:1298-1361 | Replicas of the silence state that received the same live silences hold the same silences. |
| SilenceGossip.MergeIsGossip | upstream/silence/silence.go:1342-1361 | Merging silences is last-writer-wins merging of their entries. |
| SilenceGossip.MessageIsGossip | upstream/silence/silence.go:1298-1327 | A message of silences is merged, and passed on as often, as a message of their entries. |
| SilenceGossip.CollectionIsGossip | upstream/silence/silence.go:655-715 | While the indices agree, collecting silences removes what collecting their entries does, so that the end of flooding holds for silences too. |
| Nflog.NotificationLog.LogSent | upstream/nflog/nflog.go:464-510 | Writes the entry, for the shorter of retention and a positive expiry, unless one as late is there or its life is already over. |
| Nflog.NotificationLog.MergeOne | upstream/nflog/nflog.go:262-274 | Takes an entry exactly when it is live and new or strictly newer, and says so exactly when the state changed. |
| Nflog.NotificationLog.MergeMessage | upstream/nflog/nflog.go:610-631 | Merges all entries; broadcasts the message once for every entry taken, unless it is oversized, so exactly when the state changed. |
| Nflog.NotificationLog.CollectGarbage | upstream/nflog/nflog.go:513-534 | Removes exactly the outlived entries and counts them; stops with an error exactly when an entry has no expiry, having removed only outlived ones. |
| Dedup.NotifiesExactlyWhen | upstream/notify/dedup_stage.go:52-96 | A notification goes out exactly when nothing is recorded and something fires, or there is news, or something still fires and the repeat interval is over. |
| Dedup.ReasonsExactly | upstream/notify/dedup_stage.go:52-96 | Which reason is given for a notification, each as a condition on the record, the firing and the resolved alerts and the clock. |
| Dedup.PartitionByState | upstream/notify/dedup_stage.go:99-116 | Splits the alerts into firing and resolved, in order and as sets. |
| Dedup.IsSubset | upstream/nflog/nflogpb/set.go:18-47 | True exactly when every hash is recorded. |
| Dedup.Retry | upstream/notify/retry_stage.go:86-189 | Succeeds exactly when there is nothing to send or some attempt succeeded and all before it failed in a retryable way. |
| Dedup.ExecStages | upstream/notify/notify.go:192-263 | Running the stages of a receiver in order has the result and the effect on the log that the specification of a flush says. |
| Dedup.FlushLogsExactly | upstream/notify/set_notifies_stage.go:43-80 | With increasing log times, a flush that notified logs the hashes of its firing and of its resolved alerts in order, for twice the repeat interval or the retention, whichever is shorter; any other flush leaves the log alone. |
| Dedup.LoggingRecords | upstream/notify/set_notifies_stage.go:66-79 | With increasing log times, logging leaves a record that lasts for the shorter of repeat interval and retention. |
| Dedup.NoEarlyRepeat | upstream/notify/dedup_stage.go:52-96 | While such a record stands, no flush without news sends, whatever else is flushed, collected or merged in between. |
| Dedup.RepeatBound | upstream/notify/set_notifies_stage.go:43-80 | After a flush that notified, in any run of flushes for subsets of the same firing and resolved alerts, collections and other entries before the shorter of repeat interval and retention is over: every flush of the group is skipped if and only if each carries no alerts, or has something that still fires, or nothing fired in the first place. |
| Dedup.SkippedIffQuiet | upstream/notify/dedup_stage.go:52-96 | Flush by flush in such a run, up to the first that notifies: it is skipped exactly when it carries no alerts, or something in it still fires, or nothing fired before. |
| Dedup.SendBound | upstream/notify/retry_stage.go:86-189 | In such a run, with log times that increase, no flush of the group tries to send anything if and only if every flush is as in the repeat bound, or, for a receiver that does not want resolved alerts, nothing fires after a flush that had resolved alerts only. |
| Dedup.ClearedRepeatsEarly | upstream/notify/retry_stage.go:86-189 | A receiver that does not want resolved alerts is sent the same firing alert twice inside the window, because a flush of resolved alerts in between was logged without being sent. |
| Dedup.AllResolvedRepeatsEarly | upstream/notify/dedup_stage.go:72-83 | A flush for a subset that does notify inside the window: the firing alert is silenced, and the resolved one that was reported already is left. |
| Cluster.Position | upstream/cluster/cluster.go:659-673 | The loop over the sorted members returns the number of members whose name is smaller. |
| Cluster.RanksDistinct | upstream/cluster/cluster.go:659-673 | Peers with one view and distinct names have distinct positions. |
| Cluster.RanksApart | upstream/cluster/cluster.go:659-673 | Between two members the position rises by one more than the number of members between them by name. |
| Cluster.LessExactly | upstream/cluster/cluster.go:661-663 | The order of names: a proper beginning comes first, otherwise the first difference decides. |
| HighAvailability.ExactlyTheLowestSends | upstream/app/cluster.go:25-29 | Under one shared view, equal alerts at one tick, a round that log entries made in it outlast, and sends that are logged and gossiped within a peer timeout or never succeed: in every interleaving, also with collections, other entries and older records of the key, when the round is over exactly the lowest-ranked peer has sent whose log, this round aside, called for a notification when it checked and whose send succeeds, and nobody if there is none. |
| HighAvailability.AtMostOneSender | upstream/notify/notify.go:200-216 | In every run, at every moment, at most one peer has sent. |
| HighAvailability.CheckDecides | upstream/notify/dedup_stage.go:52-96 | When a peer's wait is over everyone who sent ranks below it, and it decides to notify exactly when there are alerts, its log would call for it without this round, and nobody has sent. |
| HighAvailability.NextOk | upstream/notify/notify.go:200-216 | Every event of the round keeps the invariant on logs, decisions and turns. |
| HighAvailability.FirstChecksAtOnce | upstream/app/cluster.go:25-29 | The first peer by name does not wait. |
| HighAvailability.TimeoutsApart | upstream/app/cluster.go:25-29 | Two peers with k others between them by name check k + 1 timeouts apart. |
| HighAvailability.TurnLastsOneTimeout | upstream/app/cluster.go:25-29 | Every peer has one timeout for its turn. |
| HighAvailability.FirstSends | upstream/notify/notify.go:200-216 | A complete round of two peers: the first sends at the tick, the second checks one timeout later and does not send. |
| HighAvailability.SecondSends | upstream/notify/notify.go:200-216 | The same when the send of the first fails: the second sends, one timeout later. |
| AlertStore.Alerts.Set | upstream/store/store.go:150-175 | Refuses every alert once destroyed, stores it otherwise. |
| AlertStore.Alerts.DeleteIfNotModified | upstream/store/store.go:179-195 | Leaves what the specification says, and destroys the store when it is left empty and that was asked for; never undone. |
| AlertStore.RemainingExactly | upstream/store/store.go:182-187 | An alert survives a deletion exactly when no listed alert has its fingerprint and update time; nothing else changes. |
| AlertStore.ResolvedFromItsEndOn | upstream/dispatch/dispatch.go:921-931 | An alert with an end is resolved exactly from that instant on, one without never. |
| AlertStore.Alerts.CollectGarbage | upstream/store/store.go:112-122 | Removes exactly the resolved alerts and hands each over once. |
| NoAlertLost.NothingIsLost | upstream/dispatch/dispatch.go:441-572 | In every interleaving: if the call for an alert returns, neither refused by the limit nor given up after 100 retries, the alert was put into the live group mapped at its key, and in every later state some version of it is in the live mapped group or a flush that had seen the stored version resolved has notified successfully. |
| NoAlertLost.HeldUntilNotified | upstream/dispatch/dispatch.go:910-961 | No step takes an alert away from the live mapped group but such a flush, and such a flush does. |
| NoAlertLost.AcceptHolds | upstream/dispatch/dispatch.go:457-525 | The group an alert goes into is live and mapped at that moment, although it was looked up earlier. |
| NoAlertLost.OnlyResolvedAreTaken | upstream/store/store.go:179-195 | If update times tell versions apart, the version a flush takes away is one it saw resolved. |
| NoAlertLost.SameUpdateTimeLosesFiring | upstream/store/store.go:184 | Otherwise a run in which a version that ends after the flush is taken away. |
| Dispatcher.StepOk | upstream/dispatch/dispatch.go:281-303 | Every atomic step of workers, flushes, maintenance and sweep keeps the structural invariant: only destroyed groups leave the map, destroyed groups are empty and were started, a worker's own group is its own until published. |
| Dispatcher.NoGroupStartsTwice | upstream/dispatch/dispatch.go:574-593 | In every run no group is started twice, and only started groups are destroyed, so maintenance waits for no group that never ran. |
| GroupLifecycle.AlertJoinsGroup | upstream/dispatch/dispatch.go:457-466 | An alert for a key with a live group goes into that group, whatever the limit, and nothing else changes. |
| GroupLifecycle.AlertIsRefused | upstream/dispatch/dispatch.go:472-488 | Without a live group for its key an alert is refused when the limit is reached, and nothing changes. |
| GroupLifecycle.AlertCreatesGroup | upstream/dispatch/dispatch.go:490-572 | Where there is room, an alert for a key without a group makes one that holds it, is mapped, counted, and started if the dispatcher is running. |
| GroupLifecycle.AlertReplacesGroup | upstream/dispatch/dispatch.go:497-508 | An alert for a key whose group is destroyed makes a new one in its place, and the count stays. |
| GroupLifecycle.AttemptFails | upstream/dispatch/dispatch.go:527-543 | A failed attempt to place a group is made again up to a hundred times, then the alert is given up. |
| GroupLifecycle.FlushDestroysIff | upstream/dispatch/dispatch.go:910-961 | A flush destroys its group if and only if it notified and saw every alert of it resolved and not modified since. |
| GroupLifecycle.MaintenanceCollects | upstream/dispatch/dispatch.go:281-303 | Maintenance of a destroyed group that is mapped unmaps its key, lowers the counter by one, and changes no other slot, group or worker. |
| GroupLifecycle.MaintenanceLeaves | upstream/dispatch/dispatch.go:281-303 | Maintenance leaves a live group alone, and map and counter too if another group has taken the key meanwhile. |
| GroupLifecycle.RoomAgain | upstream/dispatch/dispatch.go:281-303 | In any state with the limit reached and a destroyed group still mapped: a new key is refused, and accepted once that group has been collected. |
| GroupLifecycle.SecondKeyGetsIn | upstream/dispatch/dispatch.go:441-572 | A run from the start in which that happens. |
| GroupStart.EveryGroupStarts | upstream/dispatch/dispatch.go:200-214 | In every interleaving of group creation with the start sweep, once the sweep has been everywhere it had to go, every group ever put into the map was started exactly once or its creator is still about to start it. |
| GroupStart.StepStarts | upstream/dispatch/dispatch.go:560-577 | Every step keeps the invariant behind it, with a map iteration that may miss keys that come and go and may show an earlier group at a key. |
| GroupLimit.SoftLimit | upstream/dispatch/dispatch.go:472-542 | With W ingest workers and a limit L the number of groups never exceeds L + W - 1. |
| GroupLimit.SoftLimitIsReached | upstream/dispatch/dispatch.go:472-516 | For every limit and every number of workers there is a run that reaches L + W - 1 groups. |
| GroupLimit.BoundIsTight | upstream/dispatch/dispatch.go:472-516 | A number bounds the groups of every run if and only if it is at least L + W - 1. |
| GroupLimit.LimitHoldsIffOneWorker | upstream/dispatch/dispatch.go:472-516 | The limit itself is never exceeded if and only if there is one worker. |
| GroupLimit.RunCounts | upstream/dispatch/dispatch.go:281-303 | In every reachable state the counter is the number of mapped groups, up to increments and decrements in flight. |
| GroupLimit.CounterExactAtRest | upstream/dispatch/dispatch.go:509-516 | With none in flight it is exact. |
| RouteLabelCache.NeverServesStale | upstream/dispatch/dispatch.go:751-780 | In every interleaving of readers and writers, a call returns labels rendered from an alert set that includes every change whose generation bump had completed when the call began, as long as there were fewer changes than the counter has values. |
| RouteLabelCache.WrapServesStale | upstream/dispatch/dispatch.go:755-760 | With as many changes as it has values, a run in which a call returns labels older than all of them. |
| RouteLabelCache.FreshIffBelowWrap | upstream/dispatch/dispatch.go:751-780 | No run with up to m changes serves stale labels if and only if the counter has more than m values. |
| RouteLabelCache.StepKeepsInv | upstream/dispatch/dispatch.go:786-788 | Every atomic load, store and bump keeps the invariant on cached renders and on readers in flight. |
| RouteLabelResolver.FailsExactlyOnCycles | upstream/template/template.go:187-219 | Resolving a label fails exactly when a walk along references from it comes back to a label it passed, and the path reported is such a walk. |
| RouteLabelResolver.ResolvesExactly | upstream/template/template.go:187-219 | Whatever is in progress, a label whose references end resolves to its template with references replaced by what they stand for, and no other label resolves. |
| RouteLabelResolver.Resolver.Resolve | upstream/template/template.go:187-219 | Terminates; the memo changes no answer, including the path of a cycle; stack and labels in progress are restored on success and failure. |
| RouteLabelResolver.Resolver.Exec | upstream/template/template.go:239-254 | Rendering a template piece by piece stops at the first failing reference. |
| RouteLabelResolver.RenderAll | upstream/dispatch/dispatch.go:712-740 | Through one shared resolver, in any order, exactly the labels that reach no cycle are rendered, each to its own meaning. |
| RouteTree.IndicesAreExactlyThePostOrder | upstream/dispatch/route.go:70-167 | The indices of a tree are exactly 0 to the index of the root, in post-order. |
| RouteTree.NewRoute | upstream/dispatch/route.go:70-158 | The counter threaded through the construction gives the tree of the specification and ends at its size. |
| RouteMatching.BuildHasShape | upstream/dispatch/route.go:142-158 | The tree has the shape of the configuration: the same paths lead to routes, each with the matchers, the continue flag and the number of children configured there. |
| RouteTree.WalkIndices | upstream/dispatch/route.go:233-238 | Walk visits every route once, so every index exactly once. |
| RouteTree.ParentsComeFirst | upstream/dispatch/route.go:233-238 | Walk begins at the root and visits every other route after its parent. |
| RouteTree.FillSlots | upstream/dispatch/dispatch.go:163-168 | Walking the tree fills every slot of the dispatcher with the route of that index, none twice. |
| RouteTree.MatchRoute | upstream/dispatch/route.go:171-194 | The loop computes the specification of matching. |
| RouteMatching.MatchSelects | upstream/dispatch/route.go:171-194 | A route is returned exactly when it and all its ancestors match, no matching earlier sibling of any of them stops the search, and none of its children matches. |
| RouteMatching.MatchFollowsConfig | upstream/dispatch/route.go:171-194 | In terms of the configuration: the routes returned are those at the paths on which every configured route matches, every matching sibling before any of them continues, and no child of the last one matches. |
| RouteMatching.MatchIsNonEmpty | upstream/dispatch/route.go:188-191 | Something is returned exactly when the route itself matches. |
| RouteMatching.MatchAscends | upstream/dispatch/route.go:171-194 | The routes returned have strictly increasing indices. |
| RouteMatching.AmtoolAgreesIff | upstream/cli/routing.go:104-119 | The final branches amtool prints are the routes the dispatcher uses if and only if the root matches, as a root without matchers does. |
| RouteMatching.GetMatchingTree | upstream/cli/routing.go:104-119 | The loop builds the tree of the specification. |
| MatcherLexer.TokensTile | upstream/matcher/parse/lexer.go:104-145 | For every text, the tokens before the end or the first error tile it: each is the text it spans, in order, with nothing but white space before and between them, and white space alone up to the end or to the place the error names. |
| MatcherLexer.TokenInPlace | upstream/matcher/parse/lexer.go:269-278 | A token is not empty, lies ahead, and only white space precedes it; the end is reported exactly when only white space is left. |
| MatcherLexer.KindByText | upstream/matcher/parse/lexer.go:104-176 | The kind of every token by its text: the three marks and the four operators, quoted exactly if it begins with a quote, unquoted exactly if it has no reserved rune. |
| MatcherLexer.QuotedExactly | upstream/matcher/parse/lexer.go:178-201 | A quoted token runs to the first quote with an even number of backslashes before it, and is unterminated exactly when there is none. |
| MatcherLexer.FailsExactlyWhen | upstream/matcher/parse/lexer.go:104-145 | The lexer fails exactly on a reserved rune that starts nothing, an exclamation mark without an operator, and an unterminated quote. |
| MatcherLexer.Lexer.Scan | upstream/matcher/parse/lexer.go:104-145 | Returns the next token of the specification and moves behind it; a lexer that failed keeps failing. |
| MatcherLexer.Lexer.Peek | upstream/matcher/parse/lexer.go:216-231 | Returns what Scan would and restores the position, so that the next Scan gives the same token. |
| MatcherLexer.Lexer.ScanQuoted | upstream/matcher/parse/lexer.go:178-201 | Runs to the first quote that is not escaped, or fails as unterminated. |
| MatcherLexer.Lexer.ScanOperator | upstream/matcher/parse/lexer.go:147-176 | The operator token, or the error, of the specification; which kind each text has is stated by `KindByText`. |
| MatcherParser.Parser.Expect | upstream/matcher/parse/parse.go:280-289 | A token that was peeked at is the one then scanned; the panic branch cannot be reached. |
| MatcherParser.Parser.ParseAll | upstream/matcher/parse/parse.go:86-100 | The loop over parse functions terminates with the result of the automaton. |
| MatcherParser.Step | upstream/matcher/parse/parse.go:102-243 | Every call of a parse function moves forward in the input or to a parse function of lower rank. |
| MatcherParser.Parser.ParseOneMatcher | upstream/matcher/parse/parse.go:146-192 | Appends the matcher or fails with the error of its first fault; the bad-operator panic cannot be reached. |
| MatcherGrammar.AcceptsOnlySentences | upstream/matcher/parse/parse.go:86-243 | Whatever the parser accepts is a list of matchers separated by commas, perhaps with a trailing comma, in braces on both sides or on neither, and the matchers returned are those of the text in order; all in terms of token texts, the operator text giving the type of matcher. |
| MatcherGrammar.AcceptsEverySentence | upstream/matcher/parse/parse.go:86-243 | Every such text whose quoted parts unquote and whose expressions compile is accepted, with its matchers in order. |
| MatcherGrammar.FirstFault | upstream/matcher/parse/parse.go:146-192 | Which fault is reported for a matcher that cannot be read: the first of a missing name, a name that cannot be unquoted, a missing operator, a missing value, a value that cannot be unquoted, a matcher that does not compile. |
| MatcherGrammar.OtherFaults | upstream/matcher/parse/parse.go:131-243 | When each of the other parse functions fails, and with which error, by the text that comes next. |
| Inhibition.InhibitorsAreGenuine | upstream/inhibit/inhibit.go:186-238 | In all runs a reported inhibitor is in the cache, unresolved, matches the source side, has the same equal labels, and is not the alert itself. |
| Inhibition.NoMutualInhibition | upstream/inhibit/inhibit.go:410-420 | Under one rule no two alerts inhibit each other, even at different times of different runs. |
| Inhibition.InhibitsLikeAScan | upstream/inhibit/inhibit.go:186-238 | With set end times that never move back while an alert is cached, resolved alerts being removed, and no callback that deletes the entry of a cached alert, every label set is inhibited exactly when a linear scan of the cache finds an inhibitor, if and only if no two-sided source hides a one-sided one from it; so always if it does not match the source side. |
| Inhibition.AnswersLikeAScanIff | upstream/inhibit/inhibit.go:410-420 | In any state in which the index agrees with a scan, the answer for a label set is that of the scan, unless the label set and the indexed source match both sides and another source would inhibit it. |
| Inhibition.TwoSidedHidesInhibitor | upstream/inhibit/inhibit.go:410-420 | A run without any of the disturbances in which an alert is inhibited, a two-sided source takes the index entry, and the alert is no longer inhibited although the one-sided source fires. |
| Inhibition.StaysExactIff | upstream/inhibit/inhibit.go:346-404 | A step keeps the index in agreement with a scan if and only if it neither moves the indexed alert's end before another's, nor compares an unset end, nor deletes the entry for the equal labels of an alert in the cache; removing resolved alerts always does. |
| Inhibition.CollectionHidesInhibitor | upstream/inhibit/inhibit.go:399-404 | A run in which a target is inhibited, a resolved source is collected, and the target is no longer inhibited although another source with the same equal labels fires. |
| Inhibition.EarlierEndHidesInhibitor | upstream/inhibit/inhibit.go:359-361 | The same when the indexed source is resolved while another one fires. |
| Inhibition.NoEndHidesInhibitor | upstream/inhibit/inhibit.go:371-374 | A source without an end, if one gets there, is not found once the indexed one has ended. |
| Inhibitor.InhibitRule.UpdateIndex | upstream/inhibit/inhibit.go:346-377 | Same new index as the specification. |
| Inhibitor.InhibitRule.RemoveResolved | upstream/store/store.go:112-122 | Takes exactly the resolved alerts out of the cache and hands them over. |
| Inhibitor.InhibitRule.CollectGarbage | upstream/store/store.go:96-109 | Removal and callback one after the other: the resolved alerts go, and the index entry for the equal labels of each. |
| Inhibitor.InhibitRule.DropEntries | upstream/inhibit/inhibit.go:399-404 | Deletes exactly the entries for the equal labels of the alerts handed over. |
| Inhibitor.Inhibitor.ProcessAlert | upstream/inhibit/inhibit.go:111-137 | Every rule takes the alert, whatever the others do. |
| Inhibitor.Inhibitor.Mutes | upstream/inhibit/inhibit.go:186-238 | Muted exactly when some rule has an inhibitor; the first such rule's is reported. |
| ExpiryBucket.Bucket.Upsert | upstream/limit/bucket.go:117-160 | Keeps heap, positions and capacity; refuses exactly when the capacity is below one, or the value is new, the bucket full and nothing expired; evicts a value that expires first and has expired; otherwise only adds or updates the value. |
| ExpiryBucket.Bucket.Up | upstream/limit/bucket.go:138 | Sifting up restores the heap and changes no content. |
| ExpiryBucket.Bucket.Down | upstream/limit/bucket.go:146 | Sifting down restores the heap, or leaves everything in place for sifting up. |
| ExpiryBucket.Bucket.Fix | upstream/limit/bucket.go:70-73 | Restores the heap after one expiry changed. |
| ExpiryBucket.Bucket.Pop | upstream/limit/bucket.go:59-67 | Takes out exactly the root. |
| ExpiryBucket.Bucket.Swap | upstream/limit/bucket.go:44-48 | Exchanges two items and keeps the positions in step. |
| ExpiryBucket.Bucket.IsStale | upstream/limit/bucket.go:101-110 | Tells whether the last slot has expired; true if everything has. |
| ExpiryBucket.StaleExactIff | upstream/limit/bucket.go:101-110 | The last slot tells at every time whether everything has expired, if and only if it expires last. |
| ExpiryBucket.StaleButNotExpired | upstream/limit/bucket.go:101-160 | Three Upserts into an empty bucket after which it counts as stale although one value has not expired. |
| WebhookBatching.NothingLostOrReordered | upstream/eventrecorder/webhook.go:332-395 | For every sequence of events and timer ticks, the batches handed over and the open one are together the events in order. |
| WebhookBatching.BatchesWithinLimits | upstream/eventrecorder/webhook.go:357-374 | No batch is empty or has more than the maximum of events, any batch of two or more events is at most the maximum size, and the open batch is below both limits. |
| WebhookBatching.BatchesAreFilled | upstream/eventrecorder/webhook.go:357-374 | Unless the timer fires, a batch is handed over only if it has reached a limit or the next event does not fit into it. |
| WebhookBatching.EncodedInOrder | upstream/eventrecorder/webhook.go:404-414 | The array is a bracket, the events in their order with a comma between any two, and a bracket. |
| WebhookBatching.Batcher.Add | upstream/eventrecorder/webhook.go:357-374 | The tracked size is always the length of the encoded array, the timer is armed exactly when the batch is not empty, and the new batches are those of the specification, which goes by the real length. |
| WebhookBatching.Batcher.Flush | upstream/eventrecorder/webhook.go:348-356 | Hands over the open batch, if any, as a JSON array. |
| WebhookBatching.BatchLoop | upstream/eventrecorder/webhook.go:377-394 | What is posted are the arrays of batches that concatenate to exactly the events received. |
| WebhookBatching.JsonArray | upstream/eventrecorder/webhook.go:404-414 | The events in brackets, separated by commas. |
| WebhookBatching.NewLimits | upstream/eventrecorder/webhook.go:177-193 | Limits and flush interval are positive: the configured ones where these are, the defaults otherwise. |

## Left out

- HTTP, gRPC and command-line front ends, the user interface, and the Kafka, file and stdout event outputs: input and output around the modelled core.
- memberlist, TLS, connection pools, peer discovery, joining and settling: gossip is modelled as deliveries of entries in any order.
- Protobuf encoding: a snapshot or message is a list of records; the snapshot of the notification log, which has no conversion around it, is not modelled.
- Configuration parsing, inheritance of route options and receiver integrations: long but shallow.
- Time intervals, grouping labels of a route, metrics, logging, tracing and event recording inside the modelled functions.
- Locks of the silence store and cache: each operation, including a whole Mutes call and a whole GC, is one atomic step.
- The race between the two writes of the inhibitor's processing of an alert: cache and index are updated in one step.
- RouteTree.NewRoute: the options a route inherits from its parent are not modelled, as each is one assignment.
- MatcherLexer.Lexer.Scan: offsets and columns both count runes; byte widths of runes are not modelled.
- MatcherParser.Parser.ParseAll: error values keep their kind and cause, not their wording.
- AlertStore.Alerts.Set: the per-alert limit, which groups and inhibition rules do not use, is modelled on its own in `ExpiryBucket`.
- ExpiryBucket.Bucket.Swap: items are values and their positions a map from value to slot; sharing of item pointers between heap and index is not modelled.
- Shutdown, cancellation and timers of the dispatcher: when a flush runs and whether it notifies is left open, so the theorems hold for every choice.
- Scheduling: that a worker still about to start its group eventually does is not stated.
- WebhookBatching.BatchLoop: delivery of a batch and its retries, and events dropped before the loop because the queue is full, are not modelled.
