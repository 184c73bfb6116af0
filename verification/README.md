# Disappearing Messages: verified model

A Dafny model of the Mattermost plugin that deletes the messages of a channel after a
per-channel time to live (TTL). It covers the way of a message from the TTL setting over the
expire index to its deletion, and the surface through which TTLs are set and shown.

Check everything with `dafny verify dfyconfig.toml`.

## What is modelled

**Sequential code.** The Go objects that change state are classes whose methods are proved
against functions and predicates on their fields: the expire index (`ExpireIndex`), the
transactional purge over any footprint list (`Purge`), the configuration switch
(`Allowlist`, `PurgerSwitch`), one sweep tick (`Sweeper`), the post hook (`ThreadExpiry`), the
settings store and service (`KvStore`, `TtlService`) and the HTTP and slash-command handlers
(`Api`). Text and arithmetic are functions (`Labels`, `TtlRules`, `Int64`). Every call that can
fail takes its failure as a parameter, so each contract covers all failure points. The clock,
the licence, the server version and the answers to permission queries are parameters too. Laws in
terms of literal names and values stand beside the definitions: `Padding` for the allowlist as it is
typed, `Groups` for duration texts, `Footprint` for the four tables, and `RoundTrips` for what a
client reads back and what its posts get.

**The interleaved protocol.** `Protocol` is one transition system over the TTL settings, the
index, the four footprint tables, the live configuration, any number of post hooks (split into
TTL read, insert and thread bump) and any number of sweep ticks (split into fetch, routing, each
DeletePost call, commit and prune). Any process can fail or crash between its steps; settings
and configuration change at any time; the rest of the server creates posts and writes and
deletes rows. On it stand conservation (`Conservation`), the reason and the earliest time of
every deletion (`Lifetime`, `Lifespan`, `EarlyDeletion`), the value of every row and whether a tick deletes a row
that moved on since its fetch (`RowHistory`, over the write history of `Updates`), one expiry per
thread (`ThreadUniformity`), the thread maximum (`ThreadMaximum`) and progress under load
(`Starvation`). What a theorem assumes about the order of hooks it assumes of one thread only.
`Settings` ties every TTL and every hard purge of a run to the latest setting and configuration.
`Uninterrupted` ties the steps, run alone, back to the sequential models, `ServiceSteps` shows that
calls of the service, the hook and the sweeper are runs of these steps, and `Counterexamples`
holds runs that refute five stronger claims, whose exact conditions the theorems above state.

**Concurrent settings writes.** `KvConcurrency` interleaves any number of compare-and-set calls
and clears on one key, equal values written again included. `KvRounds` shows that the sequential
retry loop under any interference is one of its calls.

## Assumptions

- A transaction and each SQL statement take effect in one step; a failed commit or write did
  not take effect. The same holds for each key-value call.
- The rest of the server uses fresh post ids and adds related rows only to posts that exist.
- `ORDER BY expire_at` has no tie-breaker, so a query may return any batch satisfying `IsBatch`.
- A hook runs once per delivery; its errors are logged and not retried.

## Where the code and its comments differ

- server/expiry/service.go:75-80 argues that a bump can never move an earlier row back because
  the root is indexed first. That order is neither enough nor needed: `ShorterTtlRegressesThread`
  has the root first and a shortened TTL, and expiries that do not decrease along a thread never
  need the suggested GREATEST bump, late roots included (`NonDecreasingNeedsNoGreatest`; for all
  runs the exact condition is that of `BumpsAgreeIffForward`). The order matters for the maximum:
  with roots first all rows carry their thread's maximum after every event exactly when the
  delivered expiries do not decrease along a thread (`MaximaIffNonDecreasing`); for runs with late
  roots and prunes the condition is that of `MaximaIffSafe`, and `LateRootBreaksMaxima` shows that
  it says more. Nor would the GREATEST bump restore one expiry per thread, because it never raises
  the reply's own row (`ForwardBumpUnifiesIffSafe`).
- The same comment takes for granted that hooks do not overlap or fail. `LateRootSplitsThread`
  leaves a quiescent thread with two expiries, which in a settled thread happens exactly when the
  root's row was inserted after the thread's last bump with another value (`UniformIffNoLateRoot`);
  `CutOffReplySplitsThread` does so by a failed bump, and `UniformIffRowsInTime` and
  `UniformIffLastWritesAgree` give the condition for threads with cut-off hooks.
- `StaleBumpShortensLife` lets a late bump move a newer reply back, so that it is deleted ten
  seconds after it was sent. Rows always stay a minute past the send time exactly when every bump
  carries a value a minute past the send times of all posts it overwrites (`LiveIffSpared`), and
  exactly then no ticks that may follow take a post too early (`NeverEarlyIffSpared`).
- A bump that extends a thread may come too late: `BumpAfterFetchIsTooLate` deletes a post whose
  row lies in the future. That happens exactly when the latest insert or bump of the row since the
  tick's fetch set a value past the tick's clock (`RemovesLaterRowIffMovedOn`).
- server/api/handler.go:114 says the service stored exactly the echoed setting. That fails for
  requests whose product wraps (`EchoIsStoredIffUnwrapped`).
- server/api/command.go:75 lists a preset 30s that does not exist; 30s is parsed as a duration
  and then rejected as too short (`ThirtySecondsIsNoPreset`).
- server/sweeper/sweeper.go:56-58 says that rows are pruned when the purge succeeded and kept when
  it failed. The soft path counts a failed DeletePost as success (server/purger_switch.go:63-72):
  the posts of a pruned soft batch were all deleted exactly when DeletePost failed for none of them
  that was not deleted before (`PrunedPostsAreDeletedIff`; `RefusedPostIsForgotten` is an instance
  that fails). Conservation therefore names the posts DeletePost refused.

## Model

| member | source | states |
|---|---|---|
| `SqlText.InClause` | server/purge/purge.go:81-90 | the IN list is a parenthesised "?, ?, ..." spelled out character by character with one placeholder per id, and binds the ids in order |
| `ExpireIndex.SqlStore.Upsert` | server/expiry/store.go:69-83 | a failed insert changes nothing, a successful one inserts the row or replaces all but its creation time |
| `ExpireIndex.UpsertTwice` | server/expiry/store.go:69-76 | indexing a post again keeps the first creation time, takes the rest from the later row and concerns no other row |
| `ExpireIndex.SqlStore.UpdateExpireByRoot` | server/expiry/store.go:85-92 | exactly the rows of the thread get the new expiry, nothing else changes, a failure changes nothing |
| `ExpireIndex.SqlStore.SelectExpired` | server/expiry/store.go:109 | picking the earliest remaining row, ties broken arbitrarily, yields a batch in the sense of IsBatch |
| `ExpireIndex.SqlStore.GetExpired` | server/expiry/store.go:111-127 | success returns due rows, oldest first, distinct, at most the limit, leaving out only later-or-equal rows and only when full; statement and read failures are errors |
| `ExpireIndex.BatchSize` | server/expiry/store.go:109-127 | a batch holds min(limit, number of expired rows) distinct expired posts, and all of them when they fit |
| `ExpireIndex.BatchClosesThreads` | server/expiry/store.go:109-127 | from a uniform index a thread is split only when the batch is full and the thread ties with the last row returned |
| `ExpireIndex.ShortBatchTakesWholeThreads` | server/expiry/store.go:109-127 | a batch below the limit contains a row exactly when some row of its thread has expired, so threads are taken whole |
| `ExpireIndex.SqlStore.DeleteByPostIDs` | server/expiry/store.go:138-147 | removes exactly the listed rows, does nothing for an empty list, and nothing on failure |
| `Purge.SqlPurger.Purge` | server/purge/purge.go:57-79 | for any footprint and failure point: success exactly when the batch is empty or the commit is reached; then every table lost exactly the selected rows; otherwise nothing changed |
| `Purge.PurgesCompose` | server/purge/purge.go:5-7 | two purges equal one purge of the union; purging commutes and is idempotent |
| `Purge.PurgeRemovesExactly` | server/purge/purge.go:37-45 | after a purge a post has rows in the footprint tables exactly when it had some and was not purged; each single row the footprint keys by the post stays exactly when the post was not purged |
| `Footprint.PurgePosts` | server/purge/purge.go:37-79 | over the plugin's footprint a purge that commits, as it does without a fault while the four tables exist, takes exactly the posts rows with a listed id and the fileinfo, reactions and mentions rows with a listed post_id; otherwise nothing |
| `Footprint.PurgeRemovesWhatBelongs` | server/purge/purge.go:37-45 | the same of the table effect, every other table being unchanged |
| `Purge.OneMoreStatement` | server/purge/purge.go:68-74 | running the statement of the next footprint pair extends the purge by that pair |
| `Allowlist.PurgeSchemaAllowlist` | server/configuration.go:21-32 | the loop returns the trimmed non-empty parts in order |
| `Allowlist.ParsedEntriesAreClean` | server/configuration.go:21-32 | whatever the raw text, no parsed entry is empty, padded or contains a comma |
| `Allowlist.ParseInvertsJoin` | server/configuration.go:21-32 | parsing a comma-joined list gives it back exactly when all its entries are non-empty, trimmed and comma-free |
| `Padding.PaddingIsStripped` | server/configuration.go:21-32 | entries typed between commas with any tabs, newlines and blanks around them, and empty parts between, come back bare and in order |
| `Padding.TypedEntriesDecide` | server/configuration.go:54-94 | with purging enabled and no licence a version is purged hard exactly when some such entry starts it, however it was padded, and skipped otherwise |
| `Allowlist.HardExactlyWhenGuarded` | server/configuration.go:54-94 | hard purge exactly when enabled, unlicensed and a non-empty listed prefix matches the version; soft exactly when disabled or licensed |
| `PurgerSwitch.ConfigPurger.Purge` | server/purger_switch.go:44-61 | soft: one DeletePost per id in order, deleting the posts whose call did not fail, and always success; skip: its own error, which no other path returns, and nothing touched; hard: only the database, atomically; success counts the whole batch |
| `PurgerSwitch.ConfigPurger.SoftDelete` | server/purger_switch.go:65-72 | every id is passed to DeletePost in order and counted as done; exactly the posts whose call did not fail are deleted |
| `Sweeper.Sweeper.constructor` | server/sweeper/sweeper.go:43-54 | a batch size of zero or less becomes 500, so the size is positive |
| `Sweeper.Sweeper.Run` | server/sweeper/sweeper.go:59-82 | every exit of a tick, which batch, mode, commit and prune failure determine: nothing expired, purge failed exactly on a skip or a missed commit, prune failed, or pruned; off the soft path it is one tick of the sweep model, a fault-free hard tick finishes; on the soft path the batch is passed to DeletePost, the posts whose call did not fail are deleted and the batch is pruned unless the prune fails |
| `Sweeper.PrunedPostsAreDeletedIff` | server/purger_switch.go:63-72 | a soft tick that prunes takes exactly its batch out of the index, and all of these posts are deleted exactly when DeletePost failed for none that was not deleted before |
| `SweepRuns.DrainsInCeilTicks` | server/sweeper/sweeper.go:56-82 | at a fixed clock the busy successful ticks are min(successes, ceil(n/limit)) and nothing expired is left exactly from ceil(n/limit) successes on, with failures anywhere in between |
| `SweepRuns.RetriesConverge` | server/sweeper/sweeper.go:56-82 | any mix of failed ticks with enough successful ones ends in index minus expired rows and tables minus the expired posts' rows |
| `SweepRuns.RunsAreConfluent` | server/sweeper/sweeper.go:56-82 | two drained runs end in the same state whatever their batch sizes, tie orders and failures |
| `SweepRuns.TickKeepsGoal` | server/sweeper/sweeper.go:56-82 | no tick, failed or not, changes the state the sweep is heading for |
| `SweepRuns.OnlyExpiredAreTouched` | server/sweeper/sweeper.go:59-82 | at every point of a run index rows due later are unchanged, a post not due has rows exactly when it had some, and a post that left the index has none |
| `SweepRuns.RowsNotDueStay` | server/sweeper/sweeper.go:59-82 | at every point of a run, for any footprint, each row that is not keyed by a post due at the start is in its table exactly when it was there |
| `ThreadExpiry.ExpiryService.OnPostCreated` | server/expiry/service.go:53-87 | every exit of the hook: unreadable TTL or no TTL leaves the index alone, a failed bump leaves the inserted row, success is insert plus whole-thread overwrite with send time + TTL in 64 bits; for a stored setting in bounds the new row's columns and the thread's expiry are stated one by one |
| `ThreadExpiry.MaximaIffSafe` | server/expiry/service.go:75-85 | for every run, late roots and prunes included: all rows carry the maximum of send time + TTL over the posts delivered in their thread after every event exactly when no delivery has a smaller value than an earlier one of its thread and no root comes after still indexed posts of its thread with a value not given before |
| `ThreadExpiry.RowsArePresent` | server/expiry/store.go:69-92 | a post has a row in a thread exactly when its latest delivery was there and no prune took it since |
| `ThreadExpiry.MaximaIffNonDecreasing` | server/expiry/service.go:75-85 | with roots first the maxima hold after every event exactly when expiries do not decrease along a thread |
| `ThreadExpiry.LateRootBreaksMaxima` | server/expiry/service.go:77-80 | a run with non-decreasing expiries where a late root breaks the maximum |
| `ThreadExpiry.RowsCarryThreadMaximum` | server/expiry/service.go:75-85 | with the root first and expiries non-decreasing along a thread, every surviving row equals the maximum of send time + TTL over all posts delivered in its thread, with any prunes in between |
| `ThreadMaximum.RowsCarryThreadMaximum` | server/expiry/service.go:62-85 | the same in the interleaved protocol, thread by thread: if the hooks of a thread are apart, its root is first, its expiries do not decrease and none of its hooks fails, its rows carry its maximum while none of its hooks is in flight, whatever hooks of other threads, ticks, crashes and configuration do |
| `ThreadMaximum.MaximumIffLastWriteCovers` | server/expiry/service.go:62-85 | in every reachable state, hooks overlapping and failing, a row carries its thread's maximum exactly when the latest write to it gave no smaller value than any hook of the thread computed |
| `ThreadMaximum.MaximaIffLastBumpCovers` | server/expiry/service.go:75-85 | in a settled thread with a reply and without a late root all rows carry the maximum exactly when the last bump did |
| `ThreadExpiry.BumpsAgreeIffForward` | server/expiry/service.go:75-85 | the overwriting and the GREATEST bump give the same index after every event exactly when no bump finds a later row in its thread |
| `ThreadExpiry.NonDecreasingNeedsNoGreatest` | server/expiry/service.go:75-80 | expiries that do not decrease along a thread give the same index with either bump after every event, in whatever order roots and replies come |
| `ThreadExpiry.ShorterTtlRegressesThread` | server/expiry/service.go:77-80 | a run with the root first where a shortened channel TTL makes a reply pull the thread back |
| `ThreadExpiry.ForwardBumpUnifiesIffSafe` | server/expiry/service.go:79-80 | the GREATEST bump leaves the thread uniform exactly when the overwriting bump was already safe |
| `Uninterrupted.HookAloneDelivers` | server/expiry/service.go:53-87 | the interleaved hook steps, run alone, are one delivery of the sequential model |
| `Uninterrupted.HardTickAloneFinishes` | server/sweeper/sweeper.go:59-82 | the interleaved tick steps, run alone on the hard path, are one finished tick of the sweep model |
| `Uninterrupted.SoftTickAlonePrunes` | server/sweeper/sweeper.go:59-82 | the interleaved tick steps, run alone on the soft path, are one soft tick that prunes, whichever DeletePost calls fail |
| `ServiceSteps.SetIsAStep` | server/ttl/service.go:41-55 | a successful SetTTL is one SetTtl step with the whole seconds of its duration, any other call none, and the store keeps showing the settings |
| `ServiceSteps.ClearIsAStep` | server/ttl/service.go:80-87 | a successful ClearTTL is one ClearTtl step, and the store keeps showing the settings |
| `ServiceSteps.PostIsAHook` | server/expiry/service.go:53-87 | the post hook is a run of the post's hook steps when its channel has a TTL, no step otherwise, with the same index |
| `ServiceSteps.TickIsARun` | server/sweeper/sweeper.go:59-82 | a sweeper tick is a run of the tick's steps in every mode, with the same index, tables and DeletePost deletions |
| `Conservation.NothingIsLost` | server/sweeper/sweeper.go:56-82 | over every interleaved run an indexed post is still indexed, or has no posts row with its id and no fileinfo, reactions or mentions row with its post_id, or was deleted by DeletePost, or DeletePost failed for it |
| `Conservation.OnlyPrunesRemoveRows` | server/sweeper/sweeper.go:75-81 | a row leaves the index only by the prune of a tick that purged it before; failed or skipped purges and crashes remove none |
| `Conservation.CommitRemovesWhatBelongs` | server/purge/purge.go:68-77 | a commit step takes exactly the rows of the four tables that belong to the batch's posts |
| `Conservation.StoppingIsHarmless` | server/sweeper/sweeper.go:56-82 | every hook and tick may stop at any point, and that alone changes no index row, table or deletion |
| `Conservation.SkippedTickIsRetriable` | server/purger_switch.go:52-57 | fetching and routing leave the whole state as before the fetch, ready for the same fetch, exactly on a schema skip |
| `Conservation.SkipRemovesNothing` | server/purger_switch.go:52-57 | while the guard skips and no tick was routed before, no step of any run purges a post, passes one to DeletePost or takes a row out of the index |
| `Lifetime.RemovalsWereDue` | server/expiry/service.go:62-85 | every post a tick purged or passed to DeletePost, whatever the call answered, had, when fetched, a row due by the tick's clock, whose value is send time + TTL of a post of the same thread, and that TTL was the channel's setting when that post's hook started; hard deletions happened only under the guard as configured at their routing |
| `Settings.WritesFollowSettings` | server/expiry/service.go:54-62 | every expiry of a run was computed with the TTL of the latest set of the post's channel before its hook started, or the initial one, with no clear since |
| `Settings.SettingIsLastChange` | server/ttl/store.go:80-109 | the setting after a run is that of the channel's last set or clear |
| `Settings.NoHookWhileOff` | server/expiry/service.go:58-60 | after a clear no hook of the channel's posts starts until the next set |
| `Settings.HardPurgesFollowConfiguration` | server/purger_switch.go:48-49 | every hard purge of a run was routed under the configuration, licence and version live at its routing |
| `Lifetime.DeletionsAreRecorded` | server/sweeper/sweeper.go:75-78 | the record the lifetime theorems speak about misses no purge and no first deletion or refusal by DeletePost, and states which it was |
| `Lifespan.LiveIffSpared` | server/expiry/service.go:21-26 | over any run, however hooks overlap: the rows of a thread always stay a minute past their own posts' send times exactly when every bump of the thread carries a value a minute past the send times of all posts it overwrites |
| `Lifespan.SparedPostsLiveAMinute` | server/expiry/service.go:21-26 | in such a run no tick purges a post of the thread or passes it to DeletePost less than a minute after its send time |
| `EarlyDeletion.AnyRowCanBeTaken` | server/sweeper/sweeper.go:59-82 | from any state ticks alone, after a change to soft deletion, delete any indexed post with a clock that is the expiry of its row, whatever the batch size |
| `EarlyDeletion.NeverEarlyIffSpared` | server/expiry/service.go:21-26 | over any run: no ticks that follow at any point take a post of the thread less than a minute after its send time exactly when every bump of the thread spares the posts it overwrites |
| `Lifespan.EveryPostLivesAMinute` | server/expiry/service.go:21-26 | with the hooks of a thread in send order and not overlapping, no tick purges a post of the thread or passes it to DeletePost less than a minute after its own send time, whatever other threads do |
| `RowHistory.FetchedRowIsLaterIffMovedOn` | server/expiry/store.go:69-92 | at any point of a tick a fetched row that is still indexed lies past the tick's clock exactly when the latest insert or bump of it since the fetch set such a value |
| `RowHistory.RemovesLaterRowIffMovedOn` | server/sweeper/sweeper.go:61-75 | a tick purges a post, or passes it to DeletePost, while its current row lies in the future exactly in that case |
| `ThreadUniformity.RepliesFollowLastBump` | server/expiry/service.go:62-85 | hooks in any order: a reply's row differs from the thread's last bump only while its own hook has not bumped, or was cut off before it could and no bump reached the row since; other hooks of the thread may be cut off |
| `ThreadUniformity.UniformIffLastWritesAgree` | server/expiry/service.go:62-85 | in every reachable state a thread has one expiry exactly when the latest writes of its rows gave one value |
| `ThreadUniformity.UniformIffRowsInTime` | server/expiry/service.go:75-85 | cut-off hooks, hooks in flight and late roots included: once one reply follows the last bump, the thread has one expiry exactly when no row of it was inserted after that bump with another value |
| `ThreadUniformity.UniformIffNoLateRoot` | server/expiry/service.go:75-85 | hooks in any order: a thread with no hook between its writes and none cut off has one expiry exactly unless its root shares the index with a reply and was inserted after the last bump with another value |
| `ThreadUniformity.IndexUniformIffNoLateRoot` | server/expiry/service.go:75-85 | the same for the whole index when every thread is settled |
| `ThreadUniformity.RootFirstThreadIsUniform` | server/expiry/service.go:75-85 | a settled thread whose root's hook neither follows nor overlaps a reply's has one expiry, whatever other threads do |
| `ThreadUniformity.SettledFetchTakesWholeThread` | server/expiry/store.go:109-127 | a fetch takes a settled thread without a late root whole or not at all unless its batch is full |
| `Starvation.ExpiredRowLeaves` | server/expiry/store.go:109-127 | a due row with k others at or before its expiry is gone after k/limit + 1 completed ticks of a sweeper, among arbitrary other steps that write later expiries and leave the row alone |
| `Counterexamples.BumpAfterFetchIsTooLate` | server/sweeper/sweeper.go:61-75 | a reachable state in which a tick deleted a post whose current row lies in the future |
| `Counterexamples.LateRootSplitsThread` | server/expiry/service.go:75-85 | a reachable quiescent state without failures in which a late root hook left a thread with two expiries |
| `Counterexamples.StaleBumpShortensLife` | server/expiry/service.go:62-85 | overlapping hooks of one thread let a tick delete a post ten seconds after its send time with a TTL of five minutes |
| `Counterexamples.CutOffReplySplitsThread` | server/expiry/service.go:81-85 | a reachable state without hooks in flight in which a reply whose bump failed has another expiry than its thread |
| `Counterexamples.RefusedPostIsForgotten` | server/purger_switch.go:63-72 | a post whose DeletePost fails leaves the index with its rows still in the tables and undeleted |
| `KvStore.Store.Get` | server/ttl/store.go:63-76 | absent or empty bytes are no setting, an encoded setting is returned as stored, anything else and a failed read are errors |
| `KvStore.Store.Set` | server/ttl/store.go:80-101 | under any interference: earlier rounds were conflicts, success writes exactly its value at the swap of a round without failures, errors write nothing, giving up means a conflict in each of maxRetries rounds |
| `KvStore.Store.Clear` | server/ttl/store.go:104-109 | removes exactly the channel's key, nothing on failure |
| `RoundTrips.ReadBack` | server/ttl/store.go:63-101 | a read after a successful set, whatever others did during the set, returns exactly the setting |
| `RoundTrips.ReadOther` | server/ttl/store.go:59-61 | a set or clear of one channel does not show on another one |
| `RoundTrips.ReadCleared` | server/ttl/store.go:63-109 | a read after a clear finds no setting |
| `KvRounds.SetIsOneCall` | server/ttl/store.go:80-101 | the retry loop under any interference is one call of the concurrent model: some interleaving leaves the same value and ends the call the same way |
| `KvConcurrency.Linearization` | server/ttl/store.go:86-100 | among any number of concurrent calls the value is that of the last commit or clear, a successful call committed exactly once during the call, any other left no trace |
| `KvConcurrency.OneValueSurvives` | server/ttl/store.go:35-37 | without clears the value is the input of some successful call once there is one, else the initial value |
| `KvConcurrency.GivingUpNeedsConflicts` | server/ttl/store.go:86-100 | giving up means maxRetries writes by others, one in each of as many disjoint read-to-swap windows of the call, each window having changed the value |
| `KvConcurrency.GivingUpNeedsDistinctCallers` | server/ttl/store.go:86-100 | without clears those writes came from maxRetries distinct other calls, all successful |
| `KvConcurrency.GivingUpNeedsCallersOrClears` | server/ttl/store.go:86-100 | a call gives up only if the other calls and the clears together number at least maxRetries |
| `KvConcurrency.FewWritersNeverGiveUp` | server/ttl/store.go:42-45 | with at most maxRetries calls in all and no clears, no call gives up |
| `KvConcurrency.OneMoreWriterCanGiveUp` | server/ttl/store.go:86-100 | that bound is tight for every maxRetries: with one call more and no clears a call can give up |
| `TtlRules.StoredSecondsInBounds` | server/ttl/ttl.go:35-40 | a duration that passes validation is stored as 60 to 31536000 seconds |
| `TtlRules.BoundsAreMinuteAndYear` | server/ttl/ttl.go:8-13 | validation accepts exactly 60 seconds to 31536000 seconds |
| `TtlRules.ExpiryWraps` | server/expiry/service.go:62 | an expiry is send time plus whole milliseconds of the TTL, wrapped to 64 bits, for any stored seconds and any send time |
| `TtlRules.StoredSecondsAreExact` | server/expiry/service.go:62 | stored seconds never overflow the later products, validate again, and give send time + TTL exactly for realistic send times |
| `TtlRules.FloatSecondsAreWhole` | server/ttl/service.go:51 | the conversion of a validated product to seconds through a float within 2^-28 of the exact quotient stores exactly its whole seconds, a wrapped product included |
| `TtlRules.EchoIsStoredIffUnwrapped` | server/api/handler.go:109-117 | the response of an accepted POST equals the stored seconds exactly when the request is at most a year; above that its product overflowed |
| `TtlRules.WrappedRequestStoresAnHour` | server/api/handler.go:109-117 | 2^55 + 3600 seconds is accepted and stores one hour |
| `TtlService.WhoMayManage` | server/ttl/service.go:94-117 | who passes the permission check, and when the channel is reported missing |
| `TtlService.Service.SetTTL` | server/ttl/service.go:41-55 | validation before permission before the write; an accepted call ends, and leaves the store, exactly as the retry loop does for its duration in whole seconds; a rejected one leaves the store alone |
| `TtlService.Service.GetTTL` | server/ttl/service.go:59-70 | the stored seconds as a duration, none when unset, errors passed on |
| `TtlService.Service.ClearTTL` | server/ttl/service.go:80-87 | a denied or failed clear changes nothing, otherwise exactly the channel's setting is gone |
| `RoundTrips.SetThenGet` | server/ttl/service.go:41-70 | a duration that was set is read back cut to whole seconds |
| `RoundTrips.ClearThenGet` | server/ttl/service.go:59-87 | after a clear no TTL is read |
| `RoundTrips.SetThenPost` | server/expiry/service.go:53-87 | a post written after its channel's TTL was set expires that many whole seconds after its send time, with its own columns, and a reply takes its thread along |
| `RoundTrips.ClearThenPost` | server/expiry/service.go:58-60 | a post written after its channel's TTL was cleared leaves the index alone |
| `Labels.LabelSecondsInvertsPrinter` | webapp/src/presets.ts:18-33 | a number-unit reader inverts the label printer on every non-negative integer |
| `Labels.PrinterIsInjective` | webapp/src/presets.ts:18-33 | different seconds print different labels |
| `Labels.ParseOneGroup` | server/api/command.go:78-87 | a number with a clock unit is read if it fits in 64 bits, with any other unit refused |
| `Groups.GroupsAreSummed` | server/api/command.go:82 | any number of digit groups with h, m or s is read as their sum when it fits in 64 bits; a plus changes nothing and a minus negates |
| `Groups.ReadTextsAreGroups` | server/api/command.go:82 | nothing else is read, except a bare zero, with or without a sign |
| `Groups.NegativeIsInvalid` | server/api/command.go:78-87 | an argument with a minus never passes validation |
| `Groups.HourAndAHalf` | server/api/command.go:75-77 | 1h30m is ninety minutes |
| `Labels.PresetsAgree` | server/ttl/ttl.go:23-29 | the server knows a printed label as a preset exactly when the webapp has it as one, with the same duration |
| `Labels.ServerReadsPrintedLabel` | server/api/command.go:78-87 | the server reads a printed label back exactly when it is a preset or not a whole number of days, and otherwise refuses it |
| `Labels.ThirtySecondsIsNoPreset` | server/api/command.go:75 | 30s is not a preset, is read as a duration and fails validation |
| `Api.Handler.HandleSet` | server/api/handler.go:92-118 | exactly the requests that pass the stated checks reach the store, under any interference; there the retry loop fixes the outcome and the store, a success announces the setting once, a failure nothing; a rejected request leaves the store alone; with a store that works on the first try and no interference exactly these requests are accepted; the response repeats the request; an empty actor is unauthorized, an empty channel or negative seconds a bad request |
| `RoundTrips.PostThenGet` | server/api/handler.go:92-118 | an accepted POST of a minute to a year is announced and read back to the second |
| `Api.Handler.HandleDelete` | server/api/handler.go:135-148 | accepted exactly under the stated checks; then clears and announces, else neither; exactly an empty actor is unauthorized |
| `Api.Handler.CmdSet` | server/api/command.go:38-53 | exactly the commands that pass the stated checks reach the store, under any interference; there the retry loop fixes the outcome and the store, a success announces the stored setting once, a failure nothing; a rejected command leaves the store alone; with a store that works on the first try and no interference exactly these commands are accepted |
| `Api.Handler.CmdOff` | server/api/command.go:55-61 | accepted exactly under the stated checks; then clears and announces, else neither |
| `Api.ReplicaAgreesIffUnwrapped` | webapp/src/reducer.ts:40-51 | over every serial run the webapp state shows the store on every channel it knows, after every prefix, exactly when no accepted POST exceeded a year |
| `Api.TouchedChannelsAreKnown` | webapp/src/index.tsx:46-50 | every channel an accepted request touched is known to the webapp state from then on |
| `Api.ModalFollowsClicks` | webapp/src/reducer.ts:40-51 | the modal is open on the channel of the last opening click, unless closed since, whatever is broadcast |
| `Api.RunKeepsBounds` | server/ttl/ttl.go:8-13 | over every run all stored settings stay between one minute and one year |

## Left out

- SQL text, drivers, the table definitions and migration: only the effect of each statement on rows is modelled.
- Statement-level interleaving inside a transaction: a row added for a post between the statements of its own purge is not modelled, because transactions are one step.
- Scheduling of the sweeper on one cluster node and plugin activation: any number of sweepers may run.
- JSON encoding, HTTP routing and statuses, user-facing messages and the read-only GET and status requests.
- The Mattermost permission system: the answers to permission queries are parameters.
- `Labels.ParseOneGroup`: durations are a sign and groups of whole numbers with h, m or s; fractions and the units ms, us and ns of the library parser are not modelled.
- The printer on numbers above 2^53, where the webapp's numbers are no longer exact integers.
- `TtlService.Service.SetTTL`: the conversion of a duration to seconds through a float is modelled as truncation; `TtlRules.FloatSecondsAreWhole` shows this exact for every product that passes validation, from an error bound on double arithmetic that is itself not proved.
- `Api.ReplicaAgreesIffUnwrapped`: requests and broadcasts are serial and delivered in order; the webapp's initial fetch of a channel is not modelled.
- `ThreadMaximum.RowsCarryThreadMaximum`: hooks of the same thread do not overlap and none of them fails; for overlapping and failing ones `ThreadMaximum.MaximumIffLastWriteCovers` gives the condition.
- Reading or deleting a single index row (GetByPostID, DeleteByPostID), which the sweeper and the hook never do.
- `KvRounds.SetIsOneCall`: foreign writes in a round are calls that win at once; the theorems of `KvConcurrency` cover every other interleaving.
- The nil configuration, which the parser maps to an empty list and the holder never returns.
- The hook for edited posts, which does nothing.
- Attachment files and legal hold, which lie outside the plugin.
- React components, styles and build files.
