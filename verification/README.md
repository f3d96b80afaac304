# Model of rssam in Dafny

rssam is a feed aggregator: it polls feeds, keeps a catalogue and per-reader
entry state in PostgreSQL, filters what it stores, and delivers entries to
webhooks. This project models its four state machines and proves what they
are meant to keep. `dafny verify dfyconfig.toml` checks everything.

## What is modelled

* **Catalogue and entry state** (`catalog`, `catalog_invariant`,
  `catalog_runs`, `catalog_views`, `subscription_columns`, `entry_updates`,
  `entry_lists`, `entry_columns`, `store`). The tables are one value of sets
  and maps, every SQL statement is a function on it, every `withTx` is one
  step. `store` holds the class with the transactions that are loops and
  statements in the source, each proved equal to its function; the
  `_columns` files and the contracts of `store` say what the functions mean
  row by row and column by column.
* **Dispatch in memory** (`inflight`, `poll_dispatch`, `webhook_dispatch`).
  The in-flight and pause sets as classes; the feed dispatcher as a timed
  machine with a pool, a bounded channel and a stale rule; the webhook
  dispatcher as all interleavings of its reads with the workers' writes.
* **Webhook delivery** (`webhook_rows`, `webhook_delivery`, `relay`). The
  life of a delivery row through single and digest deliveries, parks and
  manual retries; the last delivery of a relay entry.
* **Poll outcome and schedule** (`fingerprint`, `polls`, `poll_columns`,
  `feed_refresher`, `filter_engine`, `schedule`, `poll_window`, `poll_log`,
  `poll_exit`). What a poll stores and may skip, what a filter means, delays
  on 64-bit integers, the polling window, the poll history with its memo, and
  every exit of a poll with the exact moment of the next check.
* **OPML** (`opml`, `opml_tree`). Export and import as outline trees.

`prelude` and `text` hold what all of them share.

## Assumptions

* Unique keys are those the statements name in `ON CONFLICT`; deleting an
  entry or a feed deletes the rows that refer to it; `user_entries.status` is
  `read` unless it is `removed`.
* `rssam_dedup_key` and the digest of the item fingerprint are injective, so
  the model stores the hash and the text themselves. A hash holds no NUL,
  which a text column could not store.
* Transactions are serial. Clock readings, random numbers, answers of the
  network and the choice of rows under a LIMIT without ORDER BY are
  parameters. Writes succeed unless a member has a parameter that says
  otherwise.
* In `poll_dispatch` a free worker takes a waiting job at once, a poll ends
  within the fetch timeout, and the claims of one round are enqueued together.
* In `relay` all rows of an entry are enqueued before its first delivery ends.
* In `filter_engine` the `updated_at` of a filter tells its versions apart.
* In `poll_exit` the feed has a reader; a feed without one is never due.
* Local time is a fixed offset from UTC.

## What turned out not to hold

* Since migration `internal/migrations/0060_entry_exceptions_store_mode.sql:38-46`
  the table `user_entries` has no `feed_id`, but the starred list renders its
  feed and category filters on `ue.feed_id`
  (`internal/storage/entry_bulk.go:124-142`). The model follows the code: such
  a query is refused (`EntryLists.ScopeIsExact`). Narrowed through the entry's
  feed it would be exact (`EntryLists.StarredRowsExact`).
* `MarkEntryRemovedKeepPayload` has no subscription test; it keeps the row
  invariant exactly for owners who still read the feed
  (`CatalogInvariant.RemoveKeepPayloadKeepsIff`, `CatalogRuns.OrphanRemovalResurfaces`).
* The stale rule allows a second claim of a running feed as soon as three
  fetch timeouts reach the threshold (`PollDispatch.SafeIff`); the configured
  timeout is safe.
* The error backoff wraps in int64 from 17 errors on a 24 h base; the circuit
  breaker threshold is configurable without an upper bound
  (`Schedule.ErrorBackoffIff`, `Schedule.DayLimits`). The webhook delay with
  its jitter, or without a cap, and the adaptive doubling have similar limits
  (`Schedule.JitterFitsIff`, `Schedule.UncappedFitsIff`,
  `Schedule.SilentIntervalIff`).
* A hash of white space only is never asked for, so a filtered poll finds it
  fresh each time or fails on it (`Polls.RepeatedPollIsStaleIff`).
* A row can outlive its retry budget as the peer of another row's digest: exactly
  when a digest fails whose claimed row has sends left while the peer has none
  to spare (`WebhookRows.StepKeepsBudgetIff`, `WebhookRows.RunKeepsBudgetIff`,
  `WebhookRows.DigestOutlivesBudget`).
* A relay entry whose last row to settle dies is not deleted by any delivery
  (`Relay.SettledFate`, `Relay.LastRowDies`).

## Model

| member | source | states |
|---|---|---|
| `CatalogInvariant.MarkReadKeeps` | internal/storage/entry_bulk.go:256 | Marking entries read keeps the whole catalogue invariant: keys and references, one entry per feed and hash, sound per-user rows, followers subscribed. |
| `CatalogInvariant.MarkUnreadKeeps` | internal/storage/entry_bulk.go:257-262 | Marking unread keeps the invariant: the copied rows belong to a subscriber, carry the entry's feed and sort_at, and never meet a removal. |
| `CatalogInvariant.StarKeeps` | internal/storage/entry_bulk.go:263-269 | Starring keeps the invariant: stars only on entries of subscribed feeds that are not hidden; a removed row stays as it was. |
| `CatalogInvariant.UnstarKeeps` | internal/storage/entry_bulk.go:270-272 | Unstarring keeps the invariant; a removed row keeps its star. |
| `CatalogInvariant.RemoveKeeps` | internal/storage/entry_bulk.go:273-279 | Removing for a user keeps the invariant: unread row and removal never coexist. |
| `CatalogInvariant.RemoveKeepPayloadKeepsIff` | internal/storage/webhook_delivery.go:216-232 | The removal after a webhook, which has no subscription test, keeps the invariant if and only if the entry is gone or the owner still reads its feed. |
| `CatalogInvariant.StripKeeps` | internal/storage/entry_dedup.go:76-112 | Stripping an entry keeps the invariant: no per-user row survives on it, so no star is on a hidden entry. |
| `CatalogInvariant.DeleteEntriesKeeps` | internal/storage/entry_dedup.go:137-185 | Deleting any set of entries with its cascades keeps the invariant. |
| `CatalogInvariant.FreshSound` | internal/storage/entry.go:100-180 | The rows a poll inserts have pairwise different hashes, none of them known, all from the batch. |
| `CatalogInvariant.FreshComplete` | internal/storage/entry.go:100-180 | Every hash of the batch was known or is among the inserted rows. |
| `CatalogInvariant.CreateEntriesKeeps` | internal/storage/entry.go:100-236 | Creating entries, ordinary or relay, with the unread fan-out keeps the invariant; no two entries of a feed share a hash. |
| `CatalogInvariant.SubscribeOneKeeps` | internal/storage/subscriptions.go:87-120 | Subscribing with the backfill keeps the invariant. |
| `CatalogInvariant.UnsubscribeKeeps` | internal/storage/subscriptions.go:139-155 | Unsubscribing, refused for feeds read through a followed category, keeps the invariant. |
| `CatalogInvariant.FollowCategoryKeeps` | internal/storage/categories.go:135-183 | Following a category keeps the invariant: the follower reads every feed of it. |
| `CatalogInvariant.UnfollowCategoryKeeps` | internal/storage/categories.go:185-214 | Unfollowing keeps the invariant. |
| `CatalogInvariant.MoveFeedKeeps` | internal/storage/categories.go:258-306 | Moving a feed with the follower sync keeps the invariant. |
| `CatalogInvariant.CreateFeedKeeps` | internal/storage/postgres_crud.go:27-110 | Creating a feed, with or without its owner's subscription, keeps the invariant. |
| `CatalogInvariant.UpdateFeedKeeps` | internal/storage/postgres_crud.go:310-381 | Updating a feed keeps the invariant. |
| `CatalogInvariant.DeleteFeedKeeps` | internal/storage/postgres_crud.go:398-420 | Deleting a feed with its cascades keeps the invariant. |
| `CatalogInvariant.DeleteCategoryKeeps` | internal/storage/categories.go:121-133 | Deleting a category, refused while it has feeds, keeps the invariant. |
| `CatalogRuns.StepKeepsInvariant` | internal/storage/webhook_delivery.go:216-232 | Every transaction keeps the invariant; the only condition is on the removal after a webhook. |
| `CatalogRuns.RunKeepsInvariant` | internal/storage/entry_bulk.go:250-280 | The invariant holds after every run of user, poll, delivery, catalogue and retention operations. |
| `CatalogRuns.StepKeepsKnown` | internal/storage/entry_dedup.go:14-40 | Without retention and without deleting the feed, no operation makes a known hash unknown again. |
| `CatalogRuns.BecomesAnEntryAtMostOnce` | internal/storage/entry.go:115-180 | Over every run that forgets nothing of a feed, each item becomes an entry at most once, and never if its hash was known at the start. |
| `CatalogRuns.StarredSurvivesRetention` | internal/storage/cleanup.go:164-191 | No retention step deletes an entry any user has starred, although the removed_at purge does not look at stars. |
| `CatalogRuns.StarredSurvivesCollapse` | internal/storage/entry_dedup.go:144-167 | No collapse step deletes a starred entry. |
| `CatalogRuns.MoveSubscriptions` | internal/storage/categories.go:258-306 | After a move a user reads the feed exactly if following the new category, or having read it before without following the old one; other feeds are untouched. |
| `CatalogRuns.MoveLeavesOthersAlone` | internal/storage/categories.go:258-306 | A move touches no subscription, unread or exception row of a user who follows neither category or both. |
| `CatalogRuns.OrphanRemovalResurfaces` | internal/storage/webhook_delivery.go:216-232 | A concrete run: a delivery after its owner unsubscribed leaves a removal that, on resubscribing, coexists with an unread row. |
| `CatalogRuns.NewestIsTheTop` | internal/storage/subscriptions.go:108-116 | The backfill picks min(100, all) visible entries, and none it leaves out is newer than one it picks. |
| `CatalogRuns.ReachableHolds` | internal/storage/entry_bulk.go:250-280 | From empty tables the invariant holds in every state that is ever reached. |
| `CatalogViews.SubscribeView` | internal/storage/subscriptions.go:87-120 | A new subscriber sees exactly the backfilled entries as unread; no other reader, entry or subscription changes. |
| `CatalogViews.UnsubscribeView` | internal/storage/subscriptions.go:189-216 | Whoever unsubscribes loses every status and star on the feed's entries; nothing else changes. |
| `CatalogViews.CreateView` | internal/storage/entry.go:156-180 | New entries are unread for exactly the current readers, or hidden from all when relayed; old entries look as before. |
| `CatalogViews.CreatedFeedReaders` | internal/storage/postgres_crud.go:41-80 | The new feed has a fresh id and exactly the creator, unless skipped, and the category's followers as readers; other subscriptions are untouched. |
| `CatalogViews.DeleteFeedLeavesOthers` | internal/storage/postgres_crud.go:398-420 | Deleting a feed removes exactly its entries and leaves all others with everybody's view of them. |
| `EntryLists.EntryRowsExact` | internal/storage/entry_bulk.go:145-168 | Lists driven by entries (no filter, read, removed) have exactly the entries of subscribed feeds whose derived status and filters pass. |
| `EntryLists.UnreadRowsExact` | internal/storage/entry_bulk.go:32-36 | The unread list, driven by user_unread with its copied feed_id and sort_at, has exactly the unread entries of subscribed feeds. |
| `EntryLists.StarredRowsExact` | internal/storage/entry_bulk.go:37-44 | The starred list, driven by user_entries, has exactly the starred entries that are not removed; with feed and category taken from the entry's feed this holds for every filter. |
| `EntryLists.ScopeIsExact` | internal/storage/entry_bulk.go:198-237 | Whatever table drives it, a list has exactly the wanted rows in the entries' own order keys; it fails if and only if the status is unknown or a starred list is narrowed by feed or category. |
| `EntryLists.OrphanSplitsTheLists` | internal/storage/entry_bulk.go:198-237 | Without the invariant the lists disagree: a concrete entry shows in the unread list and not in the default one. |
| `EntryLists.OrderedUnique` | internal/storage/entry_sort.go:25-34 | Under the strict order (sort_at, id) a set of rows has exactly one ordered sequence. |
| `EntryLists.PageIsSlice` | internal/storage/entry_bulk.go:76-91 | Every page, two-stage or single, is the slice of the wanted entries in the list's order; `EntryColumns.SliceInColumns` says what that order is. |
| `EntryLists.TrimPageIsHonest` | internal/storage/entry.go:327-335 | The trimmed page is the asked-for slice, and the total exceeds offset + limit exactly when something follows. |
| `EntryLists.ListEntriesIsExact` | internal/storage/entry.go:285-325 | A list call fails exactly on a refused query; otherwise it returns the asked-for slice and an honest total, capped or hinted; `EntryColumns.ListEntriesInColumns` says the same in columns. |
| `EntryColumns.WantedInColumns` | internal/storage/entry_bulk.go:124-168 | What every status and filter selects, read off the columns: unread is an unread row, removed is no unread row with removed_at or a removal, read is neither, no status is everything not removed. |
| `EntryColumns.RefusedInColumns` | internal/storage/entry_bulk.go:198-237 | A list call fails exactly for a status other than unread, read, removed or none, and for a starred list narrowed by feed or category. |
| `EntryColumns.SliceInColumns` | internal/storage/entry_sort.go:25-34 | ORDER BY, LIMIT and OFFSET over any set: each entry of the page has exactly its offset of greater (sort_at, id) pairs before it when the newest come first, of smaller ones otherwise; neighbours are in that order, and what is left out lies before the first or after the last. |
| `EntryColumns.ListEntriesInColumns` | internal/storage/entry.go:285-325 | A list call returns that page of the wanted entries, as long as the limit (100, at most 1000) and the list allow, and a total that counts up to 10001 or tells whether something follows. |
| `EntryUpdates.UpdateMeaning` | internal/storage/entry_bulk.go:250-280 | The whole effect of status and star writes on what anybody sees: a removal is final, a removed entry keeps its star, active entries get what was asked, nobody and nothing else changes. |
| `EntryUpdates.OneSnapshot` | internal/storage/entry_bulk.go:308-318 | Both parts of a bulk update read the tables as they were, with the same result as one after the other. |
| `EntryUpdates.ReturnedIsChanged` | internal/storage/entry_bulk.go:311-318 | The ids the statements return are exactly those whose visible status or star changed. |
| `Store.PostgresStore.BulkUpdateEntries` | internal/storage/entry_bulk.go:282-327 | Errors exactly when nothing or an invalid status is asked; otherwise the new tables, and a count equal to the number of entries that look different to the user. |
| `Store.PostgresStore.MarkEntriesRemoved` | internal/storage/entry_bulk.go:329-347 | Every given entry of the user's feeds gets a row marked removed, stamped now unless it was removed before, that keeps its star; the unread rows go; the count is of those not marked before, hidden ones included. |
| `Store.PostgresStore.UpdateEntry` | internal/storage/entry_bulk.go:413-463 | The three error cases with the tables unchanged, and the view afterwards: removal is final, removed entries keep their star. |
| `Store.PostgresStore.SubscribeTx` | internal/storage/subscriptions.go:87-120 | Already subscribed and unknown feed change nothing; otherwise the pair comes with an unread row for each of the 100 newest visible entries, and no other row changes. |
| `Store.PostgresStore.UnsubscribeTx` | internal/storage/subscriptions.go:189-216 | Not subscribed changes nothing; otherwise exactly the pair's subscription, unread, exception and label rows go. |
| `Store.PostgresStore.Unsubscribe` | internal/storage/subscriptions.go:139-155 | Refused if and only if the feed's category is followed; otherwise the pair goes with all its rows. |
| `Store.PostgresStore.SubscribeCategoryFeedsTx` | internal/storage/categories.go:163-183 | The loop over feeds in any order equals one subscription of all missing pairs, and counts them. |
| `Store.PostgresStore.FollowCategory` | internal/storage/categories.go:135-161 | Unknown category changes nothing; otherwise the follower row, and exactly the category's feeds not yet read gain the reader with the backfill, counted. |
| `Store.PostgresStore.UnfollowCategory` | internal/storage/categories.go:185-214 | Not following is an error; otherwise exactly the category's feeds lose the reader with all rows, counted. |
| `Store.PostgresStore.SyncCategoryFollowersTx` | internal/storage/categories.go:258-285 | The two loops equal one removal of all losers followed by one subscription of all gainers. |
| `Store.PostgresStore.SubscribeFollowersTx` | internal/storage/categories.go:287-306 | The loop equals one subscription of all followers that do not read the feed. |
| `Store.PostgresStore.CreateFeed` | internal/storage/postgres_crud.go:27-110 | An unknown category changes nothing; otherwise the given row without a fingerprint under the next id, read by the creator unless skipped and the category's followers, and nothing else. |
| `Store.PostgresStore.UpdateFeed` | internal/storage/postgres_crud.go:310-381 | Missing feed and missing category change nothing; otherwise exactly the given columns, a fingerprint cleared by a new URL, and the readers a move brings and takes with their rows. |
| `Store.PostgresStore.MoveCategoryFeeds` | internal/storage/feed_bulk.go:119-163 | The ids are exactly the category's feeds; their rows get the new category, readers through the old category leave with their rows unless they follow the new one, and its followers join with the backfill; nothing happens when target and source agree, and an error exactly when there is something to move to a missing target. |
| `SubscriptionColumns.BackfillInColumns` | internal/storage/subscriptions.go:108-116 | A new reader gets exactly the visible entries of the feed with fewer than 100 others of greater (sort_at, id). |
| `SubscriptionColumns.MoveFeedInColumns` | internal/storage/categories.go:258-306 | A move changes the category of one feed, takes the old category's readers who do not follow the new one with their unread, exception and label rows, brings the new one's followers with the backfill, and changes nothing else. |
| `SubscriptionColumns.MoveAllInColumns` | internal/storage/feed_bulk.go:119-163 | Moving the feeds of a category one after another is one change of readers over all of them, whatever their order. |
| `Store.FreshNext` | internal/storage/entry.go:158-168 | One more row of the insert is kept exactly when its hash was neither known nor earlier in the batch. |
| `Store.FreshOfUnknown` | internal/storage/entry.go:118-127 | Dropping the known hashes first does not change what is inserted. |
| `Store.PostgresStore.CreateEntries` | internal/storage/entry.go:100-236 | Blank hash and missing feed change nothing; otherwise exactly the first occurrences of unknown hashes are inserted and counted. |
| `Store.PostgresStore.RecordFeedEntryDedup` | internal/storage/entry_dedup.go:47-74 | Fails exactly for a blank hash or a missing feed; otherwise the hashes are added. |
| `Store.PostgresStore.StoreFilteredPoll` | internal/storage/entry.go:50-79 | All of the poll or nothing: entries and hashes are stored together, and any error puts the tables back. |
| `Store.PostgresStore.StripEntryPayloadAfterWebhook` | internal/storage/entry_dedup.go:76-112 | The entry keeps its row with removed_at set, loses every unread and exception row, so that it is removed for every user and starred for none, and its hash is added to the dedup set; no other row changes. |
| `Store.PostgresStore.DeleteRelayEntryAfterWebhook` | internal/storage/webhook_delivery.go:163-188 | True exactly when the entry was there and every other delivery of it is sent or dead; then it alone goes with its rows and exactly its hash is added to the dedup set. |
| `Store.PostgresStore.DropUndeliveredRelayEntries` | internal/storage/webhook_delivery.go:190-214 | Exactly the given entries without a delivery go with their rows, counted, and exactly their hashes are remembered. |
| `Store.PostgresStore.MarkEntryRemovedKeepPayload` | internal/storage/webhook_delivery.go:216-232 | The entry ends removed and not unread for whoever it is called for; the invariant holds afterwards exactly for a gone entry or a reading owner, and then it is the ordinary removal. |
| `Store.DoomedStays` | internal/storage/entry_dedup.go:144-160 | Deleting a batch does not change whether another entry is to be deleted. |
| `Store.PostgresStore.DeleteInBatches` | internal/storage/cleanup.go:193-209 | The batches, whichever rows each of them picks, delete exactly the rows that qualified at the start, and the total counts them. |
| `Store.PostgresStore.CollapseEntriesToHashes` | internal/storage/entry_dedup.go:116-135 | Refused for a category without a user; otherwise an entry goes if and only if it is in scope, unstarred, without a pending or failed delivery and unlabelled unless those are included; exactly the hashes of those are added, and only their rows go. |
| `Store.ExpiredInTurn` | internal/storage/cleanup.go:43-60 | The three entry purges one after another delete what the tables of the start entitle them to, each entry counted once. |
| `Store.PostgresStore.RunRetentionCleanup` | internal/storage/cleanup.go:43-191 | An entry goes if and only if it was hidden before the cutoff, or has no star and is older than its feed's days or was removed before the cutoff by every one of at least one reader; only their rows go, and every star stays. |
| `Inflight.SweepsAreInvisible` | internal/worker/inflight.go:62-81 | What exclude and counts report at any time does not depend on the sweeps done before. |
| `Inflight.InflightPolls.Exclude` | internal/worker/inflight.go:62-81 | Returns exactly the finished ids within their grace and the running ones that are not stale, and forgets exactly the finished ones past their grace. |
| `Inflight.InflightPolls.Counts` | internal/worker/inflight.go:83-96 | Counts the running and the stale items. |
| `Inflight.CountsAre` | internal/worker/inflight.go:83-96 | Running is what has not finished, stale what has not finished within the stale time, if there is one. |
| `Inflight.LiveIsLatest` | internal/worker/webhook_flood.go:31-59 | However pauses and sweeps were mixed, an id is paused exactly while one of its pauses lasts, until the latest of them. |
| `Inflight.DuePauses.Active` | internal/worker/webhook_flood.go:41-59 | Returns exactly the pauses that end after now and the earliest moment one of them ends, and forgets the others. |
| `PollDispatch.OldestRunning` | internal/worker/runner.go:193-208 | While anything waits in the channel, the oldest running poll began at least a pool size of claims ago. |
| `PollDispatch.TickKeepsTiming` | internal/worker/runner.go:249-264 | Passing time keeps the bounds on waiting: one timeout from a pool size on, two for everybody in the channel. |
| `PollDispatch.LookSeesAll` | internal/worker/inflight.go:62-81 | When the stale rule waits longer than three timeouts, the exclude list misses no queued or running feed. |
| `PollDispatch.RunKeepsExact` | internal/worker/runner.go:197-264 | Over every run the running in-flight items are exactly the queued and running claims, one per feed. |
| `PollDispatch.NeverClaimedTwice` | internal/worker/runner.go:197-264 | In every run of every pool size no feed has two live claims, nothing is ever stale, and every claim is over within three timeouts. |
| `PollDispatch.ClaimedTwice` | internal/worker/inflight.go:70-77 | If the stale rule waits at most three timeouts, one worker and three feeds reach a state where a feed is claimed twice. |
| `PollDispatch.SafeIff` | internal/worker/runner.go:157-161 | The stale rule is safe for every pool size if and only if it waits longer than three timeouts. |
| `PollDispatch.FetchTimeoutBelow40` | cmd/rssam/main.go:320 | With the threshold the runner derives, that is a fetch timeout below 40 s; the configured 30 s satisfy it. |
| `WebhookDispatch.ClaimKeeps` | internal/worker/webhooks.go:43-80 | What the dispatcher claims is neither in flight nor paused nor in the grace of a failed write. |
| `WebhookDispatch.FloodKeeps` | internal/worker/webhooks.go:279-287 | A pause set by a worker concerns only the webhook it is delivering. |
| `WebhookDispatch.ReleaseKeeps` | internal/worker/webhooks.go:82-107 | Leaving the in-flight set, by forget or by done, keeps every promise about the others. |
| `WebhookDispatch.OneDeliveryNoFlood` | internal/worker/webhooks.go:43-107 | In every interleaving: at most one delivery per webhook, none claimed, queued or under way during its 429 pause, none claimed in the grace of a failed write. |
| `WebhookDispatch.OtherOrderHitsTheFlood` | internal/worker/webhooks.go:49-51 | With the two reads swapped, a worker that pauses and forgets in between is in neither set although its webhook is paused. |
| `WebhookRows.RowLaws` | internal/worker/webhooks.go:153-300 | In every run: pending or failed exactly when next_retry_at is set; attempt counts the counted sends; a row that never travelled as another's digest peer is sent or dead after the maximum, plus one per manual retry. |
| `WebhookRows.FinishKeeps` | internal/storage/webhooks.go:400-463 | Every outcome of every delivery keeps that, for the rows it writes and for those in other hands. |
| `WebhookRows.FailureUsesBudget` | internal/worker/webhooks.go:289-300 | A counted failure of a single delivery uses exactly one send and kills the row exactly at the maximum; a park uses none. |
| `WebhookRows.ComesBack` | internal/worker/webhooks.go:473-493 | After a failure with sends left, or a park, a row is due again exactly from its time on; after anything else it is not. |
| `WebhookRows.PeersShareTheVerdict` | internal/worker/webhook_digest.go:179-190 | A digest failure kills or reschedules all its rows by the count of the claimed one. |
| `WebhookRows.DigestKeepsBudgetIff` | internal/worker/webhook_digest.go:94-190 | After a failed digest a row is in its budget if and only if the claimed row was out of sends or the row has one to spare; every other outcome keeps it there. |
| `WebhookRows.StepKeepsBudgetIff` | internal/worker/webhook_digest.go:179-190 | For every event of a run: a row in its budget leaves it exactly in such a digest, and in no other way. |
| `WebhookRows.RunKeepsBudgetIff` | internal/worker/webhook_digest.go:179-190 | Over whole runs, digests included, a row stays in its budget throughout if and only if no digest of that kind takes it along. |
| `WebhookRows.DigestOutlivesBudget` | internal/worker/webhook_digest.go:94-103 | A concrete run: with a maximum of two and no manual retry, a row that failed twice in digests is still alive. |
| `WebhookDelivery.WebhookLogTable.DeliverWebhookLog` | internal/worker/webhooks.go:153-277 | Answer by answer: sent when accepted; failed and due after the backoff on 408, 500 and above, a failed load or no answer while attempts are left, dead from there on; put off without counting on 429 and when disabled; dead on anything else; no other row changes, and none when the write fails. |
| `WebhookDelivery.WebhookLogTable.DeliverWebhookDigest` | internal/worker/webhook_digest.go:94-177 | The same for every row of a digest: each counts its own attempt, and the claimed row's attempt decides between a retry and dead. |
| `WebhookDelivery.GroupDigestLogs` | internal/worker/webhook_digest.go:32-67 | Single rows pass through in order; each digest webhook gets one message with all its claimed rows in order, completed by what the store still has due for it, whatever order the carriers are asked in. |
| `WebhookDelivery.FullPeersExact` | internal/storage/webhook_digest.go:16-40 | A completed digest carries no row twice, does not exceed its limit by what it adds, and leaves a due row behind only when it is full or the query failed. |
| `WebhookDelivery.MergeOnSuccessActions` | internal/storage/webhook_on_success.go:62-90 | The result is the strongest of delete, hash and mark_read that is named, in any case and with spaces around it, and nothing if none is. |
| `WebhookDelivery.MergeAgain` | internal/worker/webhooks.go:341 | Merging a delivery's own action with the merged action of all deliveries gives that merged action. |
| `Relay.OnSuccessDeletes` | internal/storage/webhook_delivery.go:163-188 | An on-success step deletes its entry exactly when no row of it is pending or failed. |
| `Relay.RunKeeps` | internal/worker/webhooks.go:257-263 | In every run, whatever happens to other entries: while an entry is there and all its rows are sent, one of them still has its on-success step to come. |
| `Relay.NeverDeletedEarly` | internal/worker/webhooks.go:309-318 | In every interleaving, from any state of the table, an entry is deleted only by an on-success step of its own, when all its rows are settled. |
| `Relay.DeletedOnceAllSent` | internal/worker/webhooks.go:257-263 | From any state in which none of the entry's rows is settled: if all its rows end as sent, it is gone once their on-success steps have run, and its hash is in the dedup set. |
| `Relay.HashSurvives` | internal/storage/webhook_delivery.go:176-182 | From the moment an entry is deleted its hash is in the dedup set. |
| `Relay.SettledFate` | internal/storage/webhook_delivery.go:163-188 | Once every row is sent or dead, the entry goes if and only if an on-success step of it is still to come. |
| `Relay.LastRowDies` | internal/storage/webhook_delivery.go:163-188 | Wherever an entry has two rows, neither settled: one delivered first and the other dying last leaves the entry in place. |
| `Fingerprint.SortSound` | internal/service/feed_refresher.go:816 | Sorting orders the hashes and loses none. |
| `Fingerprint.JoinedInjective` | internal/service/feed_refresher.go:817-821 | Strings without NUL, each ended by NUL, can be read back from their concatenation. |
| `Fingerprint.SameFingerprintIff` | internal/service/feed_refresher.go:806-823 | Two polls have the same fingerprint if and only if they bring the same multiset of hashes, in whatever order. |
| `Fingerprint.EmptyFingerprintIff` | internal/service/feed_refresher.go:809-811 | Only a poll without items has the empty fingerprint. |
| `Fingerprint.ItemSetHash` | internal/service/feed_refresher.go:806-823 | The loops compute the concatenation of the sorted hashes. |
| `Polls.FreshItemsExact` | internal/service/feed_refresher_dedup.go:53-83 | Fresh items are the first occurrences of unknown non-empty hashes; every other non-empty hash is known. |
| `Polls.SelectPartitions` | internal/service/feed_refresher_dedup.go:110-132 | Wanted and hash-only items together are the fresh items, each once. |
| `Polls.FilteredPollSplits` | internal/service/feed_refresher_dedup.go:110-142 | Without blank hashes the poll cannot fail: every wanted item becomes one entry and every other fresh item one hash. |
| `Polls.FilteredPollRemembers` | internal/service/feed_refresher_dedup.go:36-152 | After a filtered or relay poll every non-empty hash of the batch is known. |
| `Polls.RepeatedPollIsStaleIff` | internal/service/feed_refresher_dedup.go:53-58 | Repeating the poll yields nothing fresh if and only if no hash of it is white space only. |
| `Polls.KnownPollStoresNothing` | internal/service/feed_refresher.go:524-527 | A poll whose non-empty hashes are all known stores nothing on any path. |
| `Polls.SkippedPollStoresNothing` | internal/service/feed_refresher.go:524-527 | After any run without retention, where the fingerprint matches every hash is known and the full path would leave the tables as they are. |
| `PollColumns.FirstOnes` | internal/service/feed_refresher_dedup.go:68-83 | Dropping known hashes and repetitions leaves exactly the first item of each new hash. |
| `PollColumns.FailsIff` | internal/service/feed_refresher.go:524-540 | A full poll fails exactly on an item without a hash, any other one exactly when a hash of spaces would have to be remembered. |
| `PollColumns.StoredInColumns` | internal/service/feed_refresher.go:524-540 | In each mode: which items become entries, what their rows and unread rows say, which hashes are remembered, and that every old row stays. |
| `PollColumns.CountInColumns` | internal/service/feed_refresher.go:524-536 | The number reported is that of the new hashes of the batch. |
| `FeedRefresh.FeedRefresher.ProcessEntriesFiltered` | internal/service/feed_refresher_dedup.go:36-152 | The loops and the transaction store exactly that split, or nothing and the error. |
| `FeedRefresh.FeedRefresher.StoreFetched` | internal/service/feed_refresher.go:510-540 | A poll fails, or is skipped, exactly on the stated condition and then changes nothing; otherwise the new entries are the kept news, in relay feeds hidden from everybody, in others unread for exactly the readers; the other news become hashes, and the fingerprint is that of the items. |
| `FilterEngine.MatchCompiled` | internal/filter/engine.go:305-342 | The left fold matches exactly when some lifting rule (the first, an or, or any with match-any) matches and so does every later and rule, turned around by inverse; no rules match nothing. |
| `FilterEngine.FoldedIsHolds` | internal/filter/engine.go:315-326 | The fold over any number of rules has that meaning. |
| `FilterEngine.AnyAndAll` | internal/filter/engine.go:305-342 | Match-any is one matching rule, only and rules are all of them. |
| `FilterEngine.InverseTurnsAround` | internal/filter/engine.go:336-339 | An inverted filter with rules matches exactly what the filter does not. |
| `FilterEngine.ThreeRules` | internal/filter/engine.go:315-335 | Rules combine from the left: (a or b) and c, (a and b) or c. |
| `FilterEngine.RuleAsks` | internal/filter/engine.go:344-360 | A rule asks its set of entries or the query hits, where no hits mean no, and negate turns the answer around. |
| `FilterEngine.CompileIs` | internal/filter/engine.go:203-303 | A filter is refused exactly for too many rules or a rule that does not compile; otherwise everything of it is kept. |
| `FilterEngine.ChosenInOrder` | internal/filter/engine.go:142-169 | Each filter that hits is reported after exactly the hits before it in the list. |
| `FilterEngine.MatchesFeedScope` | internal/filter/engine.go:171-201 | Include holds exactly when some item names the feed or its category, exclude exactly when none does, and any other scope always. |
| `FilterEngine.Engine.GetCompiled` | internal/filter/engine.go:203-243 | The answer is that of compiling afresh, whatever is cached, and the cache keeps at most one version of a filter. |
| `FilterEngine.Engine.MatchEntry` | internal/filter/engine.go:142-169 | The lenient mode never fails and reports exactly the usable filters that match, in order; the strict mode fails exactly when some filter is unusable. |
| `Schedule.Double` | internal/worker/webhooks.go:502-512 | The doubling loop is min(max, base · 2^(attempt − 1)) and never leaves int64; without a cap it is what int64 makes of that product. |
| `Schedule.BackoffIs` | internal/worker/webhooks.go:502-512 | The capped delay is min(max, base · 2^(attempt − 1)). |
| `Schedule.UncappedFitsIff` | internal/worker/webhooks.go:502-512 | Without a cap the delay is the doubled base if and only if that fits int64. |
| `Schedule.WebhookBackoffWithJitter` | internal/worker/webhooks.go:495-519 | The result is that delay d plus the jitter on int64, and a capped d lies within (0, max]. |
| `Schedule.JitterFitsIff` | internal/worker/webhooks.go:513-518 | Every jitter gives a delay in [d, 1.5 d) if and only if one and a half d, less one, fits int64. |
| `Schedule.WebhookRetrySchedule` | internal/worker/webhooks.go:473-493 | Dead exactly at the maximum; otherwise a delay between d and 1.5 d when that fits. |
| `Schedule.ErrorBackoffIff` | internal/storage/poll_schedule.go:23-35 | For a maximum and an error count, every base interval backs off as documented if and only if the shifted maximum fits int64. |
| `Schedule.BaseIsMinutes` | internal/storage/poll_schedule.go:45-49 | The base interval is the configured minutes within the bounds, wherever they fit int64. |
| `Schedule.DayLimits` | internal/storage/poll_schedule.go:23-35 | With at most 24 h and 16 errors it always does; a base of 24 h and 17 errors wraps and polls at the minimum again. |
| `Schedule.PollState.RecordFailure` | internal/storage/feed_circuit.go:12-34 | Paused exactly at the threshold, the count never passes it, and for thresholds up to 16 and maxima up to 24 h the delay is min(max, base · 2^count). |
| `Schedule.AdaptivePollInterval` | internal/storage/poll_schedule.go:61-77 | Half the average gap within [base, max] for active feeds, the doubled maximum up to the hard one for silent feeds, and never outside the bounds. |
| `Schedule.Stretch` | internal/storage/poll_schedule.go:72-75 | The loop is exactly the int64 doubling `Doubled`, week by week. |
| `Schedule.DoubledIsScaled` | internal/storage/poll_schedule.go:72-75 | For hard maxima up to 2^62 that doubling is min(hardMax, max doubled once per further silent week). |
| `Schedule.SilentIntervalIff` | internal/storage/poll_schedule.go:69-76 | The silent branch gives the intended interval for every base, maximum and silence if and only if the hard maximum is at most 2^62. |
| `Schedule.SilenceStretches` | internal/storage/poll_schedule.go:54-60 | More silence never means a shorter interval, within the two maxima. |
| `Schedule.ActivityShortens` | internal/storage/poll_schedule.go:65-68 | More items never mean a longer interval. |
| `Schedule.WrapsAbove` | internal/storage/poll_schedule.go:73-76 | For every hard maximum above 2^62 a maximum of 2^62 wraps after two silent weeks, and the feed is polled at its base again. |
| `PollWindow.NextOpenIsLeast` | internal/storage/poll_window.go:63-86 | NextOpen is the first moment from t on inside the window, plain or wrapping, less than a day away. |
| `PollWindow.NextOpenIsStable` | internal/storage/poll_window.go:72-86 | NextOpen is idempotent and monotone. |
| `PollWindow.CanonicalParses` | internal/storage/poll_window.go:22-61 | The canonical text of a window is read back as that window. |
| `PollWindow.NormalizeRoundTrip` | internal/storage/poll_window.go:54-61 | Normalizing fails exactly on what parsing refuses, keeps the meaning of everything else, and is idempotent. |
| `PollLog.RecordedKeepsGood` | internal/storage/feed_poll_log.go:56-112 | Recording a poll keeps the rows ordered, neighbours different in (ok, error), and at most 30. |
| `PollLog.RecordedIs` | internal/storage/feed_poll_log.go:65-112 | An equal success leaves nothing, an equal failure a later time and a higher count on the newest row, anything else a row with the error cut at 2000 after the newest 29. |
| `PollLog.KeptIsSuffix` | internal/storage/cleanup.go:79-94 | Retention removes a prefix of the rows and never the newest. |
| `PollLog.KeptIs` | internal/storage/cleanup.go:79-94 | Exactly the rows from the cutoff on stay, and the newest one whatever its age. |
| `PollLog.LatestIsLast` | internal/storage/feed_poll_log.go:81-86 | The row the statement calls latest is the last one added. |
| `PollLog.MemoIsInvisible` | internal/service/feed_refresher.go:177-210 | Over every run of polls, write failures and retention the stored log is the same with and without the memo. |
| `PollLog.LogLaws` | internal/storage/feed_poll_log.go:43-45 | From an empty log: the memo changes nothing, neighbours differ, at most 30 rows. |
| `PollLog.FeedPollLog.RecordFeedPoll` | internal/storage/feed_poll_log.go:65-112 | Equal failures are counted on the newest row, equal successes do nothing, anything else adds a row and trims. |
| `PollLog.FeedPollLog.RecordPoll` | internal/service/feed_refresher.go:177-210 | The rows afterwards are those of recording the poll, whatever the memo says. |
| `PollExit.Feed.NextCheckAfterPoll` | internal/service/feed_refresher.go:570-587 | The next check is the earliest moment not before now + the feed's interval, the adaptive moment if there is one, and the source's hint as far as now + max. |
| `PollExit.Feed.AdaptiveNextCheck` | internal/service/feed_refresher.go:749-780 | Answers exactly when the feature is on for the feed, its items could be counted and its maximum exceeds the feed's interval, with the adaptive moment, within the bounds. |
| `PollExit.AdaptiveMomentIs` | internal/service/feed_refresher.go:749-780 | That moment: half the average gap of the week's items between interval and maximum, or with none the maximum doubled per silent week after the first, up to the hard one. |
| `PollExit.Feed.SilentNextCheck` | internal/service/feed_refresher.go:542-568 | Postpones exactly when both settings are on, the feed was silent long enough and now + the silent interval, at most the maximum, is later; and then to that moment. |
| `PollExit.AfterSuccessIs` | internal/service/feed_refresher.go:336-403 | A success keeps the plain moment, except that a silent feed that brought nothing new waits for the silent interval; always within the bounds. |
| `PollExit.Defaults` | internal/service/feed_refresher.go:212-224 | With nothing configured: 15 minutes after a poll, never less than one minute, never more than a day. |
| `PollExit.Feed.ClaimableIs` | internal/storage/polling.go:17-53 | A feed is due exactly when it is neither paused nor inbound, its next check is not later, and neither it nor its bridge is put off beyond now. |
| `PollExit.ScheduleBounds` | internal/service/feed_refresher.go:346-353 | A success is due at that moment, or with polling hours at the first open moment from it on, less than a day later. |
| `PollExit.Feed.RefreshLoaded` | internal/service/feed_refresher.go:275-412 | For every way a poll can go: the verdict with its exact moment, the exact next check it writes, and what happens to the error count and the pauses. |
| `PollExit.Feed.Fail` | internal/service/feed_refresher.go:144-175 | A failure is counted, paused at the threshold, and due after the error backoff, or after the maximum for a bot challenge. |
| `PollExit.Feed.ProcessPollFeed` | internal/worker/runner.go:308-413 | Every exit of a poll shorter than the minimum leaves the feed out of the due query until one exact moment and no longer: the schedule of a success, the backoff of a failure, the moment a deferral asks for, kept in memory, on the bridge or in the row by how far it is. |
| `Opml.SettingsRoundTrip` | internal/opml/opml.go:179-237 | Reading what writeSettingsAttrs wrote gives the settings in normal form, and one complaint exactly for an unknown store mode. |
| `Opml.StoreModeRead` | internal/opml/opml.go:203-226 | From any document: a known mode in any case, or else what the older hash-only flag says, with a complaint unless it is blank. |
| `OpmlTree.CollectOutlineFeeds` | internal/opml/opml.go:133-160 | The walk appends exactly the feeds of the tree in document order, folders without a title passing on their parent's. |
| `OpmlTree.CollectedIs` | internal/opml/opml.go:133-177 | Type rss in any case or an xmlUrl make a feed, dropped without an address, which is the xmlUrl or else the url; anything else is a folder that hands its title or its parent's down. |
| `OpmlTree.FeedRoundTrip` | internal/opml/opml.go:324-333 | A feed outline is read back as its feed, or as nothing when its URL is blank. |
| `OpmlTree.SiblingsRoundTrip` | internal/opml/opml.go:293-300 | The feeds of one category written side by side come back under its title, each once. |
| `OpmlTree.Generate` | internal/opml/opml.go:270-312 | Importing the exported tree gives every feed with a URL exactly once, under its category's trimmed title, in normal form, whatever order the leftovers come in. |

## Left out

- HTTP, UI, WebSocket, audit, metrics, logging, configuration parsing, sessions and labels' own CRUD: they would only add easy members.
- Fetching, bridges, scraping, sanitizing and proxies are parameters: a poll is what it delivered or how it failed.
- Regular expressions, full-text queries and their limits: a rule is the set of entries it matches and whether it compiles.
- Text columns of entries other than the hash: nothing proved here reads them.
- `webhook_logs`, `filter_matches`, `audit_log`, session and dedup retention by age: deleted rows are a parameter of the step, not computed from a first-seen time.
- Retry-After parsing: the time a 429 asks for is a parameter of the delivery.
- `EntryWebhookOutcome` and the owner a merged delete action applies to: only the merge of actions and the last-delivery rule are modelled.
- Digest windows and their origin: when a digest row becomes due is a parameter of enqueue.
- XML bytes, the OPML head and attribute escaping: the document is a tree of trimmed attributes.
- Letter case outside ASCII, and daylight-saving changes.
- Races between separate transactions, cancellation, and polls that ignore their timeout.
- PollDispatch.NeverClaimedTwice: pauses of deferred feeds and bridges only shorten the claim list and are not part of this machine.
- Store.PostgresStore.MoveCategoryFeeds: only the move branch of the bulk update; the other columns are set by one statement.
- Store.PostgresStore.RunRetentionCleanup: only the entry part of the pass; the other tables' rows are deleted by age alone.
