# A Dafny model of the relay and its dating protocol

The repository is a Nostr relay on Cloudflare Workers with a private dating protocol on top of it.
This project models the parts of it whose correctness is hardest to see, and proves what they promise.
`dafny verify dfyconfig.toml` checks everything. There is one module per part:

| file | what it models |
|---|---|
| `Nostr.dfy`, `Schema.dfy`, `Sql.dfy` | events and filters, the database tables, and a small SQL with the precedence of AND over OR |
| `QueryCompiler.dfy` | `buildQuery`: four query shapes, against the plain filter predicate |
| `EventStore.dfy`, `EventRules.dfy`, `EventRuns.dfy` | saving, replacing, deleting and pruning events; the rules they follow; what every run keeps |
| `ChunkedQuery.dfy`, `QueryEvents.dfy`, `QueryRules.dfy` | the complexity gate, chunked execution, answering a request; which filters are run and what they accept |
| `ResultCap.dfy`, `RepeatedRows.dfy` | what the cap of 500 costs, and what repeated rows cost |
| `QueryCache.dfy`, `CacheAnswers.dfy` | the relay object's query cache, its inverted index, invalidation and eviction; what it answers |
| `Sessions.dfy`, `SessionAnswers.dfy` | sessions that survive hibernation, subscriptions, NIP-42 authentication; what every message is answered with |
| `Mesh.dfy`, `Publishing.dfy` | the broadcast mesh of nine relay objects; the event store and the mesh together |
| `Dating.dfy`, `DatingTables.dfy` | grants, likes, matches, blocks; their tables row by row |
| `Discovery.dfy`, `SearchReach.dfy`, `Membership.dfy`, `MemberRows.dfy` | the candidate search and whom it reaches; profiles and their index |
| `Router.dfy` | request freshness and idempotency |
| `Padding.dfy`, `RateLimiter.dfy` | NIP-44 padding lengths and buffers; the token bucket |

Code that updates tables, maps or buffers is a class (`Store`, `RelayCache`, `RelayObject`, `RelayNode`, `DatingStore`,
`MembershipStore`, `IdempotencyStore`, `Limiter`) or a method with loops, and each method is proved to do what a
function or relation on plain values says. The lemmas are about those functions and relations, mostly over whole runs.
What each operation does is also said once more without them, from the fields of its input and the rows it finds.
A protocol is a state machine whose steps are these functions; a run is a sequence of operations and states.

## What the proofs found

The model follows the code. Where a property one would expect is false of it, the exact condition is proved instead.

- The compiled queries and `matchesFilter` disagree on events with a tag that has a name but no value, or a value but
  an empty name. `QueryCompiler.AgreementExactlyWhenIndexable` says for which events they agree on every filter, and
  `EventRuns.ValuelessTagStored` saves one on which they do not.
- A parameterized replaceable event whose first `d` tag is empty and whose later one is not is stored under the later
  value (worker.js:7368 against worker.js:7414). Its address can then hold two events:
  `EventRuns.UniqueExactlyWhen` and `EventRuns.ShadowedTripleBreaksUniqueness`.
- A replacement whose INSERT fails because a single-letter tag has no value has already deleted its predecessor. An
  occupied address can be emptied exactly by an unbindable event whose one older predecessor holds it alone:
  `EventRuns.AddressKeptExactlyWhen`, and `EventRuns.ProfileLost` for an author who loses their profile.
- Chunked results are cut to 500 in the order the chunks were read. `ResultCap.NewestAnsweredExactlyWhen` says, from the
  filter alone, when its newest events are sure to be answered all the same, and `ResultCap.NewestLost` is a reachable
  store in which the newest event is not. Limits up to 250 are always safe (`QueryEvents.SmallLimitsHaveRoom`).
- The query for values of a single uncached tag joins `tags` without DISTINCT or GROUP BY, so its LIMIT counts an event
  once for every tag it carries. `RepeatedRows.AnswerHoldsNewestExactly` says for which filters an answer is sure to hold
  the newest events, and `RepeatedRows.TwoCopiesFillTheAnswer` is a reachable store in which it does not.
- Publishing does not ask the deduplication map, so an ephemeral event or a deletion submitted twice is broadcast twice
  (`Publishing.EphemeralBroadcastTwice`, `Publishing.DeletionBroadcastTwice`). Broadcasts are bounded by publications
  (`Mesh.BroadcastsArePaidFor`), and an event of any other kind is published once while it stays stored
  (`Publishing.PublishedOnceWhileStored`).
- Filters that list only identifiers are never invalidated (`QueryCache.InvalidatedExactly`). An answer of the shared
  cache to a new query takes a full query cache past its bound, and nothing else does:
  `QueryCache.AskKeepsBoundExactly`, with the run `QueryCache.SharedAnswerOverflows`.
- An attachment can outgrow what a socket may carry, and a session's subscriptions what storage takes as one value.
  Memory has changed by then. It agrees with what survives exactly when what the message changes can be written
  (`Sessions.MessageSyncedExactly`). Otherwise hibernation shows: an AUTH is forgotten and its challenge good again
  (`Sessions.UnsavedAuthIsForgotten`), a subscription is served and then forgotten (`Sessions.UnstoredRequestShows`
  after any run, `Sessions.ForgottenSubscription` on a reachable one), or a closed one comes back
  (`Sessions.UnstoredCloseIsUndone`).
- Resuming asks nothing of a member's status, and so brings back one who was deleted: `MemberRows.RevivedMember`.
- An intent that was revoked stays revoked when its sender likes again (`Dating.RevokedStaysRevoked`), so two likes make
  a match as long as the first was never revoked: `DatingTables.MutualLikesMatch`.
- A like can announce `match_created` although the pair's match has ended: `Dating.MatchCreatedIsTrueExactly`,
  `Dating.StaleMatchAnnounced`.
- `pad` takes the room for its header out of the padding, and throws when the last chunk is too full, for example on 32
  bytes: `Padding.PadSucceedsExactly`. (NIP-44 pads the plaintext and puts the header in front of it.)
- The token bucket forgets fractions of tokens on every call. From an empty bucket nothing is ever accepted exactly when
  every call comes before a whole token is earned: `RateLimiter.NothingAcceptedExactly`, `RateLimiter.EveryFiftyStarves`.

## Model

| member | source | states |
|---|---|---|
| `Schema.TagRowsMember` | worker.js:7404-7420 | an event's rows in `tags` are exactly its tags with a nonempty name, with "" for a missing value |
| `QueryCompiler.PushBase` | worker.js:7922-7946 | pushing one condition after another yields the conjunction of everything but the tags, in every shape |
| `QueryCompiler.SplitTags` | worker.js:7736-7746 | the tag filters that list values, divided into the nine cached names and the rest, and their number of values |
| `QueryCompiler.PushJoins` | worker.js:7766-7777 | one join with the tag cache per cached tag filter |
| `QueryCompiler.BuildQuery` | worker.js:7730-7954 | builds, branch by branch, the query the specification assigns to the filter |
| `QueryCompiler.OrsThenAndsHold` | worker.js:7853-7891 | `A OR B OR C AND x AND y` without parentheses holds when some alternative but the last holds, or the last with all of x, y |
| `QueryCompiler.OneTagSelects` | worker.js:7751-7763 | one tag filter, over either tag table, selects the stored events with a listed value and the base conditions |
| `QueryCompiler.ManyCachedSelects` | worker.js:7764-7810 | joins with the cache select exactly the events with a listed value for every tag and the base conditions |
| `QueryCompiler.CountForcesAll` | worker.js:7892-7894 | counting as many distinct tag names as there are filters forces every filter to contribute, the last with the base conditions |
| `QueryCompiler.MixedSelects` | worker.js:7853-7898 | the grouped shape selects exactly the accepted events although its WHERE mixes OR and AND |
| `QueryCompiler.ScanSelects` | worker.js:7900-7954 | without tags, the scan of `events` selects exactly the accepted events |
| `QueryCompiler.CompileCorrect` | worker.js:7730-7954 | over exact tag tables, the compiled query selects a stored event before LIMIT if and only if the filter accepts its stored tags |
| `QueryCompiler.CompileAgreesWithMatches` | src/durable-object.ts:1331-1372 | for events whose tags all have name and value, queries and live subscriptions accept the same events |
| `QueryCompiler.AgreementExactlyWhenIndexable` | src/durable-object.ts:1331-1372 | queries and the predicate agree on every single-tag search exactly when the event's tags are indexable |
| `QueryCompiler.ValuelessTagDisagrees` | src/durable-object.ts:1331-1372 | in any store that holds it, an event with a tag that has no value is selected by a query and rejected by the live predicate |
| `QueryCompiler.CacheOrderIsEventOrder` | worker.js:7807-7807 | in the cached shapes, the column of the cache that rows are sorted by is the time of the event |
| `QueryCompiler.OnlyLimitChanges` | worker.js:7952-7952 | a filter's limit reaches nothing but the LIMIT of its query, in every shape |
| `QueryRules.FieldsNarrow` | src/durable-object.ts:1331-1372 | a filter without fields matches everything, and each field narrows it by its own condition |
| `QueryRules.TagsNarrow` | src/durable-object.ts:1358-1372 | so does each tag filter, by one of its values on a tag of its name |
| `QueryRules.CursorNarrows` | worker.js:7802-7805 | a cursor lets through older events and those of its time with a greater identifier |
| `QueryRules.LimitOfQuery` | worker.js:7808-7808 | a query asks for 500 rows, or for the limit of its filter when that is less and not zero |
| `EventStore.Store.RunBatch` | worker.js:7357-7362 | runs the statements of a batch in order |
| `EventStore.Store.RunBatches` | worker.js:7543-7545 | runs statements in batches of 100, of which the first few commit |
| `EventStore.Store.ReadTags` | worker.js:7394-7420 | one pass over the tags reads off the rows for `tags` and the nine columns |
| `EventStore.Store.CacheableRows` | worker.js:7460-7460 | the rows whose names the tag cache holds |
| `EventStore.Store.InsertNew` | worker.js:7386-7487 | inserts the event with its tag and cache rows and remembers it, or fails on an unbindable column and changes nothing |
| `EventStore.Store.SaveEvent` | worker.js:7334-7493 | a save is a duplicate, an insertion, or the replacement of one older rival, with exactly that effect on tables and cache |
| `EventStore.Store.ReadReferenced` | worker.js:7496-7496 | the `e` tags of a deletion |
| `EventRules.ReferencesMean` | worker.js:7496-7496 | the references are the values of all `e` tags, and a missing value where one has none |
| `EventStore.Store.CheckOwners` | worker.js:7514-7526 | the referenced events owned by the author, and whether some reference belongs to another |
| `EventStore.Store.PushDeletes` | worker.js:7534-7542 | four statements for each event to delete |
| `EventStore.Store.ProcessDeletion` | worker.js:7494-7562 | deletes what the committed batches cover, then saves the deletion itself; every outcome and its cause |
| `EventStore.Store.ProcessEvent` | worker.js:7313-7333 | deletions, ephemeral events and all others take their three ways, and whether the answer is success |
| `EventStore.ResubmissionSucceedsExactly` | worker.js:7313-7333 | an event submitted while it is stored is accepted exactly if ephemeral or as a deletion without error; otherwise it is a duplicate and nothing changes |
| `EventStore.EphemeralAlwaysAccepted` | worker.js:7325-7327 | an ephemeral event is accepted every time and changes nothing |
| `EventStore.DeletionAcceptedAgain` | worker.js:7494-7562 | a deletion that was accepted is accepted again exactly when its batches commit again |
| `EventStore.Store.OldestBatch` | worker.js:9008-9013 | a batch of unprotected events none of which is newer than one left behind |
| `EventStore.Store.Prune` | worker.js:9001-9034 | what is gone was unprotected and oldest and the tag tables follow; batches go on while the size read is above the target, until 100000 are gone or none is left; the count and the size reported are exact |
| `EventStore.InsertIndexed` | worker.js:7425-7480 | inserting a new event and its rows keeps both tag tables exact projections of the events |
| `EventStore.EraseIndexed` | worker.js:7357-7362 | the four statements for one event keep both tag tables exact |
| `EventStore.SaveIndexed` | worker.js:7334-7493 | saving keeps the tag tables exact whatever rival is picked and even when the insertion fails after a deletion |
| `EventStore.BatchPrefixIndexed` | worker.js:7534-7545 | after any prefix of a deletion's batches whole events are gone and the tag tables are exact, since four divides 100 |
| `EventStore.PartialDeleteBreaksIndex` | worker.js:7536-7541 | stopping inside an event's four statements would break the projection |
| `EventStore.DeletionExact` | worker.js:7494-7562 | a completed deletion removes an event if and only if it is referenced and has the same author |
| `EventRules.ColumnMeans` | worker.js:7394-7420 | the column of a tag name holds the first nonempty value of its tags, and without one what the last of them has |
| `EventRules.BindableExactly` | worker.js:7394-7448 | an INSERT fails exactly when one of the nine names has no tag with a value and its last tag lacks one |
| `EventRules.DeletionObeysItsTags` | worker.js:7494-7545 | a completed deletion removes a stored event exactly when some `e` tag names it, its author is the same and no `e` tag lacks a value; the others stay as they are |
| `EventRules.DeletionAnswered` | worker.js:7494-7562 | every answer to a deletion and its cause, from the tags and the owners of what they name |
| `EventRules.DeletionCounts` | worker.js:7546-7561 | the number reported is that of the `e` tags naming events of the author |
| `EventRules.DeletionSucceeds` | worker.js:7552-7561 | success, unless a reference has no value or is to an event of somebody else, or a batch failed |
| `EventRules.SaveOfAnyKind` | worker.js:7334-7493 | a known event is a duplicate; a new one that replaces nothing is stored, or fails and changes nothing |
| `EventRules.SaveOverRival` | worker.js:7347-7385 | kinds 0, 3, 10000 to 19999, and 30000 to 39999 with the same first `d` value, take the place of one older event of the author, or are duplicates of one at least as new |
| `EventRules.SubmitDoes` | worker.js:7313-7333 | kinds 20000 to 29999 and deletions that name nothing pass through; what is saved is remembered |
| `EventRules.DeletionDoes` | worker.js:7494-7562 | in all, a deletion whose batches commit removes just what its tags name, and is then saved |
| `EventRules.PruningMeans` | worker.js:9001-9034 | pruning never takes kinds 0, 3 and 10002, nor an event before an older one, and changes nothing it leaves |
| `EventRuns.AlwaysIndexed` | worker.js:6949-6965 | in every state reached by saves, replacements, deletions and prunes, `tags` and the tag cache are exactly the projection of the events |
| `EventRuns.ReachableQueriesCorrect` | worker.js:7730-7954 | in every reachable state, every filter's query selects exactly what the filter accepts |
| `EventRuns.UniqueExactlyWhen` | worker.js:7366-7385 | an accepted save is sure to leave one event per address exactly when no shadowed rival can be picked instead |
| `EventRuns.AlwaysOnePerAddress` | worker.js:7347-7385 | over every run without shadowed `d` tags there is at most one event per (kind, author) or (kind, author, nonempty d) |
| `EventRuns.ShadowedTripleBreaksUniqueness` | worker.js:7366-7385 | three accepted saves after which two events share an address |
| `EventRuns.ShadowedTripleExists` | worker.js:7368-7370 | concrete events of that kind |
| `EventRuns.ColumnOfFirstD` | worker.js:7414-7414 | the stored `d` column is the first nonempty `d` value, which for unshadowed events is the first `d` tag's |
| `EventRuns.ValuelessTagStored` | worker.js:7404-7409 | a reachable store, an event in it and a filter whose query selects the event while the live predicate rejects it |
| `EventRuns.AddressKeptExactlyWhen` | worker.js:7347-7385 | an occupied address is sure to stay occupied exactly unless the new event cannot be bound and one older event alone holds the address |
| `EventRuns.ReachableAddressKept` | worker.js:7347-7453 | the same, both ways, for every reachable store |
| `EventRuns.UnbindableReplacementLosesEvent` | worker.js:7347-7385 | without shadowed `d` tags every outcome of a save empties the address exactly in that case, and has then failed |
| `EventRuns.FailedSaveHarmlessExactly` | worker.js:7347-7453 | a failed save changes nothing exactly when there was no event to replace |
| `EventRuns.ProfileLost` | worker.js:7347-7365 | two submissions after which an author who had a profile has none |
| `EventRuns.SavedAll` | worker.js:7425-7453 | any list of plain events with distinct identifiers can be stored by a run |
| `EventRuns.AcceptedIsStored` | worker.js:7343-7346 | in every run, an accepted event of a storable kind was not stored before, and is afterwards |
| `EventRuns.NewestMeans` | worker.js:7353-7355 | the recursive choice of a winner is the greatest created_at, the earliest of them on ties |
| `EventRuns.NewestWins` | worker.js:7347-7385 | after any accepted saves each address holds exactly the newest submission for it, the earliest on ties |
| `ChunkedQuery.CalculateComplexity` | worker.js:7295-7312 | the weighted sum with its two factors |
| `ChunkedQuery.OnlyIdsExceed` | worker.js:7295-7312 | past the gate of 1000 only `ids` can be longer than 500, and then only with a time bound |
| `QueryRules.GateExactly` | worker.js:7295-7312 | a filter passes the gate exactly when its ids, twice its authors, five times its kinds and ten times its tag values, doubled without a time and half more for a limit above 1000, make at most 1000 |
| `QueryRules.ChunkedExactly` | worker.js:8070-8077 | a filter is chunked exactly when one of its lists is longer than 500 |
| `ChunkedQuery.ChunksCut` | worker.js:7563-7569 | chunks are nonempty, at most the given size, and concatenate to the list |
| `ChunkedQuery.ChunkArray` | worker.js:7563-7569 | cuts a list into chunks by repeated slicing |
| `ChunkedQuery.RunAllMember` | worker.js:7957-7957 | collecting rows by id keeps each row of each answer, once |
| `ChunkedQuery.QueryDatabaseChunked` | worker.js:7955-8058 | runs one query per chunk of every long list and merges the rows in the order they are first found |
| `ChunkedQuery.ChunksAcceptTheFilter` | worker.js:7986-7999 | past the gate an event is accepted by the filter if and only if some chunk filter accepts it |
| `QueryRules.ChunksAcceptExactly` | worker.js:7955-8010 | for any filter, gated or not, the chunks together accept what meets all short lists and some long one |
| `ChunkedQuery.ChunksSelectTheFilter` | worker.js:7955-8058 | past the gate the chunks' queries together select, before LIMIT, exactly what the whole filter's query selects |
| `ChunkedQuery.ChunkedKeepsNewest` | worker.js:7955-8058 | for every filter but those for a single uncached tag, an event with fewer than the limit of other selected events at least as new is found despite per-chunk limits |
| `QueryEvents.SplitFilters` | worker.js:8064-8079 | drops filters past the gate and separates those to be chunked |
| `QueryEvents.Precheck` | worker.js:8096-8111 | drops filters with tags whose estimate exceeds 10000 rows |
| `QueryEvents.ReadRows` | worker.js:8089-8093 | adds rows until 500 have been read in all |
| `QueryEvents.ReadChunked` | worker.js:8081-8094 | reads the chunked filters one after another up to the cap |
| `QueryEvents.ReadBatch` | worker.js:8115-8152 | reads the batch of the remaining filters up to the cap |
| `QueryEvents.QueryEvents` | worker.js:8059-8172 | the answer is the sorted, duplicate-free form of the first 500 rows read |
| `QueryEvents.SortNewestSorts` | worker.js:8159-8164 | sorting yields a permutation, newest first, then by identifier |
| `QueryEvents.AnswerShape` | worker.js:8159-8167 | at most 500 events, sorted, and exactly those read |
| `QueryEvents.AnswerMember` | worker.js:8059-8172 | every event returned is a row of a filter that is run, and below the cap none of those rows is missing |
| `QueryRules.RunsExactly` | worker.js:8064-8111 | a filter past the gate is run if it is chunked, has no tags, or is expected to yield at most 10000 rows |
| `QueryRules.AnsweredExactly` | worker.js:8059-8172 | while at most 500 rows are read in all, an event is answered exactly if it is a row of a filter that is run |
| `QueryRules.ChunkedComeFirst` | worker.js:8081-8152 | chunked filters are read before the others, and only the first 500 rows count |
| `QueryRules.AnsweredInOrder` | worker.js:8159-8167 | at most 500 events, newest first, and by identifier within one time |
| `QueryEvents.AnswersAreAccepted` | worker.js:8059-8172 | every event returned is stored and accepted by one of the filters |
| `QueryEvents.ReachableAnswersMatch` | worker.js:8059-8172 | in every reachable state, an event returned with indexable tags is stored and matches one of the filters as a live event would |
| `QueryEvents.SingleFilterCut` | worker.js:8089-8093 | of a single filter's rows, a row is answered exactly if it is among the first 500 read, whatever its age |
| `QueryEvents.TwoChunks` | worker.js:7955-8010 | past the gate a filter is split into at most two chunks |
| `QueryEvents.NewestAreAnswered` | worker.js:8059-8172 | one filter, chunked or not, and not for a single uncached tag, returns every accepted event with fewer than the limit of others at least as new, when its chunks fit under the cap |
| `QueryEvents.SmallLimitsHaveRoom` | worker.js:8059-8172 | the chunks fit whenever the limit is at most 250, or identifiers and limit together at most 1000 |
| `ResultCap.SceneLoses` | worker.js:8086-8094 | for any filter whose chunks do not fit, old events in the first chunk push a new one of the second out of the answer |
| `ResultCap.NewestAnsweredExactlyWhen` | worker.js:8059-8172 | over all stores, database answers and events, the newest are sure to be answered exactly when the filter's chunks fit under the cap or it admits one time |
| `ResultCap.NewestLost` | worker.js:8059-8172 | a reachable store and a filter of 501 identifiers whose newest event, newer than every other, is not answered |
| `RepeatedRows.ProducedExactly` | worker.js:7815-7818 | the single-tag join lists an event once for each of its tag rows with the name and a listed value |
| `RepeatedRows.JoinKeepsNewest` | worker.js:7813-7852 | an answer to it holds the newest events when one row is asked for, or at most one event can be found |
| `RepeatedRows.SceneIsCrowded` | worker.js:7813-7852 | for any other such filter without a cursor, copies of the tag on one event fill the answer, and another event as new is not in it |
| `RepeatedRows.AnswerHoldsNewestExactly` | worker.js:7730-7954 | for every filter without a cursor, every answer to its query holds the newest events exactly when it is not for a single uncached tag, or asks for one row, or can find at most one event |
| `RepeatedRows.TwoCopiesFillTheAnswer` | worker.js:7454-7458 | a reachable store in which an event with the same tag twice fills an answer of two rows |
| `QueryCache.RelayCache.constructor` | src/durable-object.ts:56-61 | starts empty, with an index that is its exact inverse |
| `QueryCache.RelayCache.AddFilterToIndex` | src/durable-object.ts:436-472 | adds the key under each kind, author and tag value of one filter and changes nothing else |
| `QueryCache.RelayCache.AddToCacheIndex` | src/durable-object.ts:435-473 | adds the key under exactly the terms of its filters |
| `QueryCache.RelayCache.RemoveFromCacheIndex` | src/durable-object.ts:476-485 | takes the key out of every set and drops the sets left empty |
| `QueryCache.RelayCache.LowestScores` | src/durable-object.ts:408-429 | picks as many live entries as asked, none scoring above one that stays |
| `QueryCache.RelayCache.CleanupQueryCache` | src/durable-object.ts:398-432 | expired entries go; if more than 100 remain, the twenty lowest-scoring go too; the index stays exact |
| `QueryCache.RelayCache.GetCachedOrQuery` | src/durable-object.ts:297-396 | answers from the shared cache, the local one or the database, with the entry, counters and index it leaves behind |
| `QueryCache.RelayCache.CollectTags` | src/durable-object.ts:507-517 | the cached queries that mention a tag of the event |
| `QueryCache.RelayCache.InvalidateRelevantCaches` | src/durable-object.ts:487-528 | removes exactly the entries that share an index term with the event; the index stays exact |
| `QueryCache.RelayCache.Clear` | src/durable-object.ts:171-173 | empties cache and index |
| `QueryCache.AddsExact` | src/durable-object.ts:357-366 | storing an entry and indexing its terms keeps the index the exact inverse of the cache |
| `QueryCache.CleanedSize` | src/durable-object.ts:398-432 | eviction leaves at most 100 of at most 101 entries, and no survivor scores below an evicted live entry |
| `QueryCache.AskKeepsBoundExactly` | src/durable-object.ts:320-371 | a request leaves at most 100 entries exactly unless the shared cache answers a new query while the cache is full |
| `QueryCache.SharedAnswerOverflows` | src/durable-object.ts:320-332 | a run that fills the cache with 100 entries and that an answer of the shared cache takes to 101 |
| `QueryCache.AlwaysBounded` | src/durable-object.ts:368-371 | without answers of the shared cache the bound holds in every run |
| `QueryCache.InvalidatedExactly` | src/durable-object.ts:487-528 | an entry all of whose filters match the event goes exactly when one of them lists a kind, author or tag value |
| `QueryCache.InvalidatedWhenMatching` | src/durable-object.ts:487-528 | one matching filter that lists a term is enough |
| `QueryCache.NoStaleEntry` | src/durable-object.ts:487-528 | over runs, an entry whose filter matches an invalidated event was fetched after that invalidation |
| `CacheAnswers.AskIs` | src/durable-object.ts:297-396 | a shared answer is stored afresh, an own one younger than a minute is returned and counted, anything else is asked of the database and stored |
| `CacheAnswers.CleaningIs` | src/durable-object.ts:398-432 | cleaning keeps entries at most a minute old: all of them up to 100, else all but the twenty of least worth |
| `CacheAnswers.ScoreIsWorth` | src/durable-object.ts:408-429 | one access is worth being accessed ten minutes later |
| `CacheAnswers.InvalidationIs` | src/durable-object.ts:487-528 | an event removes exactly the entries with a filter that lists its kind, its author or a value of one of its tags |
| `CacheAnswers.AnswersAreFresh` | src/durable-object.ts:297-396 | over every run from an empty cache, each answer was fetched for the same query just now or less than a minute ago |
| `Sessions.ReceiveIsPut` | src/durable-object.ts:621-681 | a message changes one session: in memory, in its attachment, and in storage if its subscriptions were written |
| `Sessions.StepSynced` | src/durable-object.ts:577-681 | while what messages change can be written, every operation keeps each session in memory equal to what its attachment and stored subscriptions would rebuild |
| `Sessions.StepSame` | src/durable-object.ts:610-691 | two relays that differ only in which sessions are in memory end alike and answer alike |
| `Sessions.HibernationIsTransparent` | src/durable-object.ts:610-691 | while what messages change can be written, dropping sessions anywhere in a run changes neither what survives nor any frame or delivery, up to repeated challenges |
| `Sessions.MessageSyncedExactly` | src/durable-object.ts:671-691 | a message keeps memory equal to what survives exactly when its attachment fits or is unchanged, and its subscriptions are stored, unchanged or not to be saved |
| `Sessions.UnsavedAuthIsForgotten` | src/durable-object.ts:671-691 | an accepted AUTH whose attachment does not fit is forgotten by hibernation and can be repeated |
| `Sessions.SessionAfter` | src/durable-object.ts:671-691 | what a message leaves in memory, attachment and storage for every outcome of the two writes |
| `Sessions.ResumedRepeatsChallenge` | src/durable-object.ts:652-655 | a rebuilt session announces only its current challenge, and only before anyone authenticated |
| `Sessions.DeliveredFromStorage` | src/durable-object.ts:1226-1273 | an event is delivered to exactly the stored subscriptions of open sockets that match it |
| `Sessions.StepAuth` | src/durable-object.ts:1195-1199 | only a connection and an accepted AUTH change challenge and pubkeys, and how |
| `Sessions.AcceptsMeansOk` | src/durable-object.ts:1117-1216 | the model's acceptance of an AUTH is the positive OK frame |
| `Sessions.ChallengesAreSingleUse` | src/durable-object.ts:1198-1199 | over every run with hibernation, the challenge of an accepted AUTH was issued and never used before on any socket |
| `Sessions.PubkeysAreThoseAuthenticated` | src/durable-object.ts:1195-1196 | an open session's pubkeys are exactly those that authenticated on it since it connected |
| `Sessions.PublishedOnlyAfterAuth` | src/durable-object.ts:813-828 | an accepted event comes from a session on which its author authenticated, or anyone for gift wraps |
| `Sessions.DeliveredOnlyToAuthenticated` | src/durable-object.ts:997-1001 | no broadcast reaches a socket on which nobody authenticated |
| `Sessions.CappingIsHarmless` | src/durable-object.ts:1059-1064 | capping a limit to 500 changes neither the query of a filter nor the events it matches |
| `Sessions.StepStored` | src/durable-object.ts:1067-1071 | only accepted requests and closings touch a stored subscription, and how |
| `Sessions.SubscriptionsAreThoseRequested` | src/durable-object.ts:1067-1071 | an open socket's stored subscriptions are exactly the accepted requests that nothing has ended or replaced |
| `Sessions.DeliveredExactlyToSubscribers` | src/durable-object.ts:1226-1273 | over every run with hibernation, a broadcast reaches a subscription exactly when its latest accepted request stands and asked for a filter that matches |
| `SessionAnswers.RequestGetsItsEvents` | src/durable-object.ts:1073-1090 | over every run, an accepted request is answered with every event the database returned, in order, and then EOSE |
| `SessionAnswers.RequestGetsOneFrame` | src/durable-object.ts:989-1096 | every other request gets one frame, which names the first thing that is wrong |
| `SessionAnswers.RequestLeaves` | src/durable-object.ts:1059-1081 | an accepted request leaves its own filters, with limits capped at 500, the other subscriptions, and the bookmark of its answer |
| `SessionAnswers.RefusedEvent` | src/durable-object.ts:791-850 | an event is refused for the first of five reasons, and then goes nowhere |
| `SessionAnswers.AdmittedEvent` | src/durable-object.ts:850-987 | any other is answered by its verdict, and goes to exactly the matching subscriptions if stored, after what an extension made of it |
| `SessionAnswers.IncomingEvent` | src/durable-object.ts:719-758 | an event of another relay object goes to exactly the matching subscriptions |
| `SessionAnswers.CloseGetsOneFrame` | src/durable-object.ts:1098-1114 | a closing is confirmed, unknown or failed, and ends just its own subscription |
| `SessionAnswers.ProvesExactly` | src/durable-object.ts:1117-1193 | an AUTH is accepted exactly when it is complete, signed, of kind 22242, within 60 seconds, and answers the challenge and the host in its first tags |
| `SessionAnswers.AuthGetsOneFrame` | src/durable-object.ts:1117-1216 | it then adds its author, renews the challenge and notes the payment; any other changes nothing |
| `SessionAnswers.GarbageGetsANotice` | src/durable-object.ts:760-789 | what is no message gets a notice and changes nothing |
| `SessionAnswers.OthersAreLeftAlone` | src/durable-object.ts:621-681 | a message leaves what survives of every other session as it was |
| `SessionAnswers.ConnectingIs` | src/durable-object.ts:559-595 | a new socket has no subscriptions, nobody authenticated, and is told its challenge |
| `SessionAnswers.EndingsAre` | src/durable-object.ts:693-717 | what a closed socket, an erroneous one and the alarm leave |
| `Sessions.UnstoredRequestIsForgotten` | src/durable-object.ts:1067-1071 | an accepted request that storage refuses is served from memory and forgotten by hibernation |
| `Sessions.UnstoredCloseIsUndone` | src/durable-object.ts:1104-1107 | a closing that storage refuses holds in memory and is undone by hibernation |
| `Sessions.UnstoredRequestShows` | src/durable-object.ts:1067-1071 | after every run, hibernation following such a request changes what the next event reaches |
| `Sessions.ForgottenSubscription` | src/durable-object.ts:1067-1071 | a signed-in client's request that storage refuses makes hibernation visible |
| `Sessions.RelayObject.LoadSubscriptions` | src/durable-object.ts:243-247 | the stored subscriptions, or none |
| `Sessions.RelayObject.SaveSubscriptions` | src/durable-object.ts:237-241 | all subscriptions of a session are written as one value, or the write throws and nothing changes |
| `Sessions.RelayObject.OpenSession` | src/durable-object.ts:621-650 | gets the session from memory or rebuilds it from attachment and storage |
| `Sessions.RelayObject.BroadcastToLocalSessions` | src/durable-object.ts:1226-1273 | rebuilds missing sessions socket by socket and delivers to exactly the matching subscriptions |
| `Sessions.RelayObject.HandleEvent` | src/durable-object.ts:791-987 | the checks in their order, the bookmark, and which events are broadcast |
| `Sessions.RelayObject.HandleReq` | src/durable-object.ts:989-1096 | the checks in their order, the capped limits, the subscription in memory and then storage, and the frames sent; a refused write throws before any frame |
| `Sessions.RelayObject.HandleCloseSubscription` | src/durable-object.ts:1098-1114 | removes a subscription in memory and then storage, or says it is not there; a refused write throws after the removal in memory |
| `Sessions.RelayObject.HandleAuth` | src/durable-object.ts:1117-1216 | an AUTH that passes every check adds the pubkey and replaces the challenge; any other changes nothing |
| `Sessions.RelayObject.HandleMessage` | src/durable-object.ts:760-789 | each kind of message has its outcome, and whatever a handler throws becomes one notice |
| `Sessions.RelayObject.ReceiveMessage` | src/durable-object.ts:621-669 | rebuilds the session if need be, repeats its challenge, and handles the message |
| `Sessions.RelayObject.WebSocketMessage` | src/durable-object.ts:610-691 | does exactly the step the model assigns to a message; the attachment is written back unless it does not fit or the text does not parse |
| `Sessions.RelayObject.WebSocketClose` | src/durable-object.ts:693-709 | forgets the session and its stored subscriptions |
| `Sessions.RelayObject.WebSocketError` | src/durable-object.ts:711-717 | forgets only the session in memory |
| `Sessions.RelayObject.CleanupWhenIdle` | src/durable-object.ts:153-222 | without open sockets, memory and orphaned subscriptions are dropped |
| `Sessions.RelayObject.AcceptSocket` | src/durable-object.ts:559-595 | a new session, its attachment and its first challenge |
| `Mesh.RelayNode.HandleDOBroadcast` | src/durable-object.ts:719-758 | a known event is ignored; a new one is remembered, broadcast, and entries older than five minutes go |
| `Mesh.AfterReceiving` | src/durable-object.ts:727-746 | a new event is remembered, with exactly those of the last five minutes |
| `Mesh.RelayNode.MarkProcessed` | src/durable-object.ts:970-971 | an accepted client event is remembered |
| `Mesh.RelayNode.BroadcastToOtherDOs` | src/durable-object.ts:1275-1297 | sends one packet to every endpoint but its own |
| `Mesh.BroadcastsArePaidFor` | src/durable-object.ts:719-758 | over every run with duplicated, lost and reordered packets and repeated publications, a node broadcasts an event at most as often as it is published anywhere plus as often as the node was cleared |
| `Mesh.BroadcastAtMostOnce` | src/durable-object.ts:719-758 | published at most once, an event is broadcast at most once more often than the node was cleared |
| `Mesh.RepublishedIsRebroadcast` | src/durable-object.ts:966-978 | an event published twice at one node is broadcast there twice, though the node remembers it |
| `Mesh.ReceivingSendsNothing` | src/durable-object.ts:1218-1224 | in every reachable state the packets about an event are those of its publications, so receiving never sends |
| `Mesh.EightPackets` | src/durable-object.ts:75-85 | a publication sends eight packets |
| `Mesh.EightPacketsEach` | src/durable-object.ts:1275-1297 | in every run an event costs at most eight packets for each of its publications |
| `Mesh.ExactlyOnce` | src/durable-object.ts:719-758 | on a node that was not cleared, an event published once and arrived in any copy has been broadcast exactly once |
| `Publishing.PublishedOnceWhileStored` | src/durable-object.ts:958-978 | over every run, an event of a storable kind that stays stored is published at most once |
| `Publishing.StoredEventBroadcastOnce` | src/durable-object.ts:958-978 | hence each node broadcasts it at most once more often than it was cleared |
| `Publishing.EphemeralBroadcastTwice` | worker.js:7325-7327 | an ephemeral event submitted twice is accepted twice and broadcast twice by one node |
| `Publishing.DeletionBroadcastTwice` | src/durable-object.ts:958-978 | an accepted deletion submitted again is accepted and broadcast again by the node that remembers it |
| `Dating.GrantsAreAWeekApart` | worker.js:5766-5815 | over every run with housekeeping, two grants of a candidate to a viewer are more than seven days apart |
| `Dating.LikesAreSixDaysApart` | worker.js:5960-5971 | hence two accepted likes of the same ordered pair are more than six days apart |
| `Dating.AcceptedLikeHadGrant` | worker.js:5960-5971 | an accepted like carries the token of a grant issued less than a day before |
| `Dating.RunWellKeyed` | worker.js:5993-5996 | every match row lies under its own two distinct members, so a pair has at most one |
| `Dating.MatchesOnlyEnd` | worker.js:6110-6165 | a match row stays, keeps its members, never returns to active, and stays blocked once blocked |
| `Dating.RevokedStaysRevoked` | worker.js:6019-6029 | a revoked intent never becomes active again |
| `Dating.IntentOrigin` | worker.js:5973-5976 | every intent goes back to an accepted like |
| `Dating.MatchNeedsBothGrants` | worker.js:5960-6010 | every match row was preceded by an accepted like, hence a consumed live grant, in both directions |
| `Dating.RunBlocksHold` | worker.js:6110-6133 | in every reachable state no grant and no match but a blocked one lies across a block |
| `Dating.NoLikeAcrossBlock` | worker.js:5960-5971 | across a standing block no like is accepted and none changes anything |
| `Dating.NothingAcrossBlock` | worker.js:6086-6133 | while a block stands, in either direction, the pair has no grant and no new or active match |
| `Dating.MatchCreatedIsTrueExactly` | worker.js:5991-6010 | an announced match is active exactly when the pair had none that ended before |
| `Dating.StaleMatchAnnounced` | worker.js:5991-6010 | a reachable state in which a like announces a match that stays unmatched |
| `DatingTables.LikesAnswered` | worker.js:5931-6018 | every answer to a like, and exactly when it is given |
| `DatingTables.GrantRow` | worker.js:5796-5816 | a grant is made by a search alone, for a day, and ends when it is spent, preferences change, a block is made, an account is deleted, or it is pruned |
| `DatingTables.SeenRow` | worker.js:5808-5813 | whoever is granted is recorded as seen, with the first time, until purged |
| `DatingTables.IntentRow` | worker.js:5973-5976 | an intent is made by a like that goes through, for ninety days, and revoked by its sender, a block or the deletion of its sender |
| `DatingTables.MatchRow` | worker.js:5991-5996 | a match is made by a like that is returned; what block, unmatch and deletion make of its state |
| `DatingTables.BlockRow` | worker.js:6086-6120 | a block is made by blocking and ends by unblocking in its direction, or with the account of either |
| `DatingTables.BlocksAreThoseMade` | worker.js:6086-6120 | over every run, the stored blocks are exactly those made and not lifted since |
| `DatingTables.NothingSinceBlock` | worker.js:6110-6133 | since a block nobody lifted the pair has no grant, no like that goes through, no new grant, and no match but a blocked one |
| `DatingTables.GrantedLikeGoesThrough` | worker.js:5960-5971 | for a day after a grant, a like with its token goes through unless the grant was spent or withdrawn |
| `DatingTables.MutualLikesMatch` | worker.js:5960-6010 | of two members who like each other the second like makes the match, if the first intent was never revoked |
| `Dating.DatingStore.PersistGrants` | worker.js:5796-5816 | replaces the grant rows and records each candidate as seen unless it already is |
| `Dating.DatingStore.DropGrantsOf` | worker.js:5598-5600 | changed preferences remove the viewer's grants and nothing else |
| `Dating.DatingStore.HandleLike` | worker.js:5931-6018 | the refusals in their order; an accepted like consumes the grant, keeps or adds the intent, and adds at most one match |
| `Dating.DatingStore.HandleRevoke` | worker.js:6019-6029 | revokes the one intent |
| `Dating.DatingStore.CreateBlock` | worker.js:6110-6133 | the four statements by columns do what the model says by keys |
| `Dating.DatingStore.RemoveBlock` | worker.js:6086-6109 | removes only the block in that direction |
| `Dating.DatingStore.CreateUnmatch` | worker.js:6148-6165 | ends an active match, recording which side ended it |
| `Dating.DatingStore.DeleteAccountOf` | worker.js:6301-6318 | revokes the member's intents, ends the active matches, and removes blocks and grants on both sides |
| `Dating.DatingStore.PruneExpiredGrants` | src/cloudflare/housekeeper.ts:69-79 | deletes at most 200 expired grants; fewer means that none is left |
| `Dating.DatingStore.PurgeStaleSeenCandidates` | src/cloudflare/housekeeper.ts:109-119 | deletes at most 200 seen rows older than seven days; fewer means that none is left |
| `Discovery.CellNests` | worker.js:5549-5555 | members who share a finer cell share the coarser ones |
| `Discovery.TopNarrows` | worker.js:5775-5777 | in one row order, a row within the limit of a wider selection is within the larger limit of a narrower one that selects it |
| `Discovery.NotFiner` | worker.js:5733-5790 | a row that a wider tier still yields as new is in no finer tier searched before |
| `Discovery.CollectRows` | worker.js:5779-5790 | takes the rows not met before, labels them with the tier, and stops when enough are found |
| `Discovery.SearchTier` | worker.js:5736-5790 | one tier's query with the limit still wanted, and what it adds |
| `Discovery.GenerateGrants` | worker.js:5728-5795 | at most as many as wanted, distinct, eligible, labelled with the finest shared tier, nobody passed over; none found means nobody is in the finest reach |
| `Discovery.FoundMayBeGranted` | worker.js:5766-5774 | whoever the search finds may be granted: unseen, unblocked, not the viewer |
| `Discovery.FoundAreDiscoverable` | worker.js:5756-5763 | over every run of profile requests, whoever a search finds is an active member with a discoverable profile whose own age and gender suit the viewer |
| `SearchReach.FoundAreSuitable` | worker.js:5728-5795 | whoever is found is a suitable row within reach: five letters of the geohash up to 10 km, four up to 50 km, three beyond; the label is the number of letters shared |
| `SearchReach.NobodyWithinReach` | worker.js:5728-5795 | a search that finds nobody had no suitable row within reach |
| `SearchReach.NobodyBetterMissed` | worker.js:5755-5790 | whoever is suitable, shares the area of somebody found and is listed before them is found as well |
| `Discovery.GrantCandidates` | worker.js:5791-5795 | the search followed by its grants is one enabled step of the dating protocol |
| `Membership.StepIsLocal` | worker.js:4985-5066 | a request touches only its own member's rows |
| `Membership.StepMirrors` | worker.js:5236-5270 | every request keeps visible rows mirrors of discoverable profiles |
| `Membership.VisibleMeansDiscoverable` | worker.js:5236-5284 | in every run, a visible row belongs to an active member with a discoverable profile and shows its age, gender and intent |
| `Membership.RefreshedExactly` | worker.js:5236-5270 | after a refreshing request the member is visible if and only if discoverable |
| `Membership.RefusedChangesNothing` | worker.js:5019-5027 | a refused request changes nothing, and only known members are refused |
| `Membership.VisibilityAloneShowsPaused` | worker.js:5271-5284 | setting visibility without the refresh would show a paused member; with it, not |
| `MemberRows.Replies` | worker.js:5384-5441 | deleted and banned members are refused, faulty payloads rejected, all else done |
| `MemberRows.StatusRow` | worker.js:4985-5066 | a member is active from the first request on, and then what the last pause, resumption or deletion says |
| `MemberRows.ProfileRow` | worker.js:5100-5132 | the content last accepted and the visibility last set |
| `MemberRows.IndexRow` | worker.js:5236-5270 | the location last given, the content of the profile, and visible only if active and wanted |
| `MemberRows.NewMember` | worker.js:4985-5018 | a new member is active and discoverable, and not yet visible |
| `MemberRows.DeletedMeans` | worker.js:5019-5066 | over every run, a deleted member who neither resumes nor pauses is invisible and refused |
| `MemberRows.ResumingRevives` | worker.js:5046-5055 | resuming makes active and visible whatever the status was |
| `MemberRows.RevivedMember` | worker.js:5046-5055 | a run after which a deleted member becomes visible again by resuming |
| `Membership.MembershipStore.CreateMember` | worker.js:4985-5018 | adds the three rows that are missing and leaves existing ones |
| `Membership.MembershipStore.EnsureMember` | worker.js:5019-5027 | admits or creates, and refuses deleted and banned members |
| `Membership.MembershipStore.Mark` | worker.js:5036-5066 | the three updates of a pause, resume or deletion |
| `Membership.MembershipStore.UpdateProfileContent` | worker.js:5100-5132 | stores the filterable content and leaves the visibility of an existing profile |
| `Membership.MembershipStore.SyncDiscoveryIndex` | worker.js:5236-5270 | mirrors profile and status into the index row and keeps its location |
| `Membership.MembershipStore.Handle` | worker.js:5384-5441 | each profile, visibility, location or preference request does exactly its step |
| `Router.StalenessMeans` | worker.js:3881-3891 | the two error codes name requests more than 300 s old and more than 60 s ahead |
| `Router.StepInv` | worker.js:4161-4210 | every operation keeps completions remembered for a day and a day apart per key |
| `Router.CompletesAtMostOnce` | worker.js:3988-4097 | with a working store and any pruning of expired records, two completions under a key are more than 86400 s apart and their envelopes more than 86040 s, so no envelope completes twice |
| `Router.RepeatIsDuplicate` | worker.js:4056-4073 | a completed request that is still fresh is answered as a duplicate |
| `Router.DroppedRecordRepeats` | worker.js:4077-4084 | when the record is dropped, the next copy completes again |
| `Router.CompletesExactly` | worker.js:3988-4097 | a request completes exactly when its envelope passes every check, it is timely, made by its authenticated sender to a service that takes it, new under its key, and the handler does not throw |
| `Router.CompletionOrigin` | worker.js:3988-4097 | over every run, each completion goes back to such a request and lies under its sender |
| `Router.ProperCompletes` | worker.js:4074-4088 | conversely such a request completes, and is remembered for a day |
| `Router.ProperAnswers` | worker.js:4056-4097 | a proper request is a duplicate, fails in its handler, or succeeds |
| `Router.RefusalsMean` | worker.js:3988-4055 | each refusal after the envelope names the first thing that is wrong |
| `Router.EnvelopeRefusalsMean` | worker.js:3795-3856 | so does each refusal of the envelope, field by field |
| `Router.OthersLeaveRecords` | worker.js:3988-4097 | what does not complete leaves every record |
| `Router.IdempotencyStore.IsDuplicate` | worker.js:4165-4178 | looks the key up, and says no when the lookup fails |
| `Router.IdempotencyStore.Record` | worker.js:4179-4192 | inserts the key with a day's retention unless it is there |
| `Router.IdempotencyStore.PruneExpired` | worker.js:4193-4207 | removes exactly the expired records |
| `Router.RouteRequest` | worker.js:3988-4097 | answers with the first refusal in order, a duplicate, an internal error or success, and records only completions |
| `Padding.PaddedBounds` | worker.js:3483-3493 | a padded length reaches the text, is a multiple of 32, and wastes less than 32 bytes or a quarter |
| `Padding.PaddedMonotone` | worker.js:3483-3493 | longer texts never get shorter paddings |
| `Padding.PaddedIdempotent` | worker.js:3483-3493 | a padded length is its own padded length |
| `Padding.ChunkOfShiftShape` | worker.js:3490-3491 | the 32-bit shift yields a chunk that is a power of two, at least 32, and never too large even when it wraps |
| `Padding.PaddedLengthIs` | worker.js:3483-3493 | 32 bytes up to 32; the next multiple of 32 up to 256; from 2^k to 2^(k+1) the next multiple of 2^(k-2); and of 32 again above 2^30, where the shift wraps |
| `Padding.PadSucceedsExactly` | worker.js:3494-3512 | padding succeeds exactly when the text leaves room for its header in the last chunk |
| `Padding.PadsExactly` | worker.js:3494-3512 | the same range by range, with the sizes of the last chunk and of the header spelled out |
| `Padding.PaddedLayout` | worker.js:3494-3512 | every byte of a padded text: its length in two bytes, or in four after two zeros; the text; zeros |
| `Padding.RoundTripExactly` | worker.js:3494-3533 | unpadding a padded text gives it back exactly when its length is below 2^31, in both header formats |
| `Padding.UnpadsExactly` | worker.js:3513-3533 | exactly which buffers unpad to which text, in both formats |
| `Padding.ThirtyTwoBytesFail` | worker.js:3494-3512 | a text of 32 bytes does not pad |
| `Padding.Pad` | worker.js:3494-3512 | fills the buffer in place with header, text and zeros, or fails |
| `Padding.Unpad` | worker.js:3513-3533 | reads either header format and returns the text or an error |
| `RateLimiter.Limiter.Refill` | src/types.ts:116-122 | adds the whole tokens earned, up to the capacity, and restarts the clock |
| `RateLimiter.Limiter.TakeToken` | src/types.ts:107-114 | refills, then takes a token or refuses |
| `RateLimiter.AlwaysSound` | src/types.ts:94-123 | tokens stay between none and the capacity in every call sequence |
| `RateLimiter.Conservation` | src/types.ts:94-123 | tokens handed out and tokens left never exceed tokens held and tokens earned |
| `RateLimiter.WindowBound` | src/types.ts:94-123 | between any two calls at most the capacity plus the whole tokens of that time are accepted, whatever came before |
| `RateLimiter.AcceptedExactly` | src/types.ts:107-122 | a call is accepted exactly when a token is left or has been earned since the last one |
| `RateLimiter.TokensAfter` | src/types.ts:107-122 | after a call: what was held and earned, at most the capacity, less one if accepted |
| `RateLimiter.BurstIsTheCapacity` | src/types.ts:100-122 | a full bucket takes as many calls at once as its capacity and refuses the rest |
| `RateLimiter.PatienceIsRewarded` | src/types.ts:116-122 | waiting as long as one token takes is enough for one call |
| `RateLimiter.NothingAcceptedExactly` | src/types.ts:107-122 | from an empty bucket no call of a sequence is accepted exactly when each comes before a whole token is earned |
| `RateLimiter.EveryFiftyStarves` | src/types.ts:107-122 | at one token in 100 ms, calls every 50 ms starve for ever |
| `RateLimiter.EveryHundredSucceeds` | src/types.ts:107-122 | at the same rate, a call after 100 ms succeeds |

## Left out

- QueryCompiler.CompileCorrect: selection before LIMIT; the cursor condition is modelled, but not that a client walking
  cursors misses nothing, because the SQL order has no tie-break. Index hints do not change which rows are selected.
- ChunkedQuery.ChunkedKeepsNewest: for filters other than for a single uncached tag, whose rows repeat events;
  for those `RepeatedRows.AnswerHoldsNewestExactly` speaks of one query, not of chunks.
- RepeatedRows.AnswerHoldsNewestExactly: for filters without a cursor, which can also leave at most one event to find.
- EventStore.Store.Prune: the sizes the database reports are given, and the deletion count is the number of rows deleted.
- EventRuns.NewestWins: for saves that all succeed; when a failing insertion empties its address is stated separately.
- QueryEvents.NewestAreAnswered: for one filter, not for a single uncached tag; several filters share the cap of 500.
- ResultCap.NewestAnsweredExactlyWhen: for filters without tags and without a cursor, which would bound the times
  further; the direction that promises the newest events holds for cursors and for all but single uncached tags.
- Sessions.HibernationIsTransparent: limiter verdicts, signature checks, admission policy and query answers are given
  with each message, since rate limiters do restart; whether an attachment fits and storage takes the subscriptions are
  the platform's verdicts. The first attachment of a connection is taken to fit, and reading and deleting stored
  subscriptions to succeed. The order of deliveries is not modelled, sessions are values in a map rather than shared
  objects, and handlers do not interleave.
- Mesh.BroadcastsArePaidFor: a packet is assumed to arrive within the five minutes an entry is kept; its sender gives up
  after three seconds (src/durable-object.ts:1286-1292).
- Dating.LikesAreSixDaysApart: grants, seen rows, likes and blocks only; the daily like counter is a verdict, because the
  bound parameters of its upsert do not follow the placeholders.
- Dating.RunWellKeyed: digests of pubkeys and pairs are taken to be injective and pubkeys canonical.
- Discovery.GenerateGrants: the three queries of a search are assumed to break ties of trust tier and time alike; that
  every eligible member is eventually shown is not promised by the code.
- Membership.VisibleMeansDiscoverable: each handler is one step; queue tasks and moderation actions, which write these
  tables without a refresh, are not modelled, nor is the status gate of other services.
- Router.CompletesAtMostOnce: routing is atomic and the clock does not run backwards; message types and payload checks
  are verdicts.
- Padding.PaddedBounds: the logarithm is exact, which floating point is for lengths below 2^48.
- Sharing of queries in flight, the contents of the shared query cache, database replicas and bookmarks as consistency
  tokens: one consistent database is assumed.
- Errors of single statements inside a chunked query, which are logged and skipped.
- Content hashes for duplicate content, which the configuration switches off; content previews and reply columns.
- The count query behind the cost estimate, whose parameters are pushed in another order than its placeholders.
- Signatures, hashes and encryption are not modelled; neither are HTTP routes, media, the landing page, NIP-05, NIP-11,
  moderation, payments, the direct-message policy, notifications and logging.
- Discovery quotas, paging of existing grants and the decryption of profile cards.
