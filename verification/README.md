# Agent Spaces: a verified model of the lease-based work queue

Agent Spaces stores units of work ("agents") that clients submit, take under a lease, renew, release and
complete, on one of three storage backends. This project models the parts where that is hardest to get right
and proves what they promise, for every input, every run or every reachable state.

- **Valkey shard** (`Keys`, `ValkeyRecords`, `ValkeyShard`, `ValkeyQuery`, `ValkeyLaws`, `ValkeyPlaces`,
  `ValkeyEffects`, `ValkeyFencing`, `ValkeyFifo`, `ValkeyAnswers`). A class holds the
  records, the hot projections, the index sets and the sorted sets; one method per Lua script updates them step by
  step. Its invariant is that everything derived equals what a scan of the records would give. On it rest indexed
  queries, head-of-queue takes and the reaper, each proved equal to a plain definition over the records alone.
- **Lease protocol** (`LeaseProtocol`, `LeaseSafety`, `LeaseFencing`, `LeaseRenewal`, `LeaseEffects`,
  `SqliteStore`). The Postgres
  lifecycle is a state machine with one step per SQL transaction; ids and tokens come from a fresh supply, take
  candidates may be stale or repeated. Fencing, single completion, idempotent retries, the replayable event log and
  lease keeping are proved over whole runs. The SQLite store, written as the check-then-write code it is, refines
  the same steps.
- **Sharding** (`Ordering`, `ShardMerge`, `ShardQuery`, `Placement`, `ShardMap`). Routing by an arbitrary hash, placement kept by
  every step, and fan-out, merge and paging equal to one big store.
- **Graphs** (`DagWalk`, `TopologicalSort`). The parent/child walk over possibly cyclic links, and Kahn's sort.
- **Text and arithmetic** (`Text`, `SqlScanner`, `SqlLaws`, `WhereText`, `WhereBuilder`, `StrictTake`, `RateLimiter`). The SQL
  statement counter, the WHERE builder with its shifted placeholders and the strict take built on it, and the
  fixed-window rate limiter.

`Agents` holds the shared data types. Times are integers; a Lua script or SQL transaction is one step.

Some properties do not hold in full, and the model says exactly when they do, with a failing case beside each: a page
of merged events can be wrong when timestamps tie (`ShardMerge.PagesExactIffNoneTooFarBack`,
`ShardMerge.TieShowsWrongEvent`); a strict take can miss the matching head of a queue whose name has surrounding
blanks (`StrictTake.NeverMissesIffTrimmed`, `StrictTake.PaddedQueueMisses`); pruning changes the rate limiter's
answers for windows longer than two configured ones (`RateLimiter.NoSweepMattersIff`, `RateLimiter.SweepForgets`);
waiting for the Retry-After time is not always enough (`RateLimiter.RetryAfterIsEnoughIff`,
`RateLimiter.RetryAfterTooSoon`); SQLite and Postgres store different outputs when a namespace would have to be
inherited (`SqliteStore.InheritanceAgrees`, `SqliteStore.InheritanceDiffers`) - the HTTP layer fills in the namespace
of every output (internal/api/handlers.go:864-875), so only direct callers of the store can meet that; a refusal can
fall through its classification if the client guessed a token that is issued in between
(`LeaseFencing.AlwaysExplainedIff`, `LeaseFencing.UnissuedMayFallThrough`). A completion retry after a metadata update
is settled the same way (`LeaseFencing.RetryAfterUpdate`).

Verify with `dafny verify dfyconfig.toml`.

## Model

| member | source | states |
|---|---|---|
| Keys.PartUnique | pkg/store/valkey/store.go:2504-2506 | a length-prefixed part can be split off again whatever follows it, for strings with ":" and digits too |
| Keys.PairUnique | pkg/store/valkey/store.go:2517-2522 | two parts in a row determine both values |
| Keys.EncodeInjective | pkg/store/valkey/store.go:2504-2537 | no two keys share a name, inside a family or across families |
| Keys.RenderedAddRemove | pkg/store/valkey/store.go:2686-2728 | adding or removing a member under an encoded name touches exactly that index set |
| ValkeyShard.Shard.RemoveIndexes | pkg/store/valkey/store.go:2772-2814 | takes the agent out of every index set and sorted set its record names, and out of no other |
| ValkeyShard.Shard.AddIndexes | pkg/store/valkey/store.go:2816-2858 | puts the agent into exactly the sets its record names |
| ValkeyShard.RewriteExact | pkg/store/valkey/store.go:2748-2901 | replacing one record through its indexes keeps every derived structure equal to a scan of the records |
| ValkeyShard.Shard.OutScript | pkg/store/valkey/store.go:2908-2932 | keeps the shard exact and has the record-level effect of a submit |
| ValkeyShard.Shard.UpdateScript | pkg/store/valkey/store.go:2934-2956 | keeps the shard exact for any new record, also one based on a stale read |
| ValkeyShard.Shard.ClaimScript | pkg/store/valkey/store.go:2958-2993 | keeps the shard exact; claims a waiting agent, otherwise changes nothing and says why |
| ValkeyShard.Shard.QueueTakeScript | pkg/store/valkey/store.go:2995-3049 | has the effect of claiming the head of a scan of the queue, if wanted |
| ValkeyShard.Shard.QueueBatchTakeScript | pkg/store/valkey/store.go:3051-3118 | has the effect of repeated head takes |
| ValkeyShard.Shard.CompleteScript | pkg/store/valkey/store.go:3120-3174 | keeps the shard exact; completes for the lease holder, replays for the recorded winner, refuses otherwise |
| ValkeyShard.Shard.ReleaseScript | pkg/store/valkey/store.go:3176-3222 | keeps the shard exact; puts the agent back for its holder alone |
| ValkeyShard.Shard.RenewScript | pkg/store/valkey/store.go:3224-3258 | keeps the shard exact; moves the lease's expiry for its holder alone |
| ValkeyShard.Shard.CompleteAndOutScript | pkg/store/valkey/store.go:3260-3334 | keeps the shard exact; completes and stores all outputs, or changes nothing |
| ValkeyShard.Shard.ReapScript | pkg/store/valkey/store.go:3336-3370 | has the effect of releasing the earliest-expiring expired leases of a scan |
| ValkeyShard.HeadCandidate | pkg/store/valkey/store.go:3008-3019 | on an exact shard the first queue member is a live waiting agent, so the branches that drop stale members are never reached |
| ValkeyShard.QueueSetIsScan | pkg/store/valkey/store.go:2663-2672 | a queue's sorted set is the scan of waiting agents with their scores |
| ValkeyShard.LeaseSetIsScan | pkg/store/valkey/store.go:2674-2684 | the lease set is the scan of running leases with their expiries |
| ValkeyShard.NewSetIsScan | pkg/store/valkey/store.go:2843-2851 | the global order is the scan of waiting agents that name no queue |
| ValkeyShard.Shard.Run | pkg/store/valkey/store.go:2908-3370 | after any sequence of scripts the shard is exact and its records are those of the record-level run |
| ValkeyQuery.MatchIsIndexed | pkg/store/valkey/store.go:2105-2161 | an agent passes the query filter exactly when it is in every index set the query consults |
| ValkeyQuery.Intersect | pkg/store/valkey/store.go:938-968 | smallest-first narrowing returns exactly the ids in every source, each once |
| ValkeyQuery.CandidateIds | pkg/store/valkey/store.go:851-968 | on an exact shard the candidates are precisely the agents that pass the filter |
| ValkeyQuery.QueryShard | pkg/store/valkey/store.go:827-849 | the indexed answer is the sorted list of unexpired matching agents |
| ValkeyQuery.QueryOne | pkg/store/valkey/store.go:803-824 | after offset and limit it is the page of the scanned answer |
| ValkeyAnswers.InAnswerUntilExpiry | pkg/store/valkey/store.go:2098-2102 | an agent that passes the filter is in the answer exactly while it has no time to live or that time is not over |
| ValkeyAnswers.GoneStaysGone | pkg/store/valkey/store.go:2098-2102 | once it is gone from the answer it is absent at every later time |
| ValkeyAnswers.AnswerHoldsOnlyMatches | pkg/store/valkey/store.go:827-849 | nothing else is in the answer |
| ValkeyAnswers.AnswerIsOrdered | pkg/store/valkey/store.go:2176-2183 | the answer is by creation time, ties by id, nobody twice |
| ValkeyAnswers.PageIsSlice | pkg/store/valkey/store.go:2185-2199 | a page is the entries from the offset on, at most the limit |
| ValkeyAnswers.ReadBackLease | pkg/store/valkey/store.go:2074-2096 | a claimed agent is read back with the expiry its claim gave it |
| ValkeyLaws.HeadIsLeast | pkg/store/valkey/store.go:2663-2672 | the head is the waiting agent with the least (queue score, id), and only that one |
| ValkeyLaws.TakeClaimsHeadOnly | pkg/store/valkey/store.go:2995-3049 | a take claims exactly that agent if kind and owner fit, else nothing changes |
| ValkeyFifo.SubmittedFirstInFirstOut | pkg/store/valkey/store.go:2028-2049 | what is stored from agents that bring no queue time is served in order of (createdAt, id) |
| ValkeyFifo.LaterQueueTimeWaits | pkg/store/valkey/store.go:2663-2672 | of two waiting agents with queue times the later one is not the head |
| ValkeyFifo.ReachableFirstInFirstOut | pkg/store/valkey/store.go:2995-3049 | in every reachable store the head of a queue is its waiting agent with the least (createdAt, id), if nobody sets queue times |
| ValkeyEffects.QueueTakeEffect | pkg/store/valkey/store.go:2995-3049 | a take claims the head if kind and owner fit, for the taker, token and lease length asked for, field by field; else nothing changes |
| ValkeyEffects.ClaimEffect | pkg/store/valkey/store.go:2958-2993 | a claim by id sets exactly the lease fields of a waiting agent |
| ValkeyEffects.GrantedToHolderOnly | pkg/store/valkey/store.go:3176-3222 | complete, complete-and-out, release and renew are granted exactly to the recorded owner with the recorded token; everybody else changes nothing and is told the first field that differs |
| ValkeyEffects.CompleteEffect | pkg/store/valkey/store.go:3120-3174 | result and winner are on record, the lease is gone, every other field and entry is as it was |
| ValkeyEffects.CompleteAndOutEffect | pkg/store/valkey/store.go:3260-3334 | the same, every output is stored as given, nothing else changes |
| ValkeyEffects.ReleaseEffect | pkg/store/valkey/store.go:3176-3222 | the agent waits again with no lease and everything else as it was |
| ValkeyEffects.RenewEffect | pkg/store/valkey/store.go:3224-3258 | the expiry is what was asked; owner, token and version stay |
| ValkeyEffects.ReapEndsWhatRanOut | pkg/store/valkey/store.go:3336-3370 | a pass with room for all resets a lease exactly when its time has come |
| ValkeyEffects.EarlierLeaseEndsFirst | pkg/store/valkey/store.go:3336-3370 | a smaller pass ends no lease while it leaves an earlier one |
| ValkeyFencing.StepKeeps | pkg/store/valkey/store.go:2908-3370 | every script keeps live tokens distinct and brings no seen token back |
| ValkeyFencing.OneHolder | pkg/store/valkey/store.go:2908-3370 | in any run a live token belongs to one agent |
| ValkeyFencing.Fenced | pkg/store/valkey/store.go:2908-3370 | in any run, once a token's claim has ended no later complete, release or renew with it changes a record |
| ValkeyLaws.BatchIsSingleTakes | pkg/store/valkey/store.go:3051-3118 | a batch leaves the store as at most n single takes would |
| ValkeyLaws.BatchTokensDistinct | pkg/store/valkey/store.go:3066-3106 | the tokens of a batch are pairwise different |
| ValkeyPlaces.RunKeepsPlace | pkg/store/valkey/store.go:2908-3370 | over any run of scripts an agent keeps its namespace, queue and scores unless it is itself submitted or updated |
| ValkeyPlaces.WaitsWhereItWaited | pkg/store/valkey/store.go:2663-2672 | whenever it waits again it waits in the same queue with the same score, in the same order against every other agent left alone |
| ValkeyPlaces.PutBackRegainsPosition | pkg/store/valkey/store.go:3199-3212 | a release or reaper pass after any run puts the agent back into the queue's sorted set with its old score |
| ValkeyLaws.ReapTargetsEarliest | pkg/store/valkey/store.go:3336-3370 | one pass ends the min(batch, expired) earliest-expiring expired leases |
| ValkeyLaws.ReapSparesRunning | pkg/store/valkey/store.go:3336-3370 | a lease still running is never touched |
| ValkeyLaws.ReapDrains | pkg/store/valkey/store.go:3336-3370 | passes at one instant end every expired lease once and nothing else, as soon as passes * batch covers them |
| ValkeyLaws.TooFewPassesLeaveSome | pkg/store/valkey/store.go:3336-3370 | with fewer passes exactly the difference is left |
| ValkeyLaws.NothingLeftExpired | pkg/store/valkey/store.go:3336-3370 | after that no expired lease is left |
| LeaseSafety.NextKeeps | pkg/store/postgres/postgres_lifecycle.go:22-1226 | every step keeps row shapes, token ownership and the event log in order |
| LeaseSafety.RunKeeps | pkg/store/postgres/postgres_lifecycle.go:22-1226 | so does every run from the empty store |
| LeaseFencing.OneHolder | pkg/store/postgres/postgres_lifecycle.go:205-293 | a live lease token belongs to one agent, even with stale or repeated take candidates |
| LeaseFencing.EndsClaim | pkg/store/postgres/postgres_lifecycle.go:742-1119 | complete, complete-and-out, release and reap each spend the token of the claim they end |
| LeaseFencing.SpentIsInert | pkg/store/postgres/postgres_lifecycle.go:742-1226 | a spent token changes nothing when presented |
| LeaseFencing.Fenced | pkg/store/postgres/postgres_lifecycle.go:742-1226 | in any run, once a token's claim has ended no later complete, release or renew with it changes state |
| LeaseFencing.RunEvolves | pkg/store/postgres/postgres_lifecycle.go:669-1226 | over any run rows are never lost, the log only grows, COMPLETED is terminal |
| LeaseFencing.LogReplays | pkg/store/postgres/postgres_lifecycle.go:256-293 | an agent's events carry versions exactly 1..current and fold to its status |
| LeaseFencing.AtMostOneCompletion | pkg/store/postgres/postgres_lifecycle.go:823-853 | in any run an agent has one COMPLETED event if it is completed and none otherwise |
| LeaseFencing.CompletionIsIdempotent | pkg/store/postgres/postgres_lifecycle.go:742-1059 | after a complete or complete-and-out and any further run that leaves the record alone, a retry of either kind under the winning token succeeds without effect or new outputs, and every other token is refused |
| LeaseFencing.RetryAfterUpdate | pkg/store/internal/common/completion.go:24-30 | after a metadata update the retry succeeds exactly when the update left the winner's token in place |
| LeaseFencing.CompleteAndOutAtomic | pkg/store/postgres/postgres_lifecycle.go:858-1059 | the completion and all outputs happen together, or the store is unchanged |
| LeaseFencing.AlwaysExplainedIff | pkg/store/postgres/postgres_lifecycle.go:797-812 | the row is read again after the refusal, on any later state; the conflict is explained there exactly when the token had been issued or the agent can no longer be claimed |
| LeaseRenewal.ReapExact | pkg/store/postgres/postgres_reaper.go:46-137 | a pass resets each listed overdue lease once and leaves every other row alone |
| LeaseRenewal.PunctualHolderKeepsLease | pkg/store/postgres/postgres_lifecycle.go:1165-1226 | with a clock that does not run backwards, a holder whose renewals come within its lease holds it after every step, whenever the reaper runs and whatever everyone else does |
| LeaseRenewal.TakeIsSecure | pkg/store/postgres/postgres_lifecycle.go:205-247 | a take starts such a lease |
| LeaseEffects.GrantedToHolderOnly | pkg/store/postgres/postgres_lifecycle.go:742-1282 | complete, complete-and-out, release and renew are granted exactly to the live lease's owner with its token; everybody else changes nothing and is told the first thing that is wrong |
| LeaseEffects.CompletionEffect | pkg/store/postgres/postgres_lifecycle.go:742-853 | both completions record result, winner, token and time, drop the lease, and leave every other field, entry and row as it was |
| LeaseEffects.WinnersResultStays | pkg/store/postgres/postgres_lifecycle.go:742-853 | over any run the recorded result stays the winner's until an update writes that entry |
| LeaseEffects.OutputEffect | pkg/store/postgres/postgres_lifecycle.go:956-990 | an output starts as its draft says; trace, parent and namespace it leaves open come from the completed agent |
| LeaseEffects.ReleaseEffect | pkg/store/postgres/postgres_lifecycle.go:1072-1160 | a granted release resets the lease fields, bumps the version, logs one event and changes nothing else |
| LeaseEffects.RenewEffect | pkg/store/postgres/postgres_lifecycle.go:1165-1226 | a granted renewal sets the expiry to now plus lease_sec, lease_ms or the default, in that order; no event, no version |
| LeaseEffects.ReapEffect | pkg/store/postgres/postgres_reaper.go:46-80 | exactly the listed leases that ran out before now are reset |
| LeaseEffects.TakeEffect | pkg/store/postgres/postgres_lifecycle.go:205-293 | the first candidate that waits is claimed, with owner, token and lease length as asked, and nothing if none does |
| LeaseEffects.BatchTakeEffect | pkg/store/postgres/postgres_lifecycle.go:1353-1505 | each listed row that waits is claimed once, under the token of its first mention |
| LeaseEffects.SubmitEffect | pkg/store/postgres/postgres_lifecycle.go:22-92 | a submit files the draft as version 1 with namespace column and metadata in step |
| LeaseEffects.UpdateEffect | pkg/store/postgres/postgres_lifecycle.go:669-729 | payload and metadata are merged, tags replaced if given, the lease untouched |
| SqliteStore.Database.Take | pkg/store/sqlite/sqlite_lifecycle.go:105-196 | claims the first candidate still waiting, as the Postgres step does |
| SqliteStore.Database.Complete | pkg/store/sqlite/sqlite_lifecycle.go:287-386 | check-then-write gives the same next state and outcome as the guarded update and its conflict classification, on every row of a store in order |
| SqliteStore.Database.CompleteAndOut | pkg/store/sqlite/sqlite_lifecycle.go:389-537 | the same for completion with outputs, without inheriting the namespace |
| SqliteStore.Database.Release | pkg/store/sqlite/sqlite_lifecycle.go:545-632 | the same for release |
| SqliteStore.Database.Update | pkg/store/sqlite/sqlite_lifecycle.go:216-276 | the same for updates |
| SqliteStore.Database.Reap | pkg/store/sqlite/sqlite_reaper.go:45-143 | finds every overdue lease and has the effect of one reaper step |
| SqliteStore.NeverRejected | pkg/store/postgres/postgres_lifecycle.go:1228-1282 | judged on the state of the refusal itself, the "rejected" fall-throughs are unreachable |
| SqliteStore.InheritanceAgrees | pkg/store/sqlite/sqlite_lifecycle.go:475-500 | both backends store the same output exactly when its namespace is named, not needed, or repeated in its metadata |
| SqliteStore.InheritanceDiffers | pkg/store/sqlite/sqlite_lifecycle.go:475-500 | an output without a namespace goes to its parent's in Postgres and to none in SQLite |
| SqliteStore.OutputsAgree | pkg/store/postgres/postgres_lifecycle.go:956-990 | under that condition completing with outputs is the same step in both |
| DagWalk.GetDag | pkg/store/postgres/postgres_lifecycle.go:1288-1344 | ends on cyclic links too; the nodes are exactly the live agents connected to the root, and each owed edge appears exactly once |
| DagWalk.ReachesAll | pkg/store/postgres/postgres_lifecycle.go:1288-1344 | a set of live nodes closed under links and holding the root holds everything connected to it |
| TopologicalSort.Build | sdk/python/agent_space_sdk/models/dag.py:122-128 | adjacency lists and in-degrees count parallel edges one by one |
| TopologicalSort.Sort | sdk/python/agent_space_sdk/models/dag.py:118-148 | no node twice, sources before targets, nothing left out without a cause; a permutation of the nodes exactly when there is no cycle |
| TopologicalSort.PermutationIffAcyclic | sdk/python/agent_space_sdk/models/dag.py:118-148 | that last equivalence for any output with those properties |
| ShardMerge.GetGlobalEvents | pkg/store/postgressharded/store.go:644-673 | fetching limit+offset per shard, merging and slicing gives the page of all events, if shards use the merge's order or at least hold no event too far back |
| ShardMerge.MergedPageIsGlobal | pkg/store/postgressharded/store.go:644-673 | the same as a law about pages |
| ShardMerge.PageIsNewestFirst | pkg/store/postgressharded/store.go:655-664 | a page lists the newest events first, ties by id |
| ShardMerge.TieShowsWrongEvent | pkg/store/postgres/postgres_events.go:51-84 | shards order by timestamp alone, so with a tie the first page can show the wrong event |
| ShardMerge.PagesExactIffNoneTooFarBack | pkg/store/postgressharded/store.go:644-673 | with distinct event ids every page is right exactly when no event stands further back in its own shard than in the log of all events |
| ShardMerge.OneShardExactIffOrdered | pkg/store/postgressharded/store.go:644-673 | for one shard that means its rows are in the merge's full order |
| ShardQuery.QueryStore | pkg/store/postgres/postgres_query.go:87-120 | one store answers with the accepted rows by (created_at, id), one page of them |
| ShardQuery.FanOutQuery | pkg/store/postgressharded/store.go:420-443 | asking every store without limit, sorting and paging is the answer of one store that holds every row |
| Placement.StoredRoute | pkg/store/valkey/store.go:388-404 | an agent that still has a route after normalisation has the one it was submitted with |
| Placement.NormalizedEffect | pkg/store/valkey/store.go:2028-2049 | normalisation fills in the namespace and the creation, queue and lease times, and touches nothing else |
| Placement.StepKeepsPlacement | pkg/store/valkey/store.go:336-422 | create, update, complete-and-out and every other step keep each routable agent on the shard its hash selects |
| Placement.ReachableIsPlaced | pkg/store/valkey/store.go:1038-1046 | so in every reachable cluster |
| Placement.RoutedQueryIsFanOut | pkg/store/valkey/store.go:803-824 | a query routed to one shard returns what asking every shard would |
| Placement.StepKeepsIds | pkg/store/valkey/store.go:510-517 | submits and outputs with fresh ids keep every id on one shard |
| Placement.FanOutIsOneStore | pkg/store/valkey/store.go:803-824 | asking every shard and merging is asking one store that holds everything |
| Placement.ReachableIsOneStore | pkg/store/valkey/store.go:803-824 | so in every cluster reachable from the empty one, for fan-out and for routed queries |
| Placement.TargetByRemainder | pkg/store/valkey/store.go:336-350 | the home shard is the remainder of the hash |
| Placement.UpdateReachesRecord | pkg/store/valkey/store.go:1038-1050 | an update that names no other queue reaches the record; in a sharded store one that does is refused |
| ShardMap.Map.Normalize | pkg/store/postgressharded/config.go:47-75 | succeeds exactly on usable maps, sorts the trimmed entries by id, and reports a true problem otherwise |
| ShardMap.NormalizedByShardId | pkg/store/postgressharded/config.go:70-74 | a usable map ends up in strictly increasing order of shard ids |
| ShardMap.TargetByRemainder | pkg/store/postgressharded/store.go:155-169 | namespace and queue go to the shard at their hash's remainder, blanks not counting |
| ShardMap.RoutingIgnoresFileOrder | pkg/store/postgressharded/store.go:155-169 | the order of entries in the file affects neither acceptance nor the shard any namespace and queue go to |
| SqlScanner.CountTopLevelStatements | pkg/store/migrations/loader.go:154-243 | the loop ends in bounds and computes the counting function |
| SqlScanner.ScanQuotedString | pkg/store/migrations/loader.go:245-259 | returns the position just past the closing quote, or none |
| SqlScanner.CountIsAdditive | pkg/store/migrations/loader.go:154-243 | count(s1 + ";" + s2) = count(s1) + count(s2) whenever both scan |
| SqlLaws.LineCommentInvisible | pkg/store/migrations/loader.go:192-194 | a line comment with its line break is invisible |
| SqlLaws.LineCommentNeedsNewline | pkg/store/migrations/loader.go:236-238 | a line comment the text ends in is an error |
| SqlLaws.BlockCommentInvisible | pkg/store/migrations/loader.go:169-182 | a block comment with all its nested comments is invisible |
| SqlLaws.BlockCommentNeedsClosing | pkg/store/migrations/loader.go:236-238 | an open block comment is an error |
| SqlLaws.BlankInvisible | pkg/store/migrations/loader.go:228-232 | white space is invisible |
| SqlLaws.WordsAreOneStatement | pkg/store/migrations/loader.go:228-242 | text without quotes, dollars, semicolons or comments is one statement, or none if it is blank |
| SqlLaws.DollarQuotedIsOneStatement | pkg/store/migrations/loader.go:183-220 | a dollar-quoted body is one statement whatever it holds short of its own tag |
| SqlLaws.DollarQuoteNeedsClosing | pkg/store/migrations/loader.go:236-238 | an open dollar quote is an error |
| SqlLaws.LoneDollarIsContent | pkg/store/migrations/loader.go:212-221 | a dollar sign that starts no quote is content |
| SqlLaws.QuoteNeedsClosing | pkg/store/migrations/loader.go:245-259 | an open quote is an error |
| SqlLaws.InvisibleBetweenStatements | pkg/store/migrations/loader.go:154-243 | what is invisible at the start is invisible behind any complete statement |
| SqlScanner.QuotedScansExactly | pkg/store/postgres/postgres_notify.go:73-79 | a quoted value scans to exactly its own closing quote if and only if no quote follows |
| SqlScanner.QuotedIsOneStatement | pkg/store/postgres/postgres_notify.go:73-79 | whatever the value, its quoted form is one complete statement to the scanner |
| WhereText.ShiftRendered | pkg/store/postgres/postgres_query.go:290-302 | renumbering the text is renumbering the clauses |
| WhereText.ParseRender | pkg/store/postgres/postgres_query.go:266 | the joined text reads back as exactly the clauses put into it |
| WhereBuilder.ShiftKeepsMeaning | pkg/store/postgres/postgres_query.go:290-302 | after the shift the text means under the concatenated arguments what it meant under its own |
| WhereBuilder.BuildWhere | pkg/store/postgres/postgres_query.go:195-267 | for any metadata order the text selects exactly the live rows the query accepts; a nil query selects all live rows |
| WhereBuilder.HeadClausesHold | pkg/store/postgres/postgres_query.go:269-288 | the head clause selects the live NEW rows of the namespace and the trimmed queue |
| StrictTake.TakeStrictQueueHead | pkg/store/postgres/postgres_lifecycle.go:394-492 | claims the oldest row the head clause selects if the lock is free and the whole query accepts it, else changes nothing |
| StrictTake.ClaimIsOldest | pkg/store/postgres/postgres_lifecycle.go:394-492 | whatever is claimed is the oldest live NEW row of the named queue and namespace |
| StrictTake.NeverMissesIffTrimmed | pkg/store/postgres/postgres_query.go:279-284 | in every store a run can lead to, a matching oldest row is found exactly when the queue's name is trimmed or no waiting row could match at all |
| StrictTake.PaddedQueueMisses | pkg/store/postgres/postgres_query.go:279-284 | otherwise two submits lead to a store where the take passes over it |
| RateLimiter.Limiter.Ask | internal/api/security_middleware.go:52-113 | the answer, the new counter and the Retry-After seconds of one request |
| RateLimiter.Limiter.Prune | internal/api/security_middleware.go:39-50 | drops exactly the counters at least two configured windows old |
| RateLimiter.Limiter.Serve | internal/api/security_middleware.go:29-116 | a run over all clients gives each client the answers of the run's definition |
| RateLimiter.ClientsAreIsolated | internal/api/security_middleware.go:78-110 | a client's answers depend on its own requests and the sweeps alone |
| RateLimiter.OwnLimitsApply | internal/api/security_middleware.go:61-76 | a client gets its own limit and window where they are set, the configured ones otherwise |
| RateLimiter.NoSweepMattersIff | internal/api/security_middleware.go:39-50 | pruning never changes an answer exactly when the client's window is at most two configured ones |
| RateLimiter.AtMostLimitPerWindow | internal/api/security_middleware.go:84-110 | at most the limit gets through in a window |
| RateLimiter.ClientBound | internal/api/security_middleware.go:84-110 | at most 2L - 1 requests of a client get through in any half-open interval one window long, whatever others do |
| RateLimiter.BoundIsReached | internal/api/security_middleware.go:84-110 | and that many can |
| RateLimiter.RetryAfterIsEnoughIff | internal/api/security_middleware.go:91-106 | a refused client that waits as told is let through exactly when the wait needed no rounding down |
| RateLimiter.RetryAfterTooSoon | internal/api/security_middleware.go:91-106 | a client that waits the advertised second and is refused again |

## Left out

- ValkeyFifo.ReachableFirstInFirstOut: an agent may bring its own queue_created_ms and is then ranked by it, which LaterQueueTimeWaits covers; an update that moves the creation time is excluded because the API has none.
- ValkeyFencing.Fenced: an update's read and write are one step, as the API layer keeps status and owner out of updates.
- HTTP handlers, authentication, CORS, metrics, SDK clients, configuration parsing and telemetry: no deep state.
- SQL engines, JSON, the Valkey client, UUIDs, clocks and the FNV hash: steps, data types, a fresh supply, integers and a hash parameter stand for them.
- Wakeup channels, LISTEN/NOTIFY and deferred event queues: events are written with their step.
- Event streams of the Valkey store, their trimming, and span records: only key names are modelled.
- Numbers read by the Lua scripts are decimal integers with an optional sign; Lua's other numeral forms are not modelled.
- Time stamps in metadata stand as decimal numbers, not as RFC 3339 text; a zero creation time is not told apart.
- Trimming knows the Latin-1 white space only.
- Equality of lease lengths when lease_sec and lease_ms are both set: the Go and Lua code disagree on precedence, and the model keeps each side's own.
- The Valkey update guard looks at string-valued metadata only; other metadata types are not modelled.
- The Postgres batch take writes its events after the claims; both are one step here.
- SKIP LOCKED and prefetch: any list of candidates may be offered to a take, any list of ids to the reaper.
- A prefetched take need not match the query, so it is only part of the fencing results.
- The parallel take's choice among several matching rows: the candidates are a parameter.
- SQLite's renew and its lease-length parsing: the two backends differ there.
- Sharded QueryEvents paging and Valkey QueryEvents totals: the offset is applied twice and totals count a prefix.
- The list of agents returned by a Valkey batch take that ends at a head it does not want.
- Bypasses of the rate limiter (non-mutating requests) and the derivation of client keys.
- Placeholder numbers are unbounded; the source's parse failure and wrap-around above 64 bits are not modelled.
- ValkeyLaws.BatchTokensDistinct: states distinctness inside one batch; tokens of different batches differ by the caller's random prefix.
- LeaseRenewal.PunctualHolderKeepsLease: assumes nobody edits the agent's lease length meanwhile, and one clock for all steps.
- Placement.StoredRoute: a namespace column of blanks overwrites the metadata entry the agent was routed by, so the stored agent has no route; it answers only to queries for the blank namespace, and those are fanned out.
- SqliteStore.Database.Complete: equality needs the namespace column and its metadata copy in step, which every reachable store has and an arbitrary row need not.
- SqliteStore.Database.Release: the same.
- ShardQuery.FanOutQuery: that no id is on two Postgres shards is assumed; ids come from the fresh supply.
- The Postgres router's own placement: its context-bound update skips the queue guard.
