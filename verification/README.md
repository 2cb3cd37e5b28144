# TFT match-fetch queue, in Dafny

This project models the core of the TFT statistics site (umsun1/TFT).

**The batch side.** The batch worker keeps a persistent work queue of rows
`(num, id, type, status, priority, updatedAt)`. Each tick of `fetchNext`
does three things:

- it claims the best READY row, taking the highest priority first and the smallest row number on ties;
- it processes every FETCHING row, oldest `updatedAt` first;
- it moves each processed row to DONE, READY or FAIL, depending on whether its handler returned, was rate-limited or threw.

There are three handlers:

- a SUMMONER_ID row resolves to a puuid;
- a SUMMONER row pages through the match list and expands it into MATCH rows;
- a MATCH row fetches the match detail.

**The web side.** The web site decides a few things with integer rules:

- a graph score for a tier;
- a placement histogram and two badges;
- reopening of the viewed summoner's queue row;
- the choice of league entry;
- ranking-list assembly;
- the counting and window queries over participants.

The standing-history rule appears three times in the source: write a new LP record only when there is none yet, or when LP or tier changed. It is defined once, as `Standing.RecordStanding`.

**Modules:**

- `Wrappers`: `Option` and `ApiResult`. `ApiResult` is Ok, RateLimited with an optional Retry-After, or Failed.
- `FetchQueue`: the queue record, the type and status tags, and the `mark*` transitions.
- `QueueStore`: the table of rows keyed by number, the repository lookups, `pickNext` and `findFetchingAll`.
- `Sorting`: an insertion sort used for the two ORDER BY clauses. Its contract states sortedness and permutation. That it keeps the input order of ties is a property of the definition and is not proved.
- `Standing`: the LP history and the write-on-change rule.
- `MatchFetch`: the handlers, `processTask`, `updateStatus` and `fetchNext`, over a `World`. The `World` holds the queue, the saved game ids, the saved match details and the LP history.
- `LpUpdate`: the batch LP refresh.
- `SummonerService`: the web service's integer rules.
- `ParticipantQueries`: the repository queries as specification functions.
- `Ranking`: the ranking page.

**What is passed in rather than modelled.** The Riot API is an `Api` value of functions, one per endpoint. The clock is a `now` parameter. Sleeps come back as delays in milliseconds. The tactician-image lookup is a function parameter.

**Two facts about the code that the model keeps:**

- Expansion has no priority-raising branch. A listed id that is already queued keeps its priority.
- The `mark*` methods and the claim query leave `updatedAt` unchanged. Only the batch inserts and reviving a FAIL row during expansion set it to `now`. The inserts are the new SUMMONER row of `processSummonerId` (MatchFetchService.java:101) and the new MATCH rows (MatchFetchService.java:179). The revival is at MatchFetchService.java:166-167.

## Model

| member | source | states |
|---|---|---|
| FetchQueue.ParseType | batch/src/main/java/com/tft/batch/service/MatchFetchService.java:50-56 | The tags "SUMMONER", "MATCH" and "SUMMONER_ID" select their handlers; any other tag is kept as an unrecognised type. |
| FetchQueue.TagRoundTrip | batch/src/main/java/com/tft/batch/service/MatchFetchService.java:50-56 | Parsing a stored tag and writing it back gives the same column string. |
| FetchQueue.MarkProcessing | batch/src/main/java/com/tft/batch/model/entity/MatchFetchQueue.java:36-38 | The status becomes FETCHING. Num, id, type, priority and updatedAt are unchanged. |
| FetchQueue.MarkDone | batch/src/main/java/com/tft/batch/model/entity/MatchFetchQueue.java:40-42 | The status becomes DONE. Every other field is unchanged. |
| FetchQueue.MarkFail | batch/src/main/java/com/tft/batch/model/entity/MatchFetchQueue.java:44-46 | The status becomes FAIL. Every other field is unchanged. |
| FetchQueue.MarkReady | batch/src/main/java/com/tft/batch/model/entity/MatchFetchQueue.java:48-50 | The status becomes READY. Every other field is unchanged. |
| FetchQueue.MarkIdempotent | batch/src/main/java/com/tft/batch/model/entity/MatchFetchQueue.java:36-50 | Applying any mark twice equals applying it once. |
| QueueStore.FindWhere | batch/src/main/java/com/tft/batch/repository/MatchFetchQueueRepository.java:16 | A lookup is Absent iff no row matches. It is Unique(row) iff exactly that row matches. It is Ambiguous (the repository throws) iff two rows match. |
| QueueStore.FindById | batch/src/main/java/com/tft/batch/repository/MatchFetchQueueRepository.java:14-16 | `findByMfqId` and `existsByMfqId` match on the id alone, whatever the type. |
| QueueStore.UniqueIdsLookup | batch/src/main/java/com/tft/batch/repository/MatchFetchQueueRepository.java:14-16 | When ids are unique, the lookup by id never finds two rows, so it never throws. |
| QueueStore.InsertFreshKeepsUniqueIds | batch/src/main/java/com/tft/batch/service/MatchFetchService.java:95-103 | Inserting an id that no row has keeps ids unique. |
| QueueStore.BestReadyUnique | batch/src/main/java/com/tft/batch/repository/MatchFetchQueueRepository.java:24-26 | The ordering `priority DESC, mfq_num` has at most one best READY row. |
| QueueStore.BestReadyBelow | batch/src/main/java/com/tft/batch/repository/MatchFetchQueueRepository.java:22-26 | The scan finds the READY row with the highest priority, the smallest number on ties, or nothing when no row is READY. |
| QueueStore.PickNext | batch/src/main/java/com/tft/batch/repository/MatchFetchQueueRepository.java:18-30 | The claim changes at most one row. It returns 0 exactly when no row is READY, and then changes nothing. Otherwise only the best READY row changes, and only its status, to FETCHING. |
| QueueStore.UpdatedOrderIsTotalPreorder | batch/src/main/java/com/tft/batch/repository/MatchFetchQueueRepository.java:36 | `updatedAt ASC` with NULL first is a total preorder. |
| QueueStore.FindFetchingAll | batch/src/main/java/com/tft/batch/repository/MatchFetchQueueRepository.java:32-38 | The result holds exactly the FETCHING rows, each once, sorted by `updatedAt` ascending. |
| Standing.LatestRecord | web/src/main/java/com/tft/web/service/SummonerServiceImp.java:169 | The newest record of a puuid, or none when the puuid has no record. |
| Standing.RecordStanding | web/src/main/java/com/tft/web/service/SummonerServiceImp.java:168-177 | A record with the league's tier, rank and LP is appended iff there is no previous record or LP or tier differs. Otherwise the history is unchanged. |
| Standing.StandingCurrentAfterRecord | batch/src/main/java/com/tft/batch/service/LpUpdateService.java:50-70 | After recording, the puuid's latest record has the league's LP and tier. |
| Standing.RecordStandingIdempotent | batch/src/main/java/com/tft/batch/service/LpUpdateService.java:46-71 | Recording the same league twice appends at most one record. |
| Standing.RankChangeAloneWritesNothing | web/src/main/java/com/tft/web/service/SummonerServiceImp.java:170 | When LP and tier both match the last record, a change of rank alone writes nothing. |
| Standing.OtherPuuidsUntouched | batch/src/main/java/com/tft/batch/service/LpUpdateService.java:61-70 | Recording for one puuid leaves every other puuid's latest record unchanged. |
| MatchFetch.Paginate | batch/src/main/java/com/tft/batch/service/MatchFetchService.java:136-149 | The offsets requested are start, start+100, start+200, and so on. Every page but the last is a full page of 100 ids. The last page is short, empty or null. A rate limit or error on any page ends the listing with that outcome. Otherwise the ids are the pages concatenated in order. |
| MatchFetch.ExpandOne | batch/src/main/java/com/tft/batch/service/MatchFetchService.java:153-181 | For a saved id nothing is written. A queued FAIL row becomes READY with the time refreshed and its priority kept. A queued row in another status is untouched. An absent id gets a new READY MATCH row at the parent's priority minus one. Two queued rows for the id make the lookup throw. |
| MatchFetch.Expand | batch/src/main/java/com/tft/batch/service/MatchFetchService.java:153-182 | Expansion keeps every entry's id, type and priority, and only revives FAIL rows. A row changes only when its id is listed and not saved. When it completes, every listed id is saved or queued, and every listed, unsaved FAIL row is revived. New rows are READY MATCH rows for ids that had none, even when the listing repeats an id. Unique ids stay unique, and then expansion always completes. |
| MatchFetch.ProcessMatch | batch/src/main/java/com/tft/batch/service/MatchFetchService.java:185-192 | The handler returns normally iff the detail call succeeds and the saver accepts a present detail. A null detail saves nothing and is not an error. An exception from the saver, a rate limit or an error propagates, and then nothing is saved. |
| MatchFetch.RefreshStanding | batch/src/main/java/com/tft/batch/service/MatchFetchService.java:105-128 | Only a present league entry can write a record, under the write-on-change rule. A rate limit or error writes nothing and is swallowed. |
| MatchFetch.ProcessSummonerId | batch/src/main/java/com/tft/batch/service/MatchFetchService.java:87-130 | A resolved puuid gets a SUMMONER row at the parent's priority only when no row has that id. Its standing is refreshed. The handler then returns normally whatever the standing step did. |
| MatchFetch.ProcessSummoner | batch/src/main/java/com/tft/batch/service/MatchFetchService.java:132-183 | A listing that ends in a rate limit or error leaves the world unchanged and passes the outcome on. Otherwise the listed ids are expanded at the parent's priority. |
| MatchFetch.Dispatch | batch/src/main/java/com/tft/batch/service/MatchFetchService.java:48-56 | A row with an unrecognised type does nothing and returns normally. |
| MatchFetch.DispatchKeeps | batch/src/main/java/com/tft/batch/service/MatchFetchService.java:48-56 | No handler changes an entry's id, type or priority. Handlers only revive FAIL rows and only add READY rows. They never change the saved game ids, and keep unique ids unique. Only a SUMMONER row whose listing succeeded changes existing rows, and only those whose id it listed and that are not saved. |
| MatchFetch.DispatchAddsFreshIds | batch/src/main/java/com/tft/batch/service/MatchFetchService.java:48-56 | No handler adds a row whose id another row already has, even when the queue's ids were not unique before. |
| MatchFetch.UpdateStatus | batch/src/main/java/com/tft/batch/service/MatchFetchService.java:78-85 | Only the numbered row gets the transition. A missing number changes nothing. |
| MatchFetch.StatusAfter | batch/src/main/java/com/tft/batch/service/MatchFetchService.java:57-75 | A normal return gives DONE, a rate limit gives READY, any other exception gives FAIL. Never FETCHING. |
| MatchFetch.BackoffMillis | batch/src/main/java/com/tft/batch/service/MatchFetchService.java:61-68 | The sleep is (w + 1) * 1000 ms, where w is the Retry-After value, or 10 when the header is absent. |
| MatchFetch.BackoffFollowsHeader | batch/src/main/java/com/tft/batch/service/MatchFetchService.java:62-68 | A longer Retry-After never gives a shorter sleep, in both directions. A missing header sleeps 11 seconds, the same as a header of 10. |
| MatchFetch.ProcessTask | batch/src/main/java/com/tft/batch/service/MatchFetchService.java:48-76 | The task row ends DONE, READY or FAIL according to how its handler ended. A sleep is taken iff it was rate-limited. A READY row keeps its priority. No other non-FAIL row changes. No row becomes FETCHING, and ids stay unique. |
| MatchFetch.ProcessTaskFrame | batch/src/main/java/com/tft/batch/service/MatchFetchService.java:48-76 | Besides the task's own row, only FAIL rows change. They change only when the task is a SUMMONER row whose listing succeeded and named the row's id, and the id is not saved. |
| MatchFetch.Drain | batch/src/main/java/com/tft/batch/service/MatchFetchService.java:43-45 | Processing every task in turn keeps all entries and unique ids. It sleeps at most once per task, at least one second each time. |
| MatchFetch.DrainClearsFetching | batch/src/main/java/com/tft/batch/service/MatchFetchService.java:39-45 | When every FETCHING row is in the list processed, no row is FETCHING afterwards, whatever the handlers did. A failure does not stop the loop. |
| MatchFetch.DrainKeepsDone | batch/src/main/java/com/tft/batch/service/MatchFetchService.java:39-45 | Processing distinct FETCHING rows never touches a DONE row. |
| MatchFetch.ClaimFacts | batch/src/main/java/com/tft/batch/repository/MatchFetchQueueRepository.java:18-38 | After a claim, every FETCHING row is among the rows `findFetchingAll` returns. The claim leaves entries, DONE rows and unique ids intact. |
| MatchFetch.FetchNext | batch/src/main/java/com/tft/batch/service/MatchFetchService.java:33-46 | With no READY row the tick changes nothing. Otherwise no row is FETCHING at the end, covering the new claim and any leftovers. DONE rows and entries are intact, and unique ids stay unique. |
| LpUpdate.ProcessPuuid | batch/src/main/java/com/tft/batch/service/LpUpdateService.java:41-73 | A null league writes nothing. With no previous record one is always written. Otherwise a record is written iff LP or tier differs. The record carries the league's tier, rank and LP. |
| LpUpdate.ProcessPuuidTwice | batch/src/main/java/com/tft/batch/service/LpUpdateService.java:46-71 | Processing the same league result twice appends at most one record. |
| LpUpdate.UpdateActiveSummonersLp | batch/src/main/java/com/tft/batch/service/LpUpdateService.java:23-39 | The old history is kept as a prefix. Every appended record belongs to a listed puuid. |
| LpUpdate.UpdateReachesEveryPuuid | batch/src/main/java/com/tft/batch/service/LpUpdateService.java:31-38 | A failure for one puuid does not stop the rest. Every listed puuid whose league is present ends with a current latest record. |
| LpUpdate.UpdateLeavesOthers | batch/src/main/java/com/tft/batch/service/LpUpdateService.java:31-38 | Puuids not in the list keep their latest record. |
| LpUpdate.AllFailuresWriteNothing | batch/src/main/java/com/tft/batch/service/LpUpdateService.java:31-38 | When every call fails or returns null, the history is unchanged. |
| SummonerService.ConvertTierToTotalLp | web/src/main/java/com/tft/web/service/SummonerServiceImp.java:254-289 | A null tier scores 0. |
| SummonerService.ApexScore | web/src/main/java/com/tft/web/service/SummonerServiceImp.java:266-275 | MASTER, GRANDMASTER and CHALLENGER score 2800 + LP, whatever the rank. |
| SummonerService.LadderScore | web/src/main/java/com/tft/web/service/SummonerServiceImp.java:258-288 | Below MASTER the score is 400 per tier step from IRON, plus 100 per division step from IV, plus LP. |
| SummonerService.ScoreFollowsLadder | web/src/main/java/com/tft/web/service/SummonerServiceImp.java:258-288 | With LP in 0..99, one score is below another exactly when the tier is lower, or the division is lower in the same tier, or LP is lower in the same division. |
| SummonerService.ApexAboveLadder | web/src/main/java/com/tft/web/service/SummonerServiceImp.java:266-288 | An apex score with non-negative LP is above every score below MASTER with LP in 0..99. |
| SummonerService.UnknownTierScoresAsIron | web/src/main/java/com/tft/web/service/SummonerServiceImp.java:258-270 | A tier outside the switch scores like IRON for any rank, null included. With division d it scores 100·d + LP. |
| SummonerService.UnknownRankScoresAsFour | web/src/main/java/com/tft/web/service/SummonerServiceImp.java:277-288 | Below MASTER, a null rank or one outside IV..I adds nothing. The score is 400·tier step + LP, the same as rank IV. |
| SummonerService.IntegerAchievements | web/src/main/java/com/tft/web/service/SummonerServiceImp.java:180-216 | `rankCounts[i]` is the number of placements equal to i+1; other placements are not counted. The streak badge is given iff there are at least three matches and the first three placements are all 4 or better. The first-place collector badge is given iff at least four placements are 1. |
| SummonerService.UpdateFetchQueue | web/src/main/java/com/tft/web/service/SummonerServiceImp.java:149-166 | A SUMMONER row for the puuid that is not FETCHING, DONE included, becomes READY at priority 999. A FETCHING row is untouched. With no such row, a READY SUMMONER row at 999 is inserted. Two such rows make the lookup throw. Nothing else changes. |
| SummonerService.UpdateFetchQueueIdempotent | web/src/main/java/com/tft/web/service/SummonerServiceImp.java:149-166 | Viewing a profile twice leaves the queue as viewing it once. |
| SummonerService.FirstRanked | web/src/main/java/com/tft/web/service/SummonerServiceImp.java:333-335 | The position of the first RANKED_TFT entry. No earlier entry is RANKED_TFT, and there is none iff no entry is. |
| SummonerService.SelectLeague | web/src/main/java/com/tft/web/service/SummonerServiceImp.java:329-336 | A null or empty list gives nothing. Otherwise the result is the first RANKED_TFT entry, or the first entry when none is RANKED_TFT. |
| SummonerService.GetTftLeagueByPuuid | web/src/main/java/com/tft/web/service/SummonerServiceImp.java:312-343 | A rate limit is caught and gives no league. Any other failure propagates. |
| ParticipantQueries.Matching | web/src/main/java/com/tft/web/repository/ParticipantRepository.java:42-43 | Queue id 0 keeps every queue; any other value keeps only that queue. Each selected row is kept as often as it occurs. |
| ParticipantQueries.SummonerStats | web/src/main/java/com/tft/web/repository/ParticipantRepository.java:37-44 | totalCount is the number of selected rows, and winCount ≤ top4Count ≤ totalCount. |
| ParticipantQueries.StatsCountSelectedRows | web/src/main/java/com/tft/web/repository/ParticipantRepository.java:38-41 | winCount counts selected rows placed 1. top4Count counts those placed 4 or better. totalCount counts all selected rows. |
| ParticipantQueries.OneQueueCountsNoMore | web/src/main/java/com/tft/web/repository/ParticipantRepository.java:43 | Each count for one queue is at most the count over all queues. |
| ParticipantQueries.NewestPage | web/src/main/java/com/tft/web/repository/ParticipantRepository.java:46-47 | A page of the sorted selection is newest first, and every row left out is no newer than any row on it. |
| ParticipantQueries.RecentMatches | web/src/main/java/com/tft/web/repository/ParticipantRepository.java:46-47 | The page holds only the puuid's rows in the queue, game time descending. It has min(size, matches) rows drawn from the selection, and they are the newest ones. |
| ParticipantQueries.LatestFor | web/src/main/java/com/tft/web/repository/ParticipantRepository.java:49-58 | The row numbered 1 in the puuid's window: a row of that puuid with the largest game number, or none when the puuid has no row. |
| ParticipantQueries.LatestParticipantsByPuuids | web/src/main/java/com/tft/web/repository/ParticipantRepository.java:49-59 | At most one row per puuid, only for listed puuids, each the latest. Every listed puuid with a row appears. |
| ParticipantQueries.LatestIgnoresUnlistedRows | web/src/main/java/com/tft/web/repository/ParticipantRepository.java:55 | Rows of puuids not asked for do not change the result, wherever they appear in the table. |
| Ranking.FirstWins | web/src/main/java/com/tft/web/controller/RankingController.java:45-50 | The map has a key for exactly the puuids present. Each value is a participant of that puuid. |
| Ranking.FirstWinsPicksFirst | web/src/main/java/com/tft/web/controller/RankingController.java:45-50 | When several participants share a puuid, the first one listed wins. |
| Ranking.RankingList | web/src/main/java/com/tft/web/controller/RankingController.java:31-78 | There is one entry per history, in order, ranked 1..n, so empty histories give an empty list. Tier and LP are copied. A puuid with no participant gets "Unknown", "KR1" and the tactician-1 icon. A found participant gives its name and tag, and a null companion gives the default icon. |
| Ranking.RankingPage | web/src/main/java/com/tft/web/controller/RankingController.java:27-82 | Composed with the latest-participant query, every ranked puuid with any participant row shows the name, tag and tactician icon of its row with the largest game number. The others show the defaults. |

## Left out

- HTTP clients: the Riot API is an `Api` value whose endpoints return `Ok`, `RateLimited(retryAfter)` or `Failed`. Each endpoint is a function of its arguments.
- The account and summoner lookups by HTTP are not modelled: `getAccountByRiotId` and `getTftSummonerByPuuid`.
- The rest of the profile assembly in `getSummonerData` is not modelled, because it is DTO copying.
- Concurrency and caches: the `CompletableFuture`s and caches of `getSummonerData` are left out. One worker is modelled, so the atomicity of the claim is the database's concern.
- Transactions: the `REQUIRES_NEW` methods are called through `this`, so no new transaction starts. Every write is an immediate state update, and rollback is not modelled.
- `Thread.sleep` is returned as a delay in milliseconds; interruption is not modelled.
- MatchFetch.BackoffMillis: Retry-After is an `Option<nat>`. A non-numeric header makes `parseInt` throw out of `processTask`. A header of -1 gives a one-second-shorter sleep than 0. A header of -2 or less gives a negative sleep, and `Thread.sleep` then throws out of `processTask` too. None of these is modelled.
- MatchFetch.Expand: priorities are unbounded integers. The Java `int` wrap-around of `priority - 1` at the minimum value is not modelled.
- MatchFetch.ProcessMatch: the saver is not part of this model. Its success or exception is an input, and a successful save appends the payload to `savedDetails`. The saved game ids do not grow, and a failed save is taken to leave nothing saved.
- MatchFetch.Paginate: termination rests on the listing ending. The `Api` names a page count beyond which no page is full, and an endless run of full pages is not modelled.
- MatchFetch.FetchNext: the whole tick uses one clock value `now`. `updatedAt` is an integer, or none for rows inserted without one; NULL sorts first, as in MySQL.
- QueueStore.FindFetchingAll: SQL leaves the order of rows with equal `updatedAt` unspecified. The model's sort is given the rows in row-number order. Which order it gives ties is left unproved, so no contract promises a tie order.
- Standing.RecordStanding: tiers are non-null strings. A previous record with a null tier, which makes `getTier().equals` throw, is not modelled.
- The web-side `saveLpHistory` and the batch writes share `Standing.RecordStanding`; the creation time is a parameter.
- Standing.LatestRecord: the source orders by `createdAt` descending. The model takes the last appended record of the puuid, which assumes every record is dated and the clock never goes back. The web-side record is built without `createdAt` (SummonerServiceImp.java:171-176). If the table does not fill it in, that NULL would sort last in MySQL and the record would never be the newest. The web entity is not part of this model.
- LpUpdate.UpdateActiveSummonersLp: the puuid list is a parameter. The query choosing puuids with a record in the last 24 hours (LpUpdateService.java:26-27) is not modelled.
- SummonerService.UpdateFetchQueue: the web entity is not part of this model. A reopened row keeps its `updatedAt`, and an inserted row has none.
- SummonerService.IntegerAchievements: some statistics and badges use floating point and are left out: the recent average, win rate and top-4 rate, the top-4 badge, and the 3-star, high-value and level-9 badges.
- `getAveragePlacement` and `getWinStatistics` are left out because they use floating point.
- ParticipantQueries.SummonerStats: the SQL `AVG` is left out. Over no rows, SQL's `SUM` gives NULL where the model gives 0. The caller reads the sums only when the count is positive.
- ParticipantQueries.LatestFor: ROW_NUMBER over equal game numbers picks an unspecified row. The model takes the first in table order.
- ParticipantQueries.LatestParticipantsByPuuids: the native query's result order is unspecified. The model lists puuids in the order they were first asked for.
- Schedulers, the static-data service (only its tactician-image lookup, as a function parameter), date formatting of the LP graph and the game-info repository (reduced to a set of saved ids) are outside the core.
