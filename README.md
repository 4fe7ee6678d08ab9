# Timer Rush score service, modelled in Dafny

Timer Rush is a reaction-timing game: a player is shown a target time, stops a
timer, and the client computes how far off they were (`difference`) and an
`accuracy` percentage. The backend stores each attempt and serves a top-10
leaderboard per event category ("cs" or "it"), ordered by accuracy descending
and then difference ascending.

This project models:

- the stored score record and its schema (`score_model.dfy`, module
  `ScoreModel`). The record has required fields. `event` must be "cs" or "it"
  and defaults to "cs". `name` is trimmed the way JavaScript's `trim` trims.
  `playedAt` is filled from the clock. Validation either yields the record or
  the set of failing paths.
- the leaderboard order and the top-N selection that the handler asks the
  database for (`ranking.dfy`, module `Ranking`). The selection filters by
  event, puts records in lexicographic order (accuracy descending, difference
  ascending) and cuts to N. The order is proved total and transitive. The
  sort is proved sorted and a permutation. The top N are proved to be sorted,
  drawn from the event's records, complete when there are at most N, and
  never outranked by a record left out.
- the two request handlers and the store they share (`timer_controller.dfy`,
  module `TimerController`). The pure functions `SetScoreReply` and
  `LeaderboardReply` state each handler's reply. The class `ScoreStore` holds
  the records in a `seq` field. Its `SetScore` method validates, then appends
  exactly one record, and is proved against `SetScoreReply`. Its
  `GetLeaderboard` method has no `modifies` clause, so it cannot change the
  store, and is proved against `LeaderboardReply`. The store's invariant is
  that every stored record is valid under the schema.
- the shared client types (`game_types.dfy`, module `GameTypes`): the five
  game states, the `PlayerResult` record and the `RANKS` band table. For the
  table, a general proof shows that any contiguous table of non-empty bands
  with an open top covers every value from its first lower bound, with no
  value in two bands. `RANKS` is proved to be such a table, starting at 0.

Numbers are `real`. No arithmetic happens on them in these files, only
comparison and copying. The `Infinity` upper bound of the last band is the
constructor `Bound.Unbounded`. The clock reading (`Date.now`) is the
parameter `now`. A database operation that fails is the parameter
`storeFails`, which leads to the 500 reply and leaves the store unchanged.

The controller accepts a name of white space only, such as `"   "`, because
it is a non-empty string. The schema then trims it to `""`, and its
`required` validator rejects an empty string. So the save fails and the
reply is a 500 "Server error.", not a 400 (`BlankNameIsServerError`). The
same happens when `target` or `actual` is absent: the controller does not
check them, but the schema requires them.

## Model

| member | source | states |
|---|---|---|
| `GameTypes.GameStatesAreFive` | frontend/src/types.ts:1-6 | the game state type has exactly five values: nameEntry, targetDisplay, timerVisible, timerHidden, results, each listed once |
| `GameTypes.RankTitlesInOrder` | frontend/src/types.ts:23-30 | RANKS has six bands in the order TIME LORD, MASTER, EXPERT, SKILLED, NOVICE, BEGINNER, with pairwise distinct titles |
| `GameTypes.RanksWellFormed` | frontend/src/types.ts:24-29 | the first band starts at 0; each band's maxDiff is the next band's minDiff; every band has minDiff below maxDiff; the last band has no upper bound |
| `GameTypes.EndNotAfterLaterStart` | frontend/src/types.ts:24-29 | in a contiguous table of non-empty bands, a band's upper bound is finite and no larger than any later band's lower bound |
| `GameTypes.LowerBoundsIncrease` | frontend/src/types.ts:24-29 | in such a table the lower bounds strictly increase |
| `GameTypes.Covers` | frontend/src/types.ts:24-29 | a contiguous table with an open top has a band holding every value at or above its first lower bound |
| `GameTypes.BandsDisjoint` | frontend/src/types.ts:24-29 | in a contiguous table of non-empty bands, a value lies in at most one band |
| `GameTypes.EveryDifferenceHasOneBand` | frontend/src/types.ts:23-30 | every non-negative difference lies in exactly one band of RANKS |
| `ScoreModel.TrimStart` | backend/models/score.model.js:8 | the result is a suffix of the input, everything dropped is white space, and it does not start with white space |
| `ScoreModel.TrimEnd` | backend/models/score.model.js:8 | the result is a prefix of the input, everything dropped is white space, and it does not end with white space |
| `ScoreModel.Trim` | backend/models/score.model.js:8 | the trimmed name is a slice of the input with only white space outside it, and has no white space at either end |
| `ScoreModel.TrimKeepsTrimmed` | backend/models/score.model.js:8 | trimming a name without surrounding white space leaves it unchanged |
| `ScoreModel.TrimIdempotent` | backend/models/score.model.js:8 | trimming twice gives the same name as trimming once |
| `ScoreModel.Cast` | backend/models/score.model.js:4-37 | a created document has the name trimmed, event defaulted to "cs" when absent, playedAt defaulted to the clock when absent, and the numbers copied |
| `ScoreModel.FailingPaths` | backend/models/score.model.js:5-32 | a path fails exactly when its required value is absent (or, for the name, empty), or when the event is outside {"cs", "it"} |
| `ScoreModel.NewScore` | backend/models/score.model.js:4-37 | a document validates exactly when the trimmed name is non-empty, target, actual, difference and accuracy are present and the event is allowed or absent; the record is then valid, copies the numbers, and carries the defaulted event and playedAt; otherwise the error names the non-empty set of failing paths |
| `Ranking.OrderFacts` | backend/controllers/timer.controller.js:48 | the leaderboard order is total and transitive, and "must be listed ahead" is the negation of "ranks at least as high" the other way round |
| `Ranking.SortedAdjacent` | backend/controllers/timer.controller.js:48 | in a sorted sequence each accuracy is higher than the next, or equal with a difference no larger |
| `Ranking.AdjacentSorted` | backend/controllers/timer.controller.js:48 | adjacent pairs in order make the whole sequence sorted |
| `Ranking.SortedPlacesBetterFirst` | backend/controllers/timer.controller.js:48 | in a sorted sequence, a record with the same accuracy and a smaller difference (or higher accuracy) comes first |
| `Ranking.Insert` | backend/controllers/timer.controller.js:48 | inserting adds exactly the one record to the multiset |
| `Ranking.InsertSorted` | backend/controllers/timer.controller.js:48 | inserting into a sorted sequence keeps it sorted |
| `Ranking.Sort` | backend/controllers/timer.controller.js:48 | the sorted sequence is a permutation of the input |
| `Ranking.SortSorted` | backend/controllers/timer.controller.js:48 | the sorted sequence is in leaderboard order |
| `Ranking.ForEvent` | backend/controllers/timer.controller.js:47 | every record selected for an event has that event |
| `Ranking.ForEventCounts` | backend/controllers/timer.controller.js:47 | the event's records are exactly the stored records of that event, with their multiplicities |
| `Ranking.ForEventAppend` | backend/controllers/timer.controller.js:47 | appending a record extends the event's records by it only when it has that event |
| `Ranking.SortedPrefix` | backend/controllers/timer.controller.js:48-49 | a prefix of a sorted sequence is sorted and drawn from it, and nothing left out must be listed ahead of a kept record |
| `Ranking.TopOfSorted` | backend/controllers/timer.controller.js:47-49 | the first k of a sorted arrangement of one event's records have that event, are sorted, are drawn from those records, are all of them when k is their count, and outrank every record left out |
| `Ranking.TopScores` | backend/controllers/timer.controller.js:47-49 | the top N has min(N, count) records, all of the requested event, drawn from the stored ones (all of them when at most N), sorted, and no same-event record left out must be listed ahead of an included one |
| `Ranking.TopScoresOfSameRecords` | backend/controllers/timer.controller.js:47-49 | the top N depends on the store only through the requested event's records |
| `TimerController.FieldsOf` | backend/controllers/timer.controller.js:17-24 | the created document carries the body's fields and the URL's event, and no playedAt |
| `TimerController.SetScoreReply` | backend/controllers/timer.controller.js:4-37 | 400 "Missing required fields." exactly when the name is absent or empty or difference or accuracy is absent; 400 "Invalid event." exactly when the fields are present and the event is not "cs" or "it"; 201 exactly when, in addition, the trimmed name is non-empty, target and actual are present and the save succeeds; the stored record echoes the submitted numbers, carries the event and the clock, and is valid |
| `TimerController.MissingFieldsCheckedFirst` | backend/controllers/timer.controller.js:9-15 | a request with missing fields and a bad event gets 400 "Missing required fields." |
| `TimerController.ZeroIsNotMissing` | backend/controllers/timer.controller.js:9 | a difference or an accuracy of 0 is not a missing field |
| `TimerController.BlankNameIsServerError` | backend/models/score.model.js:5-9 | a name of white space only passes the handler's check but is refused by the schema, giving a server error |
| `TimerController.BodyOf` | frontend/src/types.ts:8-14 | a body built from a player result misses no required field exactly when the name is non-empty |
| `TimerController.PlayerResultStoredAsSent` | backend/controllers/timer.controller.js:17-32 | a player result with a trimmed non-empty name sent to a known event is stored and returned with 201 exactly as sent, nothing recomputed |
| `TimerController.Labelled` | backend/controllers/timer.controller.js:51-58 | one entry per record; entry i has rank i + 1 whatever the ties, and copies name, accuracy, difference, target and actual |
| `TimerController.LeaderboardReply` | backend/controllers/timer.controller.js:39-69 | 400 "Invalid event." exactly when the event is not "cs" or "it", checked before any read; 500 exactly when the event is valid and the read fails; otherwise 200 with the labelled top 10 of that event: min(10, count) entries, in order, ranked 1..n |
| `TimerController.SubmissionKeepsOtherBoards` | backend/controllers/timer.controller.js:47-58 | storing a record of one event leaves every other event's leaderboard reply unchanged |
| `TimerController.OtherEventExcluded` | backend/controllers/timer.controller.js:47 | a record of another event never appears in an event's top 10 |
| `TimerController.ScoreStore.constructor` | backend/models/score.model.js:39 | a new store is empty and valid |
| `TimerController.ScoreStore.SetScore` | backend/controllers/timer.controller.js:4-37 | the reply is `SetScoreReply`; on 201 the store is the old store plus exactly the returned record, otherwise it is unchanged; every stored record stays valid |
| `TimerController.ScoreStore.GetLeaderboard` | backend/controllers/timer.controller.js:39-69 | the reply is `LeaderboardReply` over the current records; the store is not modified |

## Left out

- HTTP and Express wiring (`backend/server.js`, `backend/routes/timer.route.js`), the React front end (`frontend/src/App.tsx`) and the HTTP client settings (`frontend/src/utils/axiosHeader.ts`): no logic beyond routing. The routes only supply `event` as a URL parameter, which both handlers take as an argument.
- MongoDB and Mongoose internals: the collection is a `seq` of records. A failed write or read is the `storeFails` argument. Logging of errors is not modelled.
- Ranking.Sort: the database does not specify the order of records that tie on both accuracy and difference. The model uses a stable insertion sort, but no property depends on that choice. Sortedness, permutation and top-N hold for any tie order.
- Values of the wrong JSON type, such as a number for `name` or a string for `difference`, and the cast errors they cause: every body field is an optional string or an optional number.
- How `difference` and `accuracy` are computed from `target` and `actual`: the server never checks them, and the client code that computes them is not part of this model.
- IEEE floating point, including `NaN` and `Infinity`: numbers are exact reals, and the open top band is `Bound.Unbounded`.
- The rank-band lookup and the game-state transitions are not part of this model. `GameTypes.InBand` reads a band as the half-open interval from `minDiff` up to `maxDiff`. That reading is used only to state coverage and disjointness of the table.
- The `color` of a band is carried as a string and not otherwise used.
