# cointrader: trade polling and persistence helpers, in Dafny

This project models two parts of the cointrader trading platform and proves properties of the models.

**The trade poller** is the `FetchTradesRunnable` task of the XChange market-data module. There is one task per market listing.

- **Construction.** The task recovers a resume cursor from the listing's latest persisted trades. The cursor has a time and a numeric id, and each is the largest value seen, starting from 0. A remote key that `Long.valueOf` rejects aborts construction.
- **Each run.** The task:
  - asks the venue for the trades since the cursor time;
  - publishes, in order, every trade whose numeric id is larger than the cursor id;
  - moves the cursor to that trade's timestamp and id;
  - publishes a `MarketDataError` event when the venue call fails with an `IOException`;
  - re-submits itself to the rate limiter whatever happened.

The model of construction is in `XchangeData.Recovered` / `XchangeData.RecoverCursor`. The model of a run is in `XchangeData.ProcessBatch` and the class `XchangeData.FetchTradesTask`.

**The persistence helpers** are in `PersistUtil`:

- positional parameter binding (JPA positions are 1-based);
- `queryEach`, which walks a query's results page by page until the handler refuses a row or a page is empty;
- `queryOne` and `queryZeroOne`;
- the lazy initialisation of the shared entity-manager factory, with its `generatingDefaultData` flag;
- `insert`, which writes several entities in one transaction.

Java's 64-bit `long` and `Long.valueOf(String)` are modelled in `JavaLong`. `Option` and `Result` are defined in `Wrappers`.

Several things that run on outside systems become inputs to the model:

- the venue call, as a function from the `since` time to its outcome;
- a query's ordered result rows;
- whether creating the factory, loading default data, each `persist` and the `commit` succeed or throw.

The event bus and the rate limiter are modelled as classes that record what is handed to them.

## Model

| member | source | states |
|---|---|---|
| JavaLong.ParseLong | src/main/java/com/cryptocoinpartners/module/xchangedata/XchangeData.java:89 | `Long.valueOf` accepts a string exactly when it is an optional '-' or '+' followed by at least one decimal digit and nothing else, and the signed number those digits denote is in the `long` range. The result is that number, so leading zeros and a '+' are allowed, and a lone sign, trailing characters or an out-of-range value are rejected. |
| JavaLong.ParseShow | src/main/java/com/cryptocoinpartners/module/xchangedata/XchangeData.java:105 | Every `long`, printed in decimal and parsed again, comes back unchanged. |
| JavaLong.ParseRejectsOutOfRange | src/main/java/com/cryptocoinpartners/module/xchangedata/XchangeData.java:105 | A decimal number outside the `long` range is rejected (a NumberFormatException). |
| XchangeData.TradeEvents | src/main/java/com/cryptocoinpartners/module/xchangedata/XchangeData.java:107-111 | There is one trade event per new venue trade, in order. Each event carries the listing, timestamp, id, price and amount of its trade. |
| XchangeData.Recovered | src/main/java/com/cryptocoinpartners/module/xchangedata/XchangeData.java:78-92 | The cursor the constructor's loop builds, or the first key that does not parse. A recovered time and id are never below 0, and the id is a `long`. The lemmas `RecoveredIsMax` and its four parts characterise it. |
| XchangeData.RecoverCursor | src/main/java/com/cryptocoinpartners/module/xchangedata/XchangeData.java:78-92 | The constructor's loop yields the cursor of `Recovered`. It succeeds exactly when every remote key parses. The resulting time and id bound every trade time and every remote id, and neither is below 0. |
| XchangeData.RecoveredSucceedsIffKeysParse | src/main/java/com/cryptocoinpartners/module/xchangedata/XchangeData.java:85-92 | Recovery succeeds if and only if every remote key parses. |
| XchangeData.RecoveredFailureSticks | src/main/java/com/cryptocoinpartners/module/xchangedata/XchangeData.java:89 | Once a key fails to parse, the rest of the query result does not change the outcome. |
| XchangeData.RecoveredFailsAtFirstBadKey | src/main/java/com/cryptocoinpartners/module/xchangedata/XchangeData.java:89 | A failed recovery reports the first remote key that does not parse. Every key before it parses. |
| XchangeData.RecoveredTimeIsMax | src/main/java/com/cryptocoinpartners/module/xchangedata/XchangeData.java:78-88 | The recovered time is the maximum of 0 and all trade times. It is at least every trade time and is either 0 or one of them. |
| XchangeData.RecoveredIdIsMax | src/main/java/com/cryptocoinpartners/module/xchangedata/XchangeData.java:79-91 | The recovered id is the maximum of 0 and all remote ids. It is at least every remote id and is either 0 or one of them. |
| XchangeData.RecoveredIsMax | src/main/java/com/cryptocoinpartners/module/xchangedata/XchangeData.java:78-92 | Combines the four recovery results: success if and only if all keys parse, both maxima, and the first bad key on failure. |
| XchangeData.RecoveredMaximaAreIndependent | src/main/java/com/cryptocoinpartners/module/xchangedata/XchangeData.java:86-91 | The loop takes the two maxima separately: trade (200, "5") followed by (100, "9") recovers cursor (200, 9), which matches no single trade. The query at line 82 returns only the trades at the latest time, so in the running program the id is the largest among those trades. |
| XchangeData.NewFetchTradesTask | src/main/java/com/cryptocoinpartners/module/xchangedata/XchangeData.java:74-97 | Construction fails with `QueryFailed` and the query's exception, or with `BadRemoteKey` and the first key that does not parse (the NumberFormatException). Otherwise it yields a fresh task with the given bus, listing and limiter, whose cursor is the recovered one. |
| XchangeData.FetchTradesTask.constructor | src/main/java/com/cryptocoinpartners/module/xchangedata/XchangeData.java:75-79 | The task keeps its bus, listing and limiter and starts at the given cursor. |
| XchangeData.BatchCursorFollowsPublished | src/main/java/com/cryptocoinpartners/module/xchangedata/XchangeData.java:106-113 | When no trade is published, the cursor is unchanged. Otherwise the cursor is the timestamp and id of the last trade published. |
| XchangeData.BatchPublishesIncreasing | src/main/java/com/cryptocoinpartners/module/xchangedata/XchangeData.java:105-113 | Published ids are all above the starting cursor id, strictly increase, and are at most the final cursor id. The cursor id never decreases. |
| XchangeData.BatchCursorIsMax | src/main/java/com/cryptocoinpartners/module/xchangedata/XchangeData.java:105-113 | When every id parses, the final cursor id is the maximum of the starting id and all ids in the batch. |
| XchangeData.BatchPublishesRecords | src/main/java/com/cryptocoinpartners/module/xchangedata/XchangeData.java:104-115 | When every id parses, the run publishes exactly the batch's "record highs" above the cursor id, in batch order. A record high is a trade whose id exceeds the cursor id and every earlier id in the batch (reference definition `NewTrades`). |
| XchangeData.ProcessBatch | src/main/java/com/cryptocoinpartners/module/xchangedata/XchangeData.java:104-115 | The walk of `run()` over fetched trades. It publishes at most one trade per fetched trade, the cursor id never falls, and an unparsable id stops it. The lemmas `BatchPublishesRecords`, `BatchPublishesIncreasing`, `BatchCursorFollowsPublished`, `BatchCursorIsMax`, `BadIdIsInBatch` and `BatchStopsAtBadId` characterise it. |
| XchangeData.BadIdIsInBatch | src/main/java/com/cryptocoinpartners/module/xchangedata/XchangeData.java:105 | A walk cut short reports an id of the batch, at a position whose id does not parse. |
| XchangeData.BadIdSticks | src/main/java/com/cryptocoinpartners/module/xchangedata/XchangeData.java:105 | Once an id fails to parse, the walk ignores every later trade. |
| XchangeData.BatchStopsAtBadId | src/main/java/com/cryptocoinpartners/module/xchangedata/XchangeData.java:104-115 | The first unparsable id, at position j, stops the run. The new trades in positions before j stay published, and the cursor is the one after those j trades. |
| XchangeData.ForwardsOnlyNewerIds | src/main/java/com/cryptocoinpartners/module/xchangedata/XchangeData.java:106-113 | With cursor id 7 and ids 5, 7, 9, 12, exactly the trades with ids 9 and 12 are published, and the cursor ends at the last of them. |
| XchangeData.CursorTimeCanMoveBack | src/main/java/com/cryptocoinpartners/module/xchangedata/XchangeData.java:112 | The resume time is taken from the last published trade even when that trade is older than the old cursor time. |
| XchangeData.LifetimeIdsIncrease | src/main/java/com/cryptocoinpartners/module/xchangedata/XchangeData.java:100-125 | Over any sequence of runs, whatever the venue returns and whichever runs fail, the published ids strictly increase and all exceed the recovered id. So no id is published twice. |
| XchangeData.EventBus.Publish | src/main/java/com/cryptocoinpartners/module/xchangedata/XchangeData.java:111 | Publishing appends exactly one event to the bus. |
| XchangeData.RateLimiter.Execute | src/main/java/com/cryptocoinpartners/module/xchangedata/XchangeData.java:123 | Submitting appends exactly one task to the limiter's queue. |
| XchangeData.FetchTradesTask.PublishNewTrades | src/main/java/com/cryptocoinpartners/module/xchangedata/XchangeData.java:103-115 | The loop leaves the cursor of `ProcessBatch` and appends that walk's trade events to the bus. It ends with a NumberFormatException exactly when an id does not parse. |
| XchangeData.FetchTradesTask.Run | src/main/java/com/cryptocoinpartners/module/xchangedata/XchangeData.java:100-125 | The venue is asked for trades since the cursor time as it stood at the start. On success the run is the `ProcessBatch` walk. On an IOException it publishes one `MarketDataError` and keeps the cursor. Any other exception escapes with the cursor and the bus unchanged. On every path the task is re-submitted exactly once, and the cursor id never decreases. |
| PersistUtil.BindParameters | src/main/java/com/cryptocoinpartners/util/PersistUtil.java:62-66 | Null parameters bind nothing. Otherwise positions 1 to n are bound, exactly those, with `params[i]` at position i+1. |
| PersistUtil.Page | src/main/java/com/cryptocoinpartners/util/PersistUtil.java:68-71 | A page is the rows from the first result onward, in order. With a positive size and a start inside the rows it holds min(size, rows left) rows. It is empty exactly when the size is not positive or the start is past the end. |
| PersistUtil.HandledPrefixIsUnique | src/main/java/com/cryptocoinpartners/util/PersistUtil.java:74-76 | The rows and the handler determine which rows the handler sees. |
| PersistUtil.AcceptingHandlerSeesAll | src/main/java/com/cryptocoinpartners/util/PersistUtil.java:40-46 | A handler that accepts every row sees all the rows, and only then. |
| PersistUtil.RefusalStopsIteration | src/main/java/com/cryptocoinpartners/util/PersistUtil.java:74-76 | A handler that first refuses row j sees exactly rows 0 to j. |
| PersistUtil.QueryEach | src/main/java/com/cryptocoinpartners/util/PersistUtil.java:56-84 | A negative batch size fails before any page is requested. Otherwise page n starts at n·batchSize. The handler sees the prefix that ends at its first refusal, or all rows. Iteration ends on the page holding the refused row or on the first empty page, and every earlier page was non-empty. A batch size of 0 asks for one empty page. |
| PersistUtil.QueryEachDefault | src/main/java/com/cryptocoinpartners/util/PersistUtil.java:50-53 | The overload without a batch size uses pages of 20 rows and ends the same way. |
| PersistUtil.QueryOne | src/main/java/com/cryptocoinpartners/util/PersistUtil.java:107-129 | The result is the single row if the query returns exactly one. No row is NoResultException, and several are NonUniqueResultException. |
| PersistUtil.QueryZeroOne | src/main/java/com/cryptocoinpartners/util/PersistUtil.java:132-157 | As `queryOne`, except that no row gives null. It succeeds if and only if there is at most one row. |
| PersistUtil.InitStep | src/main/java/com/cryptocoinpartners/util/PersistUtil.java:176-211 | One `init(resetDatabase)` as a state transition. A success closes nothing, never raises the flag above what it was before, and leaves a factory unless data was being generated. A failure leaves no factory and leaves the flag raised exactly when resetting. When creation failed it closes the previous factory, if there was one; when seeding failed it closes the new one. The lemmas below characterise each path. |
| PersistUtil.InitSkipsWhileGenerating | src/main/java/com/cryptocoinpartners/util/PersistUtil.java:177-178 | While default data is being generated, `init` changes nothing. |
| PersistUtil.InitSkipsWithFactory | src/main/java/com/cryptocoinpartners/util/PersistUtil.java:179-180 | Once a factory exists, `init(false)` changes nothing. |
| PersistUtil.InitCreationFailure | src/main/java/com/cryptocoinpartners/util/PersistUtil.java:181-210 | When factory creation fails, the factory that was current is closed and forgotten, and an error is raised. A reset leaves the flag raised. |
| PersistUtil.ResetSucceeds | src/main/java/com/cryptocoinpartners/util/PersistUtil.java:181-202 | A successful reset installs the new factory and lowers the flag. The old factory is replaced without being closed. |
| PersistUtil.LazyInitSucceeds | src/main/java/com/cryptocoinpartners/util/PersistUtil.java:179-198 | The first `init(false)` installs the new factory and leaves the flag as it was. |
| PersistUtil.FailedResetLatches | src/main/java/com/cryptocoinpartners/util/PersistUtil.java:182-210 | After a failed reset the flag stays raised and there is no factory, so every later `init` changes nothing. |
| PersistUtil.InitRunsWhileGenerating | src/main/java/com/cryptocoinpartners/util/PersistUtil.java:177-178 | Any number of `init` calls made while the flag is raised leave the state unchanged. |
| PersistUtil.Persistence.constructor | src/main/java/com/cryptocoinpartners/util/PersistUtil.java:219 | The class starts with no factory and the flag lowered. |
| PersistUtil.Persistence.Init | src/main/java/com/cryptocoinpartners/util/PersistUtil.java:176-211 | The new state and the outcome of `init` are those of the `InitStep` state machine. |
| PersistUtil.Persistence.ResetDatabase | src/main/java/com/cryptocoinpartners/util/PersistUtil.java:171-173 | `resetDatabase()` is `init(true)`. |
| PersistUtil.Persistence.CreateEntityManager | src/main/java/com/cryptocoinpartners/util/PersistUtil.java:160-163 | Runs `init(false)`, and an error from it propagates. Otherwise the result is a manager from the factory, or a NullPointerException when there is no factory. |
| PersistUtil.FirstFault | src/main/java/com/cryptocoinpartners/util/PersistUtil.java:24-26 | The exception an insert meets. When a `persist` throws, it is the exception of the first `persist` that throws, and every entity before it was persisted; the commit is never reached. When none throws, it is whatever the `commit` throws, and there is none exactly when the commit succeeds. |
| PersistUtil.Store.Insert | src/main/java/com/cryptocoinpartners/util/PersistUtil.java:17-37 | Either all the entities are committed, appended in order, or none is. Only a Java `Error` from `persist` or `commit` causes a rollback (which is then rethrown). Any other exception escapes without one. |

## Left out

- The venue client, the XChange `Trades` type and `CurrencyPair` are replaced by the `venue` function. `Instant` and `BigDecimal` are kept opaque: a time is epoch milliseconds as an `int`, and a price or amount is an unscaled value with a scale, passed through unchanged.
- The constructor's JPQL query, which selects the listing's trades at its latest time, is not evaluated. Its result, or its failure, is an input to `NewFetchTradesTask`. `entityManager.close()` is not modelled.
- The rate limiter's pacing and the thread it runs tasks on are not modelled (its source is not part of this model). The limiter is seen only as the queue of submitted tasks. The Esper event bus is seen only as the sequence of published events.
- `initModule`, the static block that registers listings, `Listing.java` and logging are not modelled, because they are set-up and diagnostics outside the cursor logic.
- JavaLong.ParseLong: accepts only ASCII digits. `Long.parseLong` also accepts other Unicode decimal digits, which venue ids do not use.
- Trade ids and times are unbounded integers. Java's `long` fields cannot overflow here, because every value stored in them comes from a parsed `long` or a `long` timestamp.
- Venue trade ids and timestamps are never null in the model. In `run()` a null id fails in `Long.valueOf` (line 105), which the model does not include. A null timestamp throws nothing: line 107 uses Joda's `new Instant(Object)`, which reads null as the current time, so such a trade would be published with the clock time and `lastTradeTime` set to it. The clock is not modelled. In the constructor a persisted trade without a time fails with a NullPointerException at line 86, which is not modelled.
- PersistUtil.QueryEach: the page start is an unbounded integer, so Java's `int` overflow of `start += batchSize` on results longer than 2^31 rows is not modelled.
- PersistUtil.QueryEach: a batch size of 0 is read by the JPA contract ("at most 0 results"), which gives an empty first page. Some providers treat 0 as "no limit", and under that reading the Java loop would request the same page forever.
- The query text, the result type and JPA itself are not modelled. The rows a query returns are an input, and so is their order across pages, which the source assumes to be stable.
- `queryList` (lines 87-104) is not modelled separately: it is `BindParameters` followed by returning every row.
- Failure of `createEntityManager` inside `queryEach`, `queryOne`, `queryZeroOne` and `insert`, and the `em.close()` in their `finally` blocks, are not modelled in those helpers. `CreateEntityManager` models creation on its own.
- The Hibernate properties read from `Config` and the `create` / `update` schema mode are not modelled. Factory creation is an input that succeeds with a fresh factory or fails.
- `loadDefaultData` and `loadStaticFieldsFromClass` are reduced to an input outcome, succeeded or failed. Their reflection over static fields is not modelled. Their nested `insert` calls run while the flag is raised, so they leave the factory state unchanged; `InitSkipsWhileGenerating` proves this.
- Concurrency: the static fields of `PersistUtil` and the task's fields are treated as accessed by one thread at a time.
