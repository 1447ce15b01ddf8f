# ProductRedisService in Dafny

A model of the view counter and the ranking boards of `ProductRedisService`.
The product catalogue uses this service to buffer page views in a Redis cache
and flush them into the product table from time to time. It also uses it to
keep one sorted set per category as a ranking board.

Each public method is one atomic transition over an immutable `State`:

- the Redis keyspace, `cache: map<string, Entry>`. An entry holds a string, an
  integer (the encoding Redis gives a value after INCR) or a sorted set, plus
  an optional expiry stamp in milliseconds;
- the product table's view totals, `db: map<int, int>`;
- the store's clock.

Commands that Redis rejects become an `Outcome` of `Failed(error, state)`.
Examples are INCR on a non-integer or past the 64-bit maximum, GET or ZADD on
a key of the wrong type, and SET with a non-positive expiry. An exception in
the scheduled pass becomes `Aborted`.

Redis treats an expired key as absent in every command. Each operation that
looks at an existing key therefore requires a `Valid` state, one in which no
key has expired. These are INCR, ZADD, `incrementView`, `UpdateViewRDS`,
`warmupRankingPipeLine` and `getRankingBoard`. `Tick` produces a `Valid`
state, and every operation keeps a state `Valid`.

Files:

- `decimal.dfy`: `String.valueOf(long)`, `Long.parseLong` and
  `Integer.parseInt` in radix 10, and Redis's strict reading of a counter.
  The parsers are proved to read back what `String.valueOf` prints.
- `keys.dfy`: the key formats `productView::<id>` and `Ranking::<id>`, the
  scan glob `productView*`, and `key.split("::")[1]`.
- `store.dfy`: the state, the INCR reading of a counter, expiry (`Tick`), and
  the two `ProductRepository` queries.
- `view_counter.dfy`: `setView`, Redis INCR, `incrementView`, and repeated
  views.
- `reconcile.dfy`: `UpdateViewRDS`. The pass is proved to follow a reference
  that judges every key on the cache as the pass found it.
- `ranking.dfy`: `setRankingBoard` (ZADD), `warmupRankingPipeLine`, and
  `getRankingBoard` (the reverse range of ranks 0 to 99). `IsTopRange`
  specifies that range, and the range is proved unique.
- `scenarios.dfy`: end-to-end runs.
  - A first view is seeded and then reconciled.
  - Counters 5 and 3 against totals 100 and 50 end as 105 and 53.
  - A counter expires before the pass runs.
  - A three-product warm-up is followed by the board query.

On a product's first view, the application seeds the counter with the
product's whole stored total (line 79) and then increments it. The pass later
hands the whole counter to `addView` (line 99). The body of `addView` is not
part of this model, so its behaviour is the parameter `AddMode`. If `addView`
adds its argument to the stored total, as its name suggests, the stored total
is counted twice: `Scenarios.SeedThenReconcile` proves that the product then
ends at 2v + 1. If `addView` overwrites the total, the product ends at v + 1.

## Model

| member | source | states |
|---|---|---|
| ViewCounter.SetView | src/main/java/product/service/product/ProductRedisService.java:69-72 | SET with an expiry stores the text under the key, replacing what was there, live until now + duration. The database and every other key are untouched. A non-positive duration is an error that changes nothing. |
| ViewCounter.Increment | src/main/java/product/service/product/ProductRedisService.java:80-82 | INCR: an absent key becomes 1 with no expiry. A counter v below the 64-bit maximum becomes v + 1 and keeps its expiry. The maximum is an overflow error and a non-integer value is an error; both leave the state as it was. Only this key can change. |
| ViewCounter.IncrementView | src/main/java/product/service/product/ProductRedisService.java:75-83 | With no counter, the key is seeded with the product's stored total and then incremented: it reads total + 1 and expires 35 minutes from now. An unknown product is an error that changes nothing. A present counter v reads v + 1 with the same expiry. A value INCR cannot read is an error that changes nothing. The database and the other keys are never touched. |
| ViewCounter.Accumulation | src/main/java/product/service/product/ProductRedisService.java:76-82 | n more views on a counter holding v, with v + n in 64-bit range, all succeed. The counter then reads v + n with its original expiry, and the database and every other key are unchanged. |
| Store.CounterReadsBack | src/main/java/product/service/product/ProductRedisService.java:79-80 | A counter seeded as the decimal text of a 64-bit v is read by INCR as v. |
| Store.Tick | src/main/java/product/service/product/ProductRedisService.java:79 | After time passes, exactly the keys whose expiry has not yet passed remain, with their entries unchanged. The new state has no expired key. |
| Decimal.ShowParseJava | src/main/java/product/service/product/ProductRedisService.java:96-97 | `Long.parseLong` and `Integer.parseInt` read back the decimal text of n exactly when n is in their range; otherwise they reject it. |
| Decimal.ParseRedisExact | src/main/java/product/service/product/ProductRedisService.java:79-80 | Redis reads a string as the integer n exactly when the string is the canonical decimal text of n and n is a 64-bit value. |
| Keys.ViewKeyRoundTrip | src/main/java/product/service/product/ProductRedisService.java:89-96 | Every key `productView::<id>` with a 64-bit id matches the scan glob, and splitting it on "::" and parsing the second field gives back the id. |
| Keys.RankingKeyNotScanned | src/main/java/product/service/product/ProductRedisService.java:55 | A ranking key `Ranking::<id>` never matches the scan glob `productView*`. |
| Keys.ParseViewKey | src/main/java/product/service/product/ProductRedisService.java:96 | `Long.parseLong(key.split("::")[1])`: the text between the first "::" and the next one, or the end of the key, read as a 64-bit integer. A key without "::" or with a field Java cannot parse has no id. Any id it gives is in the 64-bit range. `Keys.ViewKeyRoundTrip` proves that it inverts `ViewKey`. |
| Repository.AddView | src/main/java/product/service/product/ProductRedisService.java:99 | `addView` changes at most the named product's row and never adds or removes rows. |
| Repository.ApplyAdditive | src/main/java/product/service/product/ProductRedisService.java:99 | With an additive `addView`, a row ends at its old total plus the sum of every count handed over for it. |
| Repository.ApplyOverwrite | src/main/java/product/service/product/ProductRedisService.java:99 | With an overwriting `addView`, a row ends at the last count handed over for it, or keeps its total when there was none. |
| Reconcile.ScanViewKeys | src/main/java/product/service/product/ProductRedisService.java:89 | `keys("productView*")`: the keys of the cache that the glob matches. Every counter key is among them (`Keys.ViewKeyRoundTrip`) and no ranking key is (`Keys.RankingKeyNotScanned`). |
| Reconcile.Judge | src/main/java/product/service/product/ProductRedisService.java:96-97 | What one iteration does with a key and the value GET returned for it. It parses the id from the key, then reads the value as an `int`. A key without an id, a missing value, a sorted set and a count outside `int` range each throw. `Reconcile.CounterFlushed` states the case of a counter the application wrote. |
| Reconcile.CounterFlushed | src/main/java/product/service/product/ProductRedisService.java:96-99 | One iteration on `productView::<id>` holding an int-range count n, stored as text or as an integer, calls `addView(id, n)`. |
| Reconcile.FlushAll | src/main/java/product/service/product/ProductRedisService.java:95-102 | The loop. For each key in iteration order it calls `addView` and then deletes the key. At the first key that throws it stops, keeping the calls made so far. `Reconcile.FlushAllFollowsReference` proves it equal to the reference. |
| Reconcile.FlushAllFollowsReference | src/main/java/product/service/product/ProductRedisService.java:95-102 | The loop equals the reference, which judges every key on the cache as the pass found it. The loop calls `addView` once for each key before the first key it cannot process, in iteration order and with that key's count. It deletes exactly those keys and stops at that key with that key's error. |
| Reconcile.UpdateViewRds | src/main/java/product/service/product/ProductRedisService.java:86-104 | With no key to scan, nothing changes. The pass completes exactly when every scanned key can be processed. It then issues one `addView(id, n)` per scanned key in iteration order, applies them to the database, and deletes every scanned key and only those. No `productView*` key remains. On an error the database is rolled back, and the keys before the failing one stay deleted. |
| Ranking.SetRankingBoard | src/main/java/product/service/product/ProductRedisService.java:113-116 | ZADD puts the member on the board with the new score and leaves every other member's score as it was. Re-adding a member does not grow the board. ZADD on a string key is a type error that changes nothing. No other key changes. |
| Ranking.RunPipeline | src/main/java/product/service/product/ProductRedisService.java:53-58 | The pipelined ZADDs, one per product in list order. Every command runs, and the first error is reported at the end. `Ranking.WarmupFrame`, `Ranking.WarmupOnString` and `Ranking.WarmupFollowsUpserts` state its properties. |
| Ranking.WarmupRankingPipeline | src/main/java/product/service/product/ProductRedisService.java:49-60 | `warmupRankingPipeLine` changes only the category's ranking key and never the database. On an absent key or a sorted set it succeeds and leaves the board that results from writing each product's view total over the old board in list order. On a string key the state is unchanged, and the warm-up fails exactly when the list is not empty. |
| Ranking.WarmupFrame | src/main/java/product/service/product/ProductRedisService.java:49-60 | A warm-up writes only the category's ranking key. The database and every other key are unchanged. |
| Ranking.WarmupOnString | src/main/java/product/service/product/ProductRedisService.java:53-58 | When the ranking key holds a string, every ZADD of the pipeline fails. A non-empty warm-up reports failure and the state is unchanged. |
| Ranking.WarmupFollowsUpserts | src/main/java/product/service/product/ProductRedisService.java:53-58 | On a ranking key that is absent or a sorted set, a warm-up succeeds and leaves the board that results from writing each product's view total over it in list order. |
| Ranking.UpsertsLastScoreWins | src/main/java/product/service/product/ProductRedisService.java:53-58 | Writing the products' scores in list order leaves the old members plus the listed ones. Each listed member has the score of its last occurrence, and every unlisted member keeps its score. |
| Ranking.WarmupLastScoreWins | src/main/java/product/service/product/ProductRedisService.java:49-60 | A warm-up's board holds the old members and the listed ones. A listed member's score is the view total of its last occurrence in the list, and an unlisted member keeps its score. |
| Ranking.TopRange | src/main/java/product/service/product/ProductRedisService.java:65 | The result has min(n, board size) entries. Each entry is a board member with its score, the entries are strictly in reverse-range order, and no member left out ranks above a listed one. |
| Ranking.GetRankingBoard | src/main/java/product/service/product/ProductRedisService.java:63-66 | An absent key gives the empty range and a string key gives a type error. A sorted set gives its top range of at most 100 entries in the sense above. |
| Ranking.TopRangeUnique | src/main/java/product/service/product/ProductRedisService.java:65 | Any two ranges that both satisfy the top-range specification for the same board and bound are equal, so the query has exactly one answer. |
| Scenarios.FirstViewSeeds | src/main/java/product/service/product/ProductRedisService.java:78-80 | The first view of a product, with no counters pending, leaves exactly one counter key, holding the stored total + 1, next to the unchanged other keys. |
| Scenarios.SeedThenReconcile | src/main/java/product/service/product/ProductRedisService.java:79-99 | After a first view, the next pass calls `addView(id, v + 1)` once and leaves the cache as it was before the view. An additive `addView` ends at 2v + 1 and an overwriting one at v + 1. |
| Scenarios.TwoCountersReconciled | src/main/java/product/service/product/ProductRedisService.java:95-101 | A pass over counters n1 and n2 for two different products, with an additive `addView`, adds each count to its own product once. It leaves every other row, removes both counters and keeps every other key. |
| Scenarios.TwoCountersExample | src/main/java/product/service/product/ProductRedisService.java:95-101 | Counters 5 and 3 against totals 100 and 50 end as totals 105 and 53, with no counter left. |
| Scenarios.SeededCounterExpires | src/main/java/product/service/product/ProductRedisService.java:79-89 | A counter seeded by a first view is found by the next scan exactly when at most 35 minutes have passed. |
| Scenarios.ThreeProductsBoard | src/main/java/product/service/product/ProductRedisService.java:49-60 | Warming up products with views 10, 50 and 30 builds the board 1:10, 2:50, 3:30. |
| Scenarios.ThreeProductsRanked | src/main/java/product/service/product/ProductRedisService.java:49-66 | For that board the only answer the board query can give is 2:50, 3:30, 1:10. |

## Left out

- Redis pipelining and serializers: a pipeline is modelled as its commands run in order. Every command runs, and the first error is reported at the end.
- `warmupPipeLine` and `setProduct`, the detail-page cache: they are a list push and a plain SET with no logic of their own.
- The `@Scheduled` trigger and concurrency: every method is one atomic step. The check-then-seed race in `incrementView` and overlapping passes are not modelled.
- The `@Transactional` boundary is modelled only as a database rollback when the pass aborts. Deletes already made in Redis stay, because Redis takes no part in the transaction.
- `ProductRepository`: its body is not part of this model. `getView` is a lookup in `db`. A product with no row is assumed to fail before anything is written. `addView` is additive or overwriting as `AddMode` says, and a missing row is left alone.
- `ProductMainResponseDto.toDto` and the serialized DTOs: members are opaque integer ids.
- Logging.
- Wall-clock time: the clock moves only through the explicit `Tick` step.
- Scores are `double` in the source; the model uses `int` view totals.
- Ties in the reverse range are ordered by member id, higher first. This stands in for Redis's ordering on the serialized member bytes.
- Parsing is ASCII-only. Java's parsers also accept non-ASCII Unicode digits, which the model rejects.
- A `null` result from `keys` is read as an empty scan; both end the pass without a change.
- The iteration order of the scanned key set is not specified, so it is a parameter of `UpdateViewRds`. Any order that visits each scanned key exactly once is allowed.
- Spring's own check of a zero or negative `Duration` is not modelled. SET with a non-positive expiry is the store's error, `InvalidExpireTime`.
- Ranking.GetRankingBoard: the result is a sequence in rank order, not Spring's `Set` of typed tuples.
