# Yield-source health check: a Dafny model

This project models the health check of the sirius-star yield aggregator.
The endpoint `api/debug.js` probes four yield-data APIs in turn: DefiLlama
stable pools, Morpho vaults, Euler pools (read from the DefiLlama feed) and
Pendle markets on three chains. A fifth source, `manual`, is a constant.
Each source is reduced to a qualifying count and some metadata. A summary is
then folded over the results. The page `api/diagnostic.js` reads that report
and compares each count with a table of expected ranges. It then builds an
ordered list of recommendations.

The model has five modules:

- `Common` (common.dfy): absent values, JavaScript comparisons against
  numbers that may be undefined, `filter`, ASCII `toUpperCase`, `includes`.
- `Retry` (retry.dfy): `fetchWithRetry` as a loop over an abstract
  transport. The transport maps attempt `i` to `Ok(body)`, `HttpErr(status)`
  or `Throw(msg)`. Ghost counters record the number of requests and pauses.
  The loop is proved against the function `Retried`.
- `Sources` (sources.dfy): the per-source filters and metadata. Pendle's
  chain loop is a method, proved against the function `TallyOf`. Pendle's
  marker test keeps the code's four `includes` tests (USD, DAI, USDC, USDT);
  a lemma proves it equal to "contains USD or DAI", because the USDC and USDT
  tests are subsumed by the USD test.
- `Report` (report.dfy): `testAPIs` as a method that fills `results` in
  order, proved against `Results`, plus the summary fold.
- `Classifier` (classifier.dfy): the expected-range table, the verdict, the
  comparison rows and the recommendation builder. The builder's two loops are
  proved against `FailureRecs` and `LowRecs`.

The outside world is one value of type `Report.Network`. It holds the
transport of each request: the DefiLlama fetch, the single Morpho POST, the
separate Euler fetch of the same pools feed, and the Pendle fetch for each
chain id.

With the shipped table `manual` is expected to have exactly 24 yields, but
`testAPIs` always reports 14. So `manual` is always judged too low and always
gets a low-count recommendation. The "everything looks good" line can
therefore never be shown for this endpoint's output (`Classifier.NeverAllGood`).

Two facts about the code shape the model:

- The code awaits the sources one after another (api/debug.js:23-123), so
  `testAPIs` is modelled as a sequence of steps, not as concurrent requests.
- Morpho makes one unretried POST (api/debug.js:47-53). It does not go through
  `fetchWithRetry`, so its transport is a single attempt.

## Model

| member | source | states |
|---|---|---|
| `Retry.FetchWithRetry` | api/debug.js:5-16 | The loop ends exactly as `Retried` says: how it settles, how many requests it issued and how many pauses it took. With no attempt allowed it resolves to `undefined`. |
| `Retry.AllAttemptsFail` | api/debug.js:6-14 | If every attempt fails, the call issues exactly `retries` requests and pauses `retries - 1` times. It rethrows the last attempt's error unchanged: `HTTP <status>` for a non-ok response, the thrown message otherwise. |
| `Retry.FirstSuccessAt` | api/debug.js:8-13 | If attempt k is the first to succeed, the call returns that body after k+1 requests and k pauses. Nothing is attempted afterwards. |
| `Retry.RetryBounds` | api/debug.js:5-16 | With at least one attempt the call settles with a body or an error, never `undefined`. It issues between 1 and `retries` requests and pauses once fewer than it issues requests. It rejects only after the whole budget is spent. |
| `Sources.DefiLlamaCount` | api/debug.js:23-29 | The count is the number of qualifying pools (stablecoin, TVL > 100000, APY < 200), capped at 50. The sample is the first raw pool's project, whether or not that pool qualifies. A rejected fetch gives its message as the error. |
| `Sources.DefiLlamaExample` | api/debug.js:25 | Of four pools that each fail a different condition except the first, exactly one is counted. |
| `Sources.EulerCountedPools` | api/debug.js:72-80 | A pool is counted exactly when all of these hold: it is in the payload, its project is `euler-v2` or `euler`, its TVL is > 100000, its APY is < 200, and its upper-cased symbol contains one of USDC, USDT, DAI, USDS, PYUSD, FRAX, LUSD. The count never exceeds the Euler pool count. |
| `Sources.EulerResult` | api/debug.js:70-85 | Euler succeeds exactly when the fetch resolves to a payload with a `data` array in which every Euler pool has a symbol. An Euler pool without a symbol makes `toUpperCase` throw (api/debug.js:78) and the source an error; a rejected fetch gives its message as the error. A successful Euler result counts exactly those pools. Its `totalPools` is the number of Euler pools before the ticker filter, and count ≤ `totalPools`. |
| `Sources.MorphoCount` | api/debug.js:53-64 | Morpho succeeds exactly when its single attempt yields a parsed body. A vault is counted iff it is in the item list and its `totalAssetsUsd` > 100000; the count is the number of such vaults, and count ≤ `total` = number of vaults. The sample is the first vault's name. An absent item list gives count = total = 0. An absent or empty list gives no sample. |
| `Sources.MorphoSingleAttempt` | api/debug.js:47-53 | A non-ok response gives the error `HTTP <status>`. Morpho fails exactly as `fetchWithRetry` would with a single attempt. |
| `Sources.HasUsdSimplified` | api/debug.js:102-108 | The four-way marker test equals "upper-cased symbol contains USD or DAI". |
| `Sources.ProbePendle` | api/debug.js:95-117 | The chain loop ends with the total and the per-chain map that `TallyOf` gives for the three chains in order. |
| `Sources.TallyKeys` | api/debug.js:98-115 | After the loop, the keys of `chainResults` are exactly the names of the chains visited. |
| `Sources.TallyEntries` | api/debug.js:99-114 | Each chain's entry is the outcome of its own retried fetch. A rejection with message m gives `error: m`, and a failure never stops the other chains. |
| `Sources.TallySum` | api/debug.js:95-111 | `totalCount` is the sum of the integer entries of `chainResults`. |
| `Sources.PendleReport` | api/debug.js:88-120 | Pendle always succeeds. `byChain` has exactly the keys Ethereum, Arbitrum and Optimism. A failing chain records `error: <message>` and adds nothing. The count is the sum of the counted entries. |
| `Report.TestAPIs` | api/debug.js:19-134 | The method fills `results` in the order defiLlama, morpho, euler, pendle, manual, each from its own probe. The summary is the fold over those results. |
| `Report.SummaryPartition` | api/debug.js:126-131 | `successfulSources + failedSources == sources`. |
| `Report.TotalOfSuccesses` | api/debug.js:127 | `totalYields` is the sum of the successful counts; error results contribute 0. |
| `Report.ReportShape` | api/debug.js:19-134 | For any network: there are 5 sources with distinct names (so `Classifier.TooHighIsSilent` applies to this report), split into successful and failed. Pendle and manual always succeed, manual with count 14 (api/debug.js:123). So at least 2 sources succeed and `totalYields` ≥ 14. Neither retried fetch resolves to `undefined`. |
| `Classifier.Judge` | api/diagnostic.js:166-168 | Exactly one verdict holds: good iff min ≤ actual ≤ max, too low iff actual < min, too high iff actual ≥ min and actual > max. |
| `Classifier.Comparison` | api/diagnostic.js:162-183 | There is one row per source that has an expectation, and none for the others. Each row compares `count || 0` with that source's range and carries `Judge`'s verdict. |
| `Classifier.ComparisonOrder` | api/diagnostic.js:162-183 | The rows follow the results order: row k has the name, the bounds and the `count || 0` of the k-th entry that has an expectation. |
| `Classifier.FailureRec` | api/diagnostic.js:195-199 | A failure rec is the timeout variant iff the message contains `timeout` or `timed out`. Otherwise it is the generic variant carrying the message. |
| `Classifier.Recommendations` | api/diagnostic.js:189-217 | The recommendation list is never empty. |
| `Classifier.PushFailures` | api/diagnostic.js:193-201 | The `forEach` over the listed failures pushes exactly `FailureRecs` of them, in order: a timeout rec or a generic one per failure. |
| `Classifier.PushLowCounts` | api/diagnostic.js:204-209 | The low-count loop appends exactly `LowRecs` to what was already pushed. |
| `Classifier.Recommend` | api/diagnostic.js:189-217 | The builder produces exactly `Recommendations`: failure recs, then low-count recs, then the overall rec, or the single "all good" line when nothing else was pushed. |
| `Classifier.FailureRecsOfFailures` | api/diagnostic.js:192-200 | Filtering the failures first and then recommending gives the same list as recommending for every failed entry in results order. |
| `Classifier.FailureRecsExact` | api/diagnostic.js:192-200 | Every failed source gets its failure rec, and every failure rec belongs to a failed source. |
| `Classifier.LowRecsExact` | api/diagnostic.js:204-209 | A low-count rec is emitted iff the source has an expectation and is a success with count < min. Error results never get one. |
| `Classifier.RecommendationOrder` | api/diagnostic.js:189-217 | Failure recs come before low-count recs, which come before the overall rec, which comes before the "all good" line. |
| `Classifier.OverallIff` | api/diagnostic.js:211-213 | The overall rec appears iff `totalYields < 150`. |
| `Classifier.AllGoodIff` | api/diagnostic.js:215-217 | "All good" appears iff no source failed, no source is low and `totalYields ≥ 150`. When it appears it is the only entry. |
| `Classifier.TooHighIsSilent` | api/diagnostic.js:189-217 | A successful source judged too high (api/diagnostic.js:179) gets no recommendation naming it. |
| `Classifier.NeverAllGood` | api/diagnostic.js:92-217 | For every network, on this endpoint's report and the shipped table: `manual` (14 against min 24) is too low, gets a low-count rec, and "all good" never appears. |
| `Classifier.TimedOutExample` | api/diagnostic.js:195-196 | For every total ≥ 150, a single failure whose message is "request timed out" yields only the timeout rec. |

## Left out

- The HTTP handler (api/debug.js:136-165, api/diagnostic.js:4-7, 256) is not modelled: CORS and cache headers, `OPTIONS`, and the 500 response with its stack.
- `Date.now`, the ISO timestamp and `executionTime` are not modelled: they are wall-clock values.
- The 500 ms `setTimeout` pause is only counted by a ghost counter. Its timing is not modelled.
- Real `fetch` and JSON parsing are not modelled; each request is an abstract transport. An unparsable body is the `Throw` outcome of that attempt.
- Only the payload fields the filters read are modelled. A field that is absent is `None` and compares false, as `undefined` does.
- JSON `null` is not modelled. In JavaScript `null < 200` is true. A value of the wrong type is not modelled either, for example a numeric symbol, whose `toUpperCase` call would throw.
- JavaScript numbers are mathematical reals. NaN and the falsy `0` of `totalActiveLiquidity || 0` give the same comparison results as the model.
- `toUpperCase` is ASCII-only. Unicode case mapping is not modelled.
- The messages of engine TypeErrors (`data` absent, a symbol missing on an Euler pool, `fetchWithRetry` resolving to `undefined`) use Node's wording.
- `Sources.PendleReport`: `byChain` is a map. The insertion order of the JavaScript object's keys is not modelled.
- The result of `testAPIs` is an ordered sequence of (name, result) pairs. `sources` is its length; the five names are distinct.
- The page's DOM, HTML, Tailwind classes, the JSON toggle and the auto-run listener (api/diagnostic.js:8-91, 102-160, 219-251) are presentation and are not modelled.
- The page's failed-request branch (`data.success` false, api/diagnostic.js:118-120, 226-228) is not modelled.
- Recommendation wording is not modelled. Each recommendation is a variant that carries the fields its text shows.
- Concurrency is not modelled: the code awaits each source in turn.
