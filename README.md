# cryptopredictor, modelled in Dafny

This project models the computational core of cryptopredictor, an ETH/USD price-prediction
toolkit. The model covers four parts:

- **The back-tester** (`testTradingBot.js`). Each bot starts with $1000 and no ETH. Every
  simulated day the back-tester logs each bot's account value and asks the bot for a decision
  in [-1, 1]. A decision outside that range becomes 0. The decision is applied at the day's
  open price, and time then advances one day.
- **The four training-window generators.** The date-anchored walk of the predictor, the
  index-anchored walk of the price-history bot, the daily-array walk of the trainer, and the
  forward walk of the one-off script. Each is modelled as written, with its own bounds, its
  own columns and its own example counts.
- **The price-history bot's decision rule.**
- **The fetch-and-store scripts.** These split a time range into five-day queries, reverse and
  accumulate each response, map candle rows to documents, and compute where an incremental
  update resumes.

## Files and modules

- `price_data.dfy`, module `PriceData`: the shared vocabulary.
  - The price document, the candle row and the training example.
  - `addDays` (a day is 86400 s) and `generateNormalized`.
  - The exact-timestamp lookups (`findIndexOfDateTime`, and the forward scan of `getPriceAtDateTime`).
  - The seven-input daily window: one week of a walk, and the try/catch read of the prediction window.
- `simulator.dfy`, module `Simulator`. The back-tester is built in three layers:
  - a specification on values (`Account`, `Trade`, `DayStep`, `Day`, `RunDays`);
  - the class `BotState`, whose methods update `usdAmount`, `ethAmount` and `valueOverTime` in place;
  - `Simulate`, the imperative loop, proved to produce exactly the states `RunDays` describes.
- `price_history_bot.dfy`, module `PriceHistoryBot`: `bots/pricehistorybot.js`.
- `price_history_predictor.dfy`, module `PriceHistoryPredictor`: `predictors/pricehistorypredictor.js`.
  - Its `generateTrainingData` can throw. The exception is modelled as an explicit outcome.
- `train_price_history_nn.dfy`, module `TrainPriceHistoryNN`: `trainPriceHistoryNN.js`.
- `price_history_script.dfy`, module `PriceHistoryScript`: the example loop of `pricehistory.js`, as a
  function of the response rows.
- `fetch_plan.dfy`, module `FetchPlan`: shared fetch machinery.
  - The query-range plan, and the row-to-document mapping.
  - The module-level `priceHistory` accumulator, as the class `PriceHistoryAccumulator`.
    `AppendResponse` is the response callback. `AddToPriceHistory` is the recursive chunking
    that appears in both `dbUtils/insertPriceHistory.js` and `db-utils/updatePriceHistory.js`.
- `insert_price_history.dfy` (`InsertPriceHistory`), `backfill_price_history.dfy`
  (`BackfillPriceHistory`, for `db-utils/updatePriceHistory.js`), `update_price_history.dfy`
  (`UpdatePriceHistory`) and `insert_new_price_history.dfy` (`InsertNewPriceHistory`): the four
  fetch scripts.

Conventions:

- Times are integer epoch seconds in the back-tester and the walks. The fetch scripts use epoch
  milliseconds, as they do.
- Prices are reals, and every division is guarded by a non-zero requirement.
- Parameters stand in for the parts outside the model:
  - the trained network is an opaque function `(examples, inputs) -> real`;
  - a bot is a function `(history, time, day) -> decision`;
  - the exchange's candle endpoint is a function from a query range to rows;
  - "now" is passed in.
- JavaScript behaviour that matters is written out:
  - `usd + eth * null` is `usd`;
  - a null window index is used as 0, so the window read fails at once;
  - the predictor's `!anchorIndex` also rejects index 0;
  - an out-of-range read that is not caught is an explicit `Threw`/`Throws` outcome.

## Model

| member | source | states |
|---|---|---|
| PriceData.AddDaysCompose | testTradingBot.js:171-175 | adding m days then n days is adding m + n days |
| PriceData.AddTwoDays | test/dateUtils.test.js:5-7 | two days after 1500336000000 ms is 1500508800000 ms, as the unit test expects |
| PriceData.Normalize | bots/pricehistorybot.js:148-152 | the normalised change n satisfies (n + 0.5) * previous == current, for a non-zero previous price |
| PriceData.NormalizeNoChange | bots/pricehistorybot.js:145-152 | equal prices normalise to the midpoint 0.5 |
| PriceData.NormalizeStrictlyIncreasing | predictors/pricehistorypredictor.js:146-153 | for a positive previous price, normalisation is strictly increasing in the current price |
| PriceData.Reversed | pricehistory.js:15 | the reversed array has the same length, and element k is element len-1-k of the original |
| PriceData.LastIndexOf | predictors/pricehistorypredictor.js:155-165 | the result is the greatest index whose time equals t; it is None exactly when no document has time t |
| PriceData.FirstIndexOf | testTradingBot.js:160-168 | the result is the least index whose time equals t; it is None exactly when no document has time t |
| PriceData.FindIndexOfDateTime | bots/pricehistorybot.js:156-164 | the backward scan returns the greatest matching index, or null when the time is absent (the same scan as predictors/pricehistorypredictor.js:157-165) |
| PriceData.DailyInputs | bots/pricehistorybot.js:118-124 | a week's input list has exactly seven entries |
| PriceData.BuildWeek | bots/pricehistorybot.js:115-138 | one week of a walk from index w: input j = normalize(open[w+24j], open[w+24(j-1)]) for j = 0..6, output = [normalize(open[w+168], open[w+144])] (the same loop as predictors/pricehistorypredictor.js:109-136) |
| PriceData.TryWindow | bots/pricehistorybot.js:31-43 | the prediction window can be read exactly when the start index exists, is at least 24, and start + 144 is inside the array; it then has seven inputs, and otherwise the caught read yields nothing |
| PriceData.ReadInputs | predictors/pricehistorypredictor.js:27-39 | the input loop with its thrown read caught returns exactly the window TryWindow describes, including the null start index that fails at its first read |
| Simulator.BeforeOrAt | testTradingBot.js:148-157 | the filtered history is never longer than the history |
| Simulator.BeforeOrAtMembers | testTradingBot.js:148-157 | a document is kept exactly when its time is at or before t; nothing else is added |
| Simulator.BeforeOrAtIsPrefix | testTradingBot.js:148-157 | when the first n documents are at or before t and the rest after it (an ascending series), the kept documents are exactly those first n, in their original order |
| Simulator.GetPHDBeforeOrAtDateTime | testTradingBot.js:148-157 | the push loop returns exactly the filtered history, in order |
| Simulator.OpenAt | testTradingBot.js:160-168 | no price exactly when no document has time t; otherwise the open of a document with time t |
| Simulator.GetPriceAtDateTime | testTradingBot.js:160-168 | the forward scan returns the open of the first document with time t, or null |
| Simulator.Coerce | testTradingBot.js:89-93 | the decision used lies in [-1, 1], and a decision already in range is kept |
| Simulator.Trade | testTradingBot.js:97-115 | trading never touches the logged values |
| Simulator.InvalidDecisionChangesNothing | testTradingBot.js:89-93 | a decision with absolute value above 1 leaves both balances unchanged that day |
| Simulator.TradeAmounts | testTradingBot.js:100-114 | a sell moves eth*(-d) out of ETH and eth*(-d)*price into USD; a buy moves usd*d out of USD and usd*d/price into ETH; d = 0 changes nothing |
| Simulator.TradeKeepsNonNegative | testTradingBot.js:100-111 | at a positive price, a trade with a valid decision keeps usd >= 0 and eth >= 0 |
| Simulator.TradeConservesValue | testTradingBot.js:100-111 | a trade at price p leaves usd + eth*p unchanged |
| Simulator.Initial | testTradingBot.js:45-54 | one account per bot, each with 1000 USD, 0 ETH and no logged values |
| Simulator.Day | testTradingBot.js:64-116 | one day: each bot logs its value, then decides on the history up to now, then trades the coerced decision at the day's price |
| Simulator.RunDays | testTradingBot.js:56-120 | the day loop keeps one account per bot |
| Simulator.RunDaysLengths | testTradingBot.js:57-71 | every bot logs exactly one value per simulated day, ceil((end - start) / 86400) in all, so every history has the same length |
| Simulator.RunDaysNonNegative | testTradingBot.js:60-120 | balances never become negative over the whole simulation |
| Simulator.BotState.constructor | testTradingBot.js:47-52 | a new bot state holds the bot, 1000 USD, 0 ETH and an empty history |
| Simulator.BotState.RecordValue | testTradingBot.js:70-71 | appends usd + eth*price to the history, or usd when the price is null; the balances are unchanged |
| Simulator.BotState.ApplyDecision | testTradingBot.js:97-115 | updates the balances in place exactly as Trade does |
| Simulator.NewBotStates | testTradingBot.js:44-54 | one fresh, distinct state per bot, in bot order, each with 1000 USD, 0 ETH and an empty history |
| Simulator.StepDay | testTradingBot.js:68-116 | every bot in turn logs its value, decides, has an out-of-range decision replaced by 0, and trades; each ends as DayStep of its old state |
| Simulator.Simulate | testTradingBot.js:33-143 | throws (None) exactly when the start price is missing or the bot list is empty (the report reads the first bot's history); otherwise one fresh state per bot, ending exactly as RunDays from 1000 USD and 0 ETH, whatever startingUSD says |
| Simulator.BuyAndHoldExample | testTradingBot.js:56-120 | a buy-and-hold bot on opens 100, 110, 105 over two days ends with 0 USD and 10 ETH, having logged 1000 then 1100 |
| PriceHistoryBot.WeeksAt | bots/pricehistorybot.js:114-139 | example k of the walk from i is the window starting at i - 168k, and that start is at least 192 |
| PriceHistoryBot.WeeksCount | bots/pricehistorybot.js:114 | the walk from i yields floor((i - 192) / 168) + 1 examples when i >= 192, else none |
| PriceHistoryBot.WalkFromAnchor | bots/pricehistorybot.js:114-140 | for an anchor at index a: floor((a - 528) / 168) + 1 examples when a >= 528, else none; example k is the window at a - 336 - 168k; all its reads lie in [168, a - 168] |
| PriceHistoryBot.TrainingDataShape | bots/pricehistorybot.js:91-143 | for an anchor found at index a the result is not null: it is that walk, an empty list when a < 528, and it uses nothing in the last 168 samples before the anchor |
| PriceHistoryBot.WalkWeeks | bots/pricehistorybot.js:114-140 | the nested loops push exactly the examples of the walk, newest first |
| PriceHistoryBot.GenerateTrainingData | bots/pricehistorybot.js:91-143 | null exactly when the anchor time is absent (the sentinel is -1, so index 0 counts); otherwise the examples of the walk from 336 samples before the anchor |
| PriceHistoryBot.Clamp | bots/pricehistorybot.js:54-59 | the result lies in [-1, 1]; it equals the input when that is in range, and 1 or -1 beyond the bounds |
| PriceHistoryBot.DecisionInRange | bots/pricehistorybot.js:5-62 | whatever the network outputs, the decision lies in [-1, 1] |
| PriceHistoryBot.MakeDecision | bots/pricehistorybot.js:5-62 | day 1 gives 1; a missing anchor or an unreadable window gives 0; otherwise clamp((output - 0.5) * 5); always within [-1, 1] |
| PriceHistoryPredictor.Walk | predictors/pricehistorypredictor.js:97-141 | the weekly walk never yields null: it yields examples or throws |
| PriceHistoryPredictor.AnchorsShape | predictors/pricehistorypredictor.js:97-107 | the weekly anchors are anchor - 13 days, then every 7 days earlier, found or not; the walk stops at the first one not after docs[0].time, after ceil((weekly - earliest) / 7 days) of them |
| PriceHistoryPredictor.Found | predictors/pricehistorypredictor.js:102-107 | the indices of the weeks the walk uses all lie in (0, len) |
| PriceHistoryPredictor.WeekExamples | predictors/pricehistorypredictor.js:114-137 | one example per found index, in order: the window of the week starting there |
| PriceHistoryPredictor.WalkByFound | predictors/pricehistorypredictor.js:99-141 | when every week with a truthy lookup can be read, the walk yields one example per such week, that week's window, in walk order |
| PriceHistoryPredictor.WalkThrowsByFound | predictors/pricehistorypredictor.js:99-141 | the walk throws exactly when some week with a truthy lookup has w < 24 or w + 168 >= len |
| PriceHistoryPredictor.FoundByAnchors | predictors/pricehistorypredictor.js:99-106 | the weeks the walk uses are, in walk order, the truthy index lookups of the anchor times it visits |
| PriceHistoryPredictor.FoundAtMostAnchors | predictors/pricehistorypredictor.js:99-141 | at most one example per visited week |
| PriceHistoryPredictor.SkippedWeek | predictors/pricehistorypredictor.js:102-107 | a week whose lookup is missing or 0 adds nothing and moves on seven days |
| PriceHistoryPredictor.GenerateTrainingData | predictors/pricehistorypredictor.js:79-144 | the while loop with `continue` yields exactly the specified outcome: null for a falsy anchor lookup, otherwise the walk (examples, or the thrown read) |
| PriceHistoryPredictor.RunPredictor | predictors/pricehistorypredictor.js:6-50 | null exactly when the anchor lookup is falsy; a thrown training read escapes; 0 when the window cannot be read; otherwise output - 0.5 |
| PriceHistoryPredictor.WalkThrowsNearStart | predictors/pricehistorypredictor.js:99-117 | on a gap-free hourly series of 314 samples, with now at the last one, the walk finds a week at index 1 and `run` throws |
| PriceHistoryPredictor.ReadableOnly | predictors/pricehistorypredictor.js:114-128 | keeps, in order, exactly those found indices whose whole week (w - 24 to w + 168) lies inside the array |
| PriceHistoryPredictor.GuardedWalkByFound | predictors/pricehistorypredictor.js:99-141 | the guarded walk yields one example per found week that can be read, that week's window, in walk order; an unreadable week is skipped and the later ones are kept |
| PriceHistoryPredictor.GuardedWalkSound | predictors/pricehistorypredictor.js:99-141 | the guarded walk equals the original whenever that does not throw |
| PriceHistoryPredictor.GuardedRunSound | predictors/pricehistorypredictor.js:6-50 | with the guarded walk `run` never throws and is null exactly when the anchor lookup is falsy; when the window can be read it trains on exactly the readable found weeks, in walk order; it agrees with the original whenever that does not throw |
| TrainPriceHistoryNN.WeeksCount | trainPriceHistoryNN.js:31 | the walk from i yields floor((i - 8) / 7) + 1 examples when i >= 8, else none |
| TrainPriceHistoryNN.WeeksAt | trainPriceHistoryNN.js:31-53 | example k of the walk from i is the week at i - 7k, and that index is at least 8 |
| TrainPriceHistoryNN.TrainingDataShape | trainPriceHistoryNN.js:28-56 | floor((len - 22) / 7) + 1 examples when len >= 22, else none; example k reads only days i, i+6 and i+7, with i = len - 14 - 7k, inside [8, len - 7]; its seven inputs all equal normalize(close[i], low[i]); its output is normalize(close[i+7], open[i+6]) |
| TrainPriceHistoryNN.GenerateTrainingData | trainPriceHistoryNN.js:28-56 | the nested loops produce exactly the walk from len - 14, in decreasing i |
| PriceHistoryScript.WeeksCount | pricehistory.js:18 | the walk from i yields floor((len - i - 1) / 7) examples when i < len - 7, else none |
| PriceHistoryScript.WeeksAt | pricehistory.js:18-45 | example k of the walk from i is the week at i + 7k, which ends inside the array |
| PriceHistoryScript.TrainingDataShape | pricehistory.js:14-45 | ceil((len - 8) / 7) examples when len > 8, else none; example k starts at i = 1 + 7k and reads only rows i-1 .. i+7, all inside [0, len-1]; oldest first |
| PriceHistoryScript.BuildWeek | pricehistory.js:21-43 | six inputs open[i+j]/open[i+j-1] - 0.5 for j = 0..5, and output open[i+7]/open[i+6] - 0.5 |
| PriceHistoryScript.TrainingDataFromResponse | pricehistory.js:14-45 | the rows are reversed, and the loop produces exactly the forward walk from index 1 |
| FetchPlan.ToDocument | dbUtils/insertPriceHistory.js:72-79 | the document's time is the row's first entry |
| FetchPlan.ToDocuments | dbUtils/insertPriceHistory.js:70-81 | one document per row, in order; time, low, high, open, close and volume are taken from positions 0 to 5 |
| FetchPlan.QueryRangesShape | dbUtils/insertPriceHistory.js:21-62 | floor((end - start) / inc) + 1 queries when start <= end, else none; query k starts at start + k*inc and ends at min(its start + inc, end); consecutive ranges abut; the first starts at start and the last ends at end |
| FetchPlan.QueryRangesCover | dbUtils/insertPriceHistory.js:25-32 | an instant lies in some query range exactly when it lies in [start, end] |
| FetchPlan.PriceHistoryAccumulator.constructor | dbUtils/insertPriceHistory.js:18 | the accumulator starts empty |
| FetchPlan.PriceHistoryAccumulator.AppendResponse | dbUtils/insertPriceHistory.js:54-56 | the response is reversed and appended after the rows already held |
| FetchPlan.PriceHistoryAccumulator.AddToPriceHistory | dbUtils/insertPriceHistory.js:21-66 | the recursion appends, in query order, the reversed response of every planned range (the same function as db-utils/updatePriceHistory.js:18-63) |
| InsertPriceHistory.SavePriceHistory | dbUtils/insertPriceHistory.js:68-100 | documents are inserted exactly when there is at least one row, one per row in order; with no rows nothing is inserted and the continuation never runs |
| InsertPriceHistory.Run | dbUtils/insertPriceHistory.js:9-16 | five-day queries over [start, end] are appended after whatever earlier runs left; all accumulated rows, old ones first, are inserted when there are any |
| InsertNewPriceHistory.StartAfterStored | dbUtils/insertNewPriceHistory.js:11-17 | the start is July 1, 2016 when nothing is stored, else the instant one hour after the last document; whenever the last document is the newest (repeats allowed) it is at least an hour after every stored document |
| InsertNewPriceHistory.ReinsertedStoreLastIsNewest | dbUtils/insertPriceHistory.js:18-56 | the accumulator is never cleared, so an hourly service run re-inserts the earlier rows before the new ones; the store is then no longer ascending, but its last document is still the newest |
| InsertNewPriceHistory.Run | dbUtils/insertNewPriceHistory.js:6-26 | fetches from that start up to now and saves exactly as the reusable run does |
| BackfillPriceHistory.FixedRangePlan | db-utils/updatePriceHistory.js:8-32 | the fixed range issues exactly 76 queries: 75 of five days, then a last one from 1499731200000 to the end, covering 345600000 ms |
| BackfillPriceHistory.Run | db-utils/updatePriceHistory.js:6-90 | accumulates the fixed range's responses and produces one correctly mapped document per row, with no emptiness guard |
| UpdatePriceHistory.AddToPriceHistory | updatePriceHistory.js:48-66 | one request, whose rows are reversed and appended |
| UpdatePriceHistory.Run | updatePriceHistory.js:8-45 | all rows of the first range precede all rows of the second; one document per accumulated row, mapped by position |

## Left out

- MongoDB, HTTP requests, the 1250 ms `setTimeout` pacing, `console.log`, `toFixed` and
  `JSON.parse`: these are external calls or formatting. Responses are parameters, and insertions
  are return values.
- Training and running the brain.js network. It is foreign code and appears as an opaque
  function parameter.
- The bots in `bots/buyandholdbot.js` and `bots/monkeybot.js` are not part of this model. Any bot
  is a function of (history, time, day), and a random bot is a fixed such function.
- IEEE floating point (rounding, NaN, infinities): prices are reals. The back-tester requires
  positive opens, and the walks require non-zero divisors.
- JavaScript `Date` local time: `setDate` across a daylight-saving change is not modelled. A day is
  86400 s, and the back-tester's `time*1000 <= dateTime` comparison is made in whole seconds.
- Rows from the exchange are taken to be six numbers with an integral time. A malformed response,
  or a request error that `JSON.parse` turns into an exception, is not modelled.
- The end-of-simulation report (testTradingBot.js:122-143) prints the final values with the last
  day's price; the printing is left out with the rest of the console output. Its one effect on the
  outcome, the exception when the bot list is empty, is part of `Simulate`.
- InsertNewPriceHistory.StartAfterStored: assumes that the last stored document is the newest, rather than proving it
  for every store. `getPriceHistory` returns documents in insertion order. Re-inserted rows keep the
  last document the newest (`ReinsertedStoreLastIsNewest`). A store filled in another order is not
  covered.
- The start strings of `updatePriceHistory.js` are passed to the fetch function unparsed. Which
  candles the exchange returns for each range is outside the model.

## Findings

| source | as written | input that shows it | evidently intended | confidence | as-written member | corrected member |
|---|---|---|---|---|---|---|
| predictors/pricehistorypredictor.js:99-117 | the weekly walk continues while the weekly anchor time is after docs[0].time and reads docs[w - 24] and docs[w + 168] with no bounds guard; the training call is outside the try, so the TypeError escapes `run` | a gap-free hourly series of 314 samples with `now` = the last sample's time: the first weekly anchor is the sample at index 1, so docs[-23].open is read | a week whose window cannot be read is skipped, as a missing week is | not executed | PriceHistoryPredictor.WalkThrowsNearStart | PriceHistoryPredictor.GuardedRunSound |
