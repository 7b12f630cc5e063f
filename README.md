# Triangular arbitrage calculation engine, modelled in Dafny

This project models the calculation engine of a Binance triangular-arbitrage
bot: `src/main/CalculationNode.js`. From a frozen snapshot of order-book
depth, the engine works out what trading A → B → C → A would return.

- It walks the book levels of each instrument, best price first, and
  converts an amount of one currency into another. It fails when the book
  is crossed or too shallow.
- It truncates each traded quantity to the instrument's "dust" precision.
- It chains the three Buy/Sell legs of a triangle into a per-currency
  account of what was spent, earned and kept. The return is a percentage
  net of the taker fee.
- It sweeps the configured range of investment sizes and keeps the best one.
- Once per cycle it does all this for every triangle, counts successes and
  failures, and keeps a history of cycle timings.

Modules, one file each:

| module | file | what it holds |
|---|---|---|
| `Types` | `Types.dfy` | book levels and depths, configuration, legs, triangles, snapshots, errors, the evaluation record |
| `Dust` | `Dust.dfy` | `calculateDustless`: rounding to 12 decimals, then truncating to the dust precision |
| `Rates` | `Rates.dfy` | `getWeightedRate` and the test that switches on the "trigger" strategy |
| `Walk` | `Walk.dfy` | the two book walks as recursive specifications: by quantity and by notional |
| `OrderBook` | `OrderBook.dfy` | `orderBookConversion` and `orderBookReverseConversion`, as loop methods proved equal to functional specifications |
| `Triangle` | `Triangle.dfy` | `calculate`, leg by leg |
| `Optimizer` | `Optimizer.dfy` | `optimize` |
| `CycleDriver` | `CycleDriver.dfy` | `cycle`, with the node's pass counter and timing history as a class |

Amounts are mathematical reals. A side of a book is a sequence of
`Level(rate, qty)` in walking order. The global `CONFIG` becomes a `Config`
parameter. The thrown errors become values of `Error`:

- `Crossed(ticker)`: the "spread does not exist" error.
- `Shallow(...)`: the "too shallow" error. It carries the instrument, both
  side lengths, the unconverted amount, both currencies and the direction.
- `NoDepth(ticker)`: the book is missing from the cache. The source then
  fails reading a property of `undefined`. As in the source, this happens
  only when the amount is not zero.

Two behaviours of the code are worth knowing:

- Crossed books. Line 150 throws only when the best bid is strictly above
  the best ask, so a book whose best prices are equal is not crossed
  (`OrderBook.CrossedBookFails`). A zero amount returns at line 143 before
  the book is read, so even a crossed or missing book converts zero without
  error.
- Selling 1 A through an AB bid of 100, a BC bid of 50 holding 10 and a CA
  bid of 0.0002 fails at BC, 90 B short (`Triangle.ShallowSecondLeg`). With
  1000 on the BC bid the same triangle returns −0.3 percent
  (`Triangle.DeepTriangle`).

The return is a `Percentage`: a finite value or one of the two infinities.
When no A is spent, line 119 divides by zero. A non-zero change in A then
gives an infinity, which line 120 keeps and `optimize` compares as a double
would. No change gives NaN, which line 120 replaces by 0.

## Model

| member | source | states |
|---|---|---|
| `Dust.DustlessBounds` | src/main/CalculationNode.js:244-246 | For a non-negative amount, the dustless value is non-negative and at most the amount rounded to 12 decimals. It falls short of that value by less than one unit in the last kept digit. |
| `Dust.DustlessDigits` | src/main/CalculationNode.js:245-246 | The dustless value has at most `min(dustDecimals, 12)` fractional digits. |
| `Dust.DustlessFixedPoint` | src/main/CalculationNode.js:242-247 | An amount that already has at most that many fractional digits is returned unchanged; integers are a special case. |
| `Dust.DustlessIdempotent` | src/main/CalculationNode.js:242-247 | Applying dust rounding twice at the same precision gives the same result as once. |
| `Dust.DustlessNeverUp` | src/main/CalculationNode.js:242-247 | For a non-negative amount with at most 12 fractional digits, dust rounding never increases it and never makes it negative. |
| `Dust.DustlessOvershoot` | src/main/CalculationNode.js:244 | For any non-negative amount, the dustless value exceeds the amount by at most half a unit in the 12th decimal. |
| `Dust.DustlessCanRoundUp` | src/main/CalculationNode.js:244-246 | Because of the 12-digit rounding before truncation, 0.9999999999999 at 8 dust decimals becomes 1. |
| `Dust.MagnitudeBounds` | src/main/CalculationNode.js:244-246 | Truncating the 12-digit value of a non-negative magnitude stays between zero and that value, within one unit of the last kept digit. |
| `Dust.RoundAtNear` | src/main/CalculationNode.js:244 | Rounding a non-negative value half-up at a scale stays non-negative and is at most half a unit above the value. |
| `Dust.TruncateBelow` | src/main/CalculationNode.js:245-246 | Truncating to `e` decimals never increases a value and removes less than one unit of the `e`-th decimal. |
| `Dust.TruncateDigits` | src/main/CalculationNode.js:245-246 | A value truncated to `e` decimals has at most `e` fractional digits. |
| `Dust.ToFixedExact` | src/main/CalculationNode.js:244 | Rounding to 12 decimals leaves unchanged a value that already has at most 12 fractional digits. |
| `Rates.WeightedRate` | src/main/CalculationNode.js:138-140 | The blended rate is the one at which the bid-weighted and ask-weighted distances to the two rates cancel out. |
| `Rates.WeightedRateBetween` | src/main/CalculationNode.js:135-140 | With non-negative weights and the bid not above the ask, the blend lies between the bid rate and the ask rate. |
| `Rates.TriggerRateFacts` | src/main/CalculationNode.js:171 | The trigger rate `getWeightedRate(1, 9, ask0, bid_i)` is the bid plus a tenth of the spread. It is positive when both rates are, and between them on an uncrossed pair. |
| `Rates.ToLower` | src/main/CalculationNode.js:151 | Lower-casing keeps the length and folds each ASCII capital to its small letter, leaving other characters alone. |
| `Rates.TriggerIgnoresCase` | src/main/CalculationNode.js:151 | The strategy `"TRIGGER"` switches on the trigger prices exactly for the AB phase. |
| `Rates.SweepNeverTriggers` | src/main/CalculationNode.js:151 | The strategy `"sweep"` never switches on the trigger prices. |
| `Walk.QuantityWalk` | src/main/CalculationNode.js:153-165 | A quantity walk that finishes does so on a level of the side at or after its starting level. |
| `Walk.NotionalWalk` | src/main/CalculationNode.js:167-188 | A notional walk that finishes does so on a level of the side at or after its starting level. |
| `Walk.QuantityWalkFills` | src/main/CalculationNode.js:153-165 | A positive amount is converted exactly when it does not exceed the total quantity of the side. Otherwise the walk leaves the excess over that total. |
| `Walk.NotionalWalkFills` | src/main/CalculationNode.js:167-188 | A positive amount is converted exactly when it does not exceed the total notional of the side. Otherwise the walk leaves the excess over that total. |
| `Walk.QuantityWalkGrows` | src/main/CalculationNode.js:158-163 | A positive amount that a quantity walk converts adds a positive amount to what was accumulated. |
| `Walk.NotionalWalkGrows` | src/main/CalculationNode.js:181-186 | A positive amount that a notional walk converts adds a positive amount to what was accumulated. |
| `Walk.NotionalUndoesQuantity` | src/main/CalculationNode.js:153-188 | Walking by notional the amount a quantity walk produced gives back the original amount, finishing on the same level. |
| `Walk.QuantityUndoesNotional` | src/main/CalculationNode.js:153-188 | Walking by quantity the amount a notional walk produced gives back the original amount, finishing on the same level. |
| `Walk.QuantityWalkMonotone` | src/main/CalculationNode.js:153-165 | A smaller positive amount also fills, and never yields more. |
| `Walk.NotionalWalkMonotone` | src/main/CalculationNode.js:167-188 | A smaller positive amount also fills, and never yields more. |
| `OrderBook.AskLevelsValid` | src/main/CalculationNode.js:170-178 | The levels walked on the ask branch have positive rates, and non-negative quantities when the book has them, whether or not the trigger blend is used. |
| `OrderBook.WalkBidsByQuantity` | src/main/CalculationNode.js:154-165 | The loop over the bids ends as the quantity walk of the bids. |
| `OrderBook.WalkBidsByNotional` | src/main/CalculationNode.js:225-236 | The loop over the bids ends as the notional walk of the bids. |
| `OrderBook.AskLevel` | src/main/CalculationNode.js:170-178 | The rate and quantity read at position `i` are those of level `i` of the walked ask levels: the trigger blend with the bid quantity, or the ask itself. |
| `OrderBook.WalkAsksByNotional` | src/main/CalculationNode.js:169-188 | The loop over the ask levels ends as their notional walk. In trigger mode the recorded limit price is the rate of the last level visited, otherwise it is unchanged. |
| `OrderBook.WalkAsksByQuantity` | src/main/CalculationNode.js:206-223 | The loop over the ask levels ends as their quantity walk. |
| `OrderBook.OrderBookConversion` | src/main/CalculationNode.js:142-192 | The routine returns the forward conversion, with each of its error paths, and the limit price that the trigger branch leaves behind. |
| `OrderBook.OrderBookReverseConversion` | src/main/CalculationNode.js:194-240 | The routine returns the reverse conversion, with each of its error paths. |
| `OrderBook.ZeroConvertsToZero` | src/main/CalculationNode.js:143 | A zero amount converts to 0 in both directions, even when the book is missing or crossed, and leaves the limit price alone. |
| `OrderBook.CrossedBookFails` | src/main/CalculationNode.js:150 | Both conversions fail with the crossed-book error exactly when the amount is non-zero, the book exists and its best bid is strictly above its best ask. Equal best prices are not crossed. |
| `OrderBook.ConversionOnBids` | src/main/CalculationNode.js:153-191 | Forward along the ticker's own pair, a positive amount succeeds exactly when it is at most the bid quantity. Otherwise the too-shallow error carries the excess and both side lengths. |
| `OrderBook.ConversionOnAsks` | src/main/CalculationNode.js:167-191 | Forward against the ticker's pair, a positive amount succeeds exactly when it is at most the notional of the walked ask levels. Otherwise the too-shallow error carries the excess. |
| `OrderBook.ReverseConversionOnAsks` | src/main/CalculationNode.js:205-239 | Reverse along the ticker's pair, a positive amount succeeds exactly when it is at most the quantity of the walked ask levels. Otherwise the reverse too-shallow error carries the excess. |
| `OrderBook.ReverseConversionOnBids` | src/main/CalculationNode.js:224-239 | Reverse against the ticker's pair, a positive amount succeeds exactly when it is at most the bid notional. Otherwise the reverse too-shallow error carries the excess. |
| `OrderBook.SingleBidLevel` | src/main/CalculationNode.js:153-165 | With a single bid (r, q), selling 0 < x ≤ q yields x·r, and selling x > q fails, leaving x − q. |
| `OrderBook.ConversionsKeepSign` | src/main/CalculationNode.js:142-240 | On a book with non-negative quantities, a successful conversion of a non-negative amount is non-negative, and zero exactly when the amount is zero. |
| `OrderBook.ReverseUndoesConversion` | src/main/CalculationNode.js:194-240 | On an instrument that trades the two currencies, in either order, reverse-converting the result of a successful conversion, with the currencies swapped, gives back the original amount. |
| `OrderBook.ReverseOfLessNeverExceeds` | src/main/CalculationNode.js:194-240 | Reverse-converting any part of a conversion's result succeeds and costs at most the original amount. |
| `OrderBook.TriggerLimitPrice` | src/main/CalculationNode.js:170-174 | Only the trigger branch of the forward conversion records a limit price. It is the trigger rate of some level `j`, and on a well-ordered book it lies between bid `j` and the best ask. |
| `Types.ExceedsIsStrictOrder` | src/main/CalculationNode.js:48 | The `>` that `optimize` applies to returns, infinities included, is a strict total order: irreflexive, transitive, and any two different returns are comparable. |
| `Triangle.Percent` | src/main/CalculationNode.js:119-120 | With A spent, the return is finite, and adding back the three fees and multiplying by the spend gives 100 times the change in A. With no A spent, the return is +∞ or −∞ exactly when the change in A is positive or negative, and otherwise 0. |
| `Triangle.ReturnOnNothing` | src/main/CalculationNode.js:114-120 | For an evaluation that spends no A, the return is +∞, −∞ or 0 exactly when the A earned is positive, negative or zero. |
| `Triangle.CalculateLeg` | src/main/CalculationNode.js:81-90 | One leg computed in the source's order (Buy: convert, dust, reverse-convert; Sell: dust, convert) is the leg's specification `TradeLeg`. |
| `Triangle.Calculate` | src/main/CalculationNode.js:55-123 | `calculate` returns the evaluation `Evaluate`: the three legs chained through each earned amount, the deltas, and the fee-adjusted percent of `Percent`. It returns the first failure otherwise. |
| `Triangle.Evaluate` | src/main/CalculationNode.js:56-58 | A successful evaluation carries the triangle it evaluates and the id `a-b-c` built from its three symbols. |
| `Triangle.LegVolumeIsDustless` | src/main/CalculationNode.js:81-90 | A leg's traded volume has at most the dust digits. It is the earned amount of a Buy leg and the spent amount of a Sell leg. |
| `Triangle.LegSigns` | src/main/CalculationNode.js:81-112 | On non-negative books a leg spends and earns non-negative amounts, spends nothing exactly when it earns nothing, and spends nothing when nothing is available. |
| `Triangle.LegStaysWithinAvailable` | src/main/CalculationNode.js:81-90 | A leg whose dust rounding does not round up never spends more than is available. A Buy leg fails exactly when its forward conversion fails. |
| `Triangle.NothingSpentNothingGained` | src/main/CalculationNode.js:114-120 | On books with non-negative quantities all six flows are non-negative. A triangle that spends no A then earns no A and reports a return of exactly 0, never an infinity. |
| `Triangle.IntermediatesNeverShort` | src/main/CalculationNode.js:81-117 | When no dust rounding rounds up and each leg trades on the pair that connects its currencies, A spent never exceeds the investment and B and C never end negative. |
| `Triangle.PercentSign` | src/main/CalculationNode.js:119-120 | When some A is spent the return is finite, and before fees it is positive exactly when more A is earned than spent. |
| `Triangle.SingleBidSell` | src/main/CalculationNode.js:86-90 | A Sell leg of a whole amount into a single bid sells at that rate when the bid is deep enough, and otherwise reports the shortfall. |
| `Triangle.ShallowSecondLeg` | src/main/CalculationNode.js:97-101 | The three-Sell example with 10 on the BC bid fails at the second leg, short by 90 B. |
| `Triangle.DeepTriangle` | src/main/CalculationNode.js:55-123 | With 1000 on the BC bid the example spends and earns 1 A, 100 B and 5000 C and returns a finite −0.3 percent. |
| `Optimizer.CandidateInRange` | src/main/CalculationNode.js:46 | The `k`-th size `(MIN or STEP) + k·STEP` is within the maximum exactly when `k` is below the number of passes. |
| `Optimizer.Trials` | src/main/CalculationNode.js:46-47 | The sizes evaluated are exactly those the loop reaches while within MAX: every size before the last pass is at most MAX, and the next size is above it, whatever the sign of STEP. |
| `Optimizer.Optimize` | src/main/CalculationNode.js:41-53 | The loop returns the sweep of the evaluations at every size in range. |
| `Optimizer.SweepKeepsFirstBest` | src/main/CalculationNode.js:48-50 | Sweeping on from the best of a prefix ends with the best of all evaluations, the earliest on ties. |
| `Optimizer.SweepFindsFirstBest` | src/main/CalculationNode.js:41-53 | A sweep over no evaluations returns nothing; a successful sweep returns nothing only then. Otherwise its result is some evaluation `j` that none beats, and no earlier one ties. |
| `Optimizer.OptimizeFindsFirstBest` | src/main/CalculationNode.js:41-53 | `optimize` returns nothing when the range is empty, in particular when the first size is already above MAX, and when it succeeds only then. Otherwise it returns the evaluation at the smallest size whose return no other size beats. |
| `Optimizer.SweepFailsAtFirstError` | src/main/CalculationNode.js:47 | The sweep fails exactly when some evaluation fails, and then with the error of the first failing one. |
| `Optimizer.OptimizeKeepsTriangle` | src/main/CalculationNode.js:46-52 | What `optimize` returns is an evaluation of the triangle it was given, under that triangle's id. |
| `Optimizer.SingleSize` | src/main/CalculationNode.js:41-53 | With a single size in range, `optimize` is one `calculate`. |
| `CycleDriver.Outcome` | src/main/CalculationNode.js:17-23 | Optimising one triangle gives no evaluation exactly when the investment range is empty. Any evaluation it gives is one of that triangle, under its id. |
| `CycleDriver.Outcomes` | src/main/CalculationNode.js:16-23 | One outcome per triangle, in order. Outcome `i` lacks an evaluation exactly when the range is empty, and any evaluation in it is one of triangle `i`, under that triangle's id. |
| `CycleDriver.CalculationNode.constructor` | src/main/CalculationNode.js:5-6 | A new node has made no passes and timed none. |
| `CycleDriver.CalculationNode.Cycle` | src/main/CalculationNode.js:8-39 | The pass reports the tally of its outcomes in order and the measured time. It hands each success to execution and each failure to the error callback. It adds one to the pass count and appends one timing. |
| `CycleDriver.TallyCounts` | src/main/CalculationNode.js:23-31 | The counts equal the numbers of executions and of reported errors, and their sum is at most the number of outcomes. It equals that number when no outcome is empty, and is zero when all are. |
| `CycleDriver.EveryTriangleCountedOnce` | src/main/CalculationNode.js:16-32 | No triangle is counted twice. With a non-empty investment range every triangle is counted once, as a success or as a failure. With an empty range none is. |
| `CycleDriver.TallyAppends` | src/main/CalculationNode.js:16-32 | The tally of two runs of outcomes is the sum and concatenation of their tallies. |
| `CycleDriver.PassesCompose` | src/main/CalculationNode.js:16-32 | A pass over two runs of triangles reports what each run reports alone, one after the other, so a failure stops nothing after it. |
| `CycleDriver.ResultsAreExecuted` | src/main/CalculationNode.js:23-26 | With the display off no results are kept. With it on, the results are exactly the executed evaluations keyed by their id. |
| `CycleDriver.ExecutedFromOutcomes` | src/main/CalculationNode.js:23-26 | Every evaluation handed to execution is the evaluation of one of the outcomes. |
| `CycleDriver.ExecutedAreTriangles` | src/main/CalculationNode.js:16-26 | Every evaluation a pass hands to execution is one of a triangle of the pass, under that triangle's id. |
| `CycleDriver.SnapshotsOfThree` | src/main/CalculationNode.js:17-21 | Each of the three example triangles reads its own three books from the shared cache. |
| `CycleDriver.DeepOutcome` | src/main/CalculationNode.js:22 | On deep books the example triangle optimises to its one evaluation. |
| `CycleDriver.ShallowOutcome` | src/main/CalculationNode.js:22-31 | On the shallow books optimising fails at the BC leg. |
| `CycleDriver.PassOfThree` | src/main/CalculationNode.js:16-32 | A pass over three triangles tallies their three outcomes. |
| `CycleDriver.TallyOfThree` | src/main/CalculationNode.js:23-31 | A success, a failure and a success count two successes and one failure, with both executions and the failure in order. |
| `CycleDriver.SecondOfThreeFails` | src/main/CalculationNode.js:8-39 | In a pass over three triangles whose second is too shallow, two succeed, one fails, the failure names "BD", and the third is still executed. |

## Left out

- IEEE-754 doubles: amounts are exact reals, so rounding drift in the walks,
  in the repeated `quantity += STEP` of `optimize` and in the percent is not
  modelled.
- `toFixed(12)`, `indexOf`, `slice` and `parseFloat` in `calculateDustless`
  are modelled by their arithmetic effect. The magnitude is rounded half-up
  at 12 decimals and then truncated to `min(dustDecimals, 12)` decimals,
  with the sign kept aside. The string handling itself is not modelled.
- `parseFloat` of the book's string keys, and the insertion order that
  `Object.keys` gives them, are left to the caller. Each side arrives as an
  ordered sequence of numeric levels.
- The clock: `new Date().getTime()` becomes the two parameters `startTime`
  and `endTime` of `Cycle`.
- The callbacks become the sequences `executed` and `errors` that `Cycle`
  returns, and they are taken not to throw. The error messages become
  `Error` values with the fields the messages print.
- The `depth` reference stored in the result (line 62) is a pointer to the
  snapshot, not computed data.
- `recalculateTradeLeg` (lines 125-133) is not modelled. It calls
  `orderBookConversion` with five arguments against a seven-parameter
  signature, and nothing in the file calls it.
- JavaScript's truthiness (`MIN || STEP`, `!percent`) is modelled for the
  values it meets here. `MIN == 0` selects `STEP`; a NaN percent becomes 0.
  Undefined configuration values are not modelled.
- Rates.ToLower folds only the ASCII capitals, while `toLowerCase` also
  folds other alphabets. The one use, comparing with "trigger" at line 151,
  decides the same either way. Only two non-ASCII capitals lowercase to
  something containing an ASCII letter. The Kelvin sign becomes "k", which
  "trigger" does not contain. The dotted capital I becomes "i" plus a
  combining dot, which "trigger" does not contain either.
- OrderBook.OrderBookConversion and OrderBook.OrderBookReverseConversion
  require positive rates, because the notional walk divides by the rate. In
  trigger mode they also require at least as many bids as asks, since past
  the last bid the source reads `undefined` and computes NaN. This is
  broader than the source needs. Only two branches read the bids by ask
  index: the forward conversion against the ticker's pair and the reverse
  conversion along it. The requirement is nevertheless placed on every
  trigger-mode call.
- Optimizer.Optimize requires that its loop end: either `STEP` is positive,
  or the first size `MIN || STEP` is already above `MAX`. In the second case
  the loop body never runs and the result is `null` (`Ok(None)` here). With
  `STEP <= 0` and a first size within `MAX`, the source loop never ends.
- CycleDriver.CalculationNode.Cycle requires every triangle's books to meet
  the conditions above.
- Triangle.LegStaysWithinAvailable and Triangle.IntermediatesNeverShort are
  proved only for legs whose dust rounding does not round up. The rounding
  to 12 decimals can raise a value (`Dust.DustlessCanRoundUp`), and then a
  leg can spend slightly more than it was given.
- Dust.DustlessNeverUp is proved only for amounts with at most 12 fractional
  digits, for the same reason. Beyond 12 digits the overshoot is at most
  half a unit in the 12th decimal (`Dust.DustlessOvershoot`).
- Negative amounts: the walks are specified for any amount, but the sign
  and bound lemmas assume non-negative amounts and book quantities.
