# Market-making trader: a Dafny model

This project models the decision logic of a small market-making bot for a
simulated exchange in two revisions.

- The round-2 trader (`trader_round2.py`) keeps an exponential moving average
  (EMA, α = 0.5) of each product's mid-price and a history of two environmental
  series, sunlight and humidity. At each step it quotes three products:
  - AMETHYSTS around a fixed anchor of 10000;
  - STARFRUIT around its EMA, skewed by the sign of the position;
  - ORCHIDS from the signs of the ten-step differences of sunlight and humidity.

  Every rule sizes its bid so that position + quantity reaches +limit, and its
  ask so that it reaches −limit, except that the ORCHIDS ask for opposite
  signals is never below −100 and so stops short of −limit from a long
  position. The per-step driver `run` runs each rule on
  its own. A rule that raises leaves its product out of the step's result.
- The earlier trader (`trader.py`) has the same mid-price and EMA helpers and
  a simpler AMETHYSTS quote (±1 around the default price). It also has a
  cash/profit-and-loss accumulator over the trader's own trades and a `run`
  that applies the platform template's "acceptable price 10" rule to every
  book.

Modules:

- `Datamodel` (datamodel.dfy): the platform's types, `Order`, `OrderDepth`,
  `Trade`, `TradingState`, ...
- `Book` (book.dfy): the book helpers. The position lookup, the highest price
  of a side, `get_mid_price` and the EMA update are used by both
  revisions. The two source files carry copies of `get_mid_price` and
  `update_ema_price` that differ in comments and spacing, in the table of
  default prices, and in one extra log line at the end of the round-2
  `update_ema_price` (trader_round2.py:206). The model defines each helper
  once, takes the table as a parameter and leaves out the log line.
  `get_best_bid_ask` (`BestBidAsk`) and the lowest price of a side
  (`MinPrice`, which only `get_best_bid_ask` uses) belong to the round-2
  trader alone.
- `Logger` (logger.dfy): `truncate`.
- `TraderRound2` (trader_round2.dfy) and `TraderRound1` (trader_round1.dfy):
  one module per revision. Each has the quoting rules as functions and a
  `Trader` class. The class holds the fields the source updates in place, and
  its methods are proved against the functions.

Modelling choices:

- Each side of a book is the sequence of its dict's entries in insertion
  order, not a map. `trader.py`'s `run` reads "the first entry" of a side,
  which a map cannot express. The `max`/`min` of the prices is a recursive
  function proved to return the highest or lowest price.
- Prices on the book and in orders are `int`. The mid-price and the EMA are
  `real`, so there is no floating-point rounding. `math.floor` is `.Floor`,
  and `math.ceil` is written through `.Floor`.
- Python exceptions in a quoting rule become `None` in an `Option` result.
  Examples: comparing `None` with a number in the AMETHYSTS rule on a
  one-sided book; `None - 1` in the STARFRUIT rule before any EMA exists;
  `None + 1` in the mixed ORCHIDS branch.
- A dict that the source iterates (own trades, positions, books) is a Dafny
  map. Its loop takes the keys in an arbitrary order. The sums over it are
  ghost functions, with a lemma that the sum does not depend on which key
  comes first.

Where the documentation and the code differ, the model follows the code:

- `get_mid_price` averages the highest bid with the HIGHEST ask (`max` over
  the asks), although its docstring speaks of the best ask.
  `Book.MidPriceAtLeastBestMid` proves that this exceeds or equals the middle
  of the best bid and the best (lowest) ask.
- The EMA is updated at every step, not only when the book has a real
  mid-price: on a one-sided book the mid-price is the fallback.
  `Book.UpdatedEmaTracksMid` proves what that means. An existing EMA
  is left unchanged, and a missing one is seeded with the default price.

## Model

| member | source | states |
|---|---|---|
| `Book.Position` | trader_round2.py:151-152 | the held quantity of a product, 0 for one without an entry |
| `Book.MaxPrice` | trader_round2.py:193 | `max` over a non-empty side is one of its prices and no price there exceeds it |
| `Book.MinPrice` | trader_round2.py:194 | `min` over a non-empty side is one of its prices and no price there is below it |
| `Book.BestBidAsk` | trader_round2.py:186-195 | no result exactly when the product has no book or a side is empty; otherwise the highest bid price and the lowest ask price, both present on their sides |
| `Book.MidPrice` | trader_round2.py:165-181 | the fallback on a missing or one-sided book; otherwise the average of the highest bid and the highest ask |
| `Book.MidPriceAtLeastBestMid` | trader_round2.py:178-179 | taking `max` over the asks never gives less than the best-bid/best-ask middle, and gives exactly that when all asks share one price |
| `Book.EmaStep` | trader_round2.py:202-205 | the first update takes the mid-price; a later one lies between old EMA and mid-price, at equal distance from both (α = 0.5) |
| `Book.GetMidPrice` | trader_round2.py:154-181 | on a missing or one-sided book the EMA, or the default price while the EMA is `None`; otherwise the mid of the book; never `None` (`trader.py:62-88` is the same function) |
| `Book.EmaEntryLocal` | trader_round2.py:198-205 | a product's EMA update depends on no other product's EMA, so updating the table in place equals updating every entry from the old table |
| `Book.UpdatedEma` | trader_round2.py:197-205 | the EMA table keeps its products, and afterwards every product has an EMA, each one EMA step from the old value towards its mid-price (`trader.py:120-133` is the same update) |
| `Book.UpdatedEmaTracksMid` | trader_round2.py:197-205 | after one update: every EMA exists, the first equals the mid-price, a later one lies between old EMA and mid-price; on a one-sided book an existing EMA is unchanged and a missing one becomes the default price |
| `Book.MidPriceExample` | trader_round2.py:176-181 | bids {9, 10} and ask {12} give mid-price 11 |
| `Book.EmaStepExample` | trader_round2.py:205 | EMA 100 and mid-price 200 give EMA 150 |
| `Logger.PyPrefix` | trader_round2.py:127 | Python's `s[:k]`: its length for non-negative and negative `k`, and that it is a prefix of `s` |
| `Logger.Truncate` | trader_round2.py:123-127 | a value within the budget comes back unchanged; a longer one is a prefix of it followed by "..." and is exactly `max_length` long when `max_length >= 3` (longer otherwise, per Python's negative slicing) |
| `TraderRound2.Ceil` | trader_round2.py:257 | `math.ceil`: the least integer not below its argument |
| `TraderRound2.AmethystStrategy` | trader_round2.py:212-240 | fails exactly on a missing or one-sided book; otherwise two orders: a bid bringing the position to +20, then an ask bringing it to −20. Both best prices above 10000: buy at 10000, sell at the best bid. Both below: buy at the best ask, sell at 10000. Otherwise the prices are 10000 ∓ (min deviation − 1) and add up to 20000 |
| `TraderRound2.AmethystQuoteOrder` | trader_round2.py:224-238 | outside the straddle case the bid price is strictly below the ask price; in the straddle case the quote is crossed exactly when the smaller deviation is 0, and degenerate (bid = ask) exactly when it is 1 |
| `TraderRound2.AmethystAboveAnchorExample` | trader_round2.py:224-226 | best bid 10005 and best ask 10010 give a buy at 10000 for 20 − position and a sell at 10005 for −20 − position |
| `TraderRound2.StarfruitStrategy` | trader_round2.py:243-269 | fails exactly while the EMA is `None`; otherwise exactly two orders for any position (the three sign tests are disjoint and exhaustive): a bid to +20 and then an ask to −20, with bid price < ask price and the EMA between them; the prices are ⌊EMA − 1⌋ and ⌈EMA + 1⌉ when flat, ⌊EMA − 2⌋ and ⌈EMA⌉ when long, and ⌊EMA⌋ and ⌈EMA + 2⌉ when short |
| `TraderRound2.StarfruitSkew` | trader_round2.py:254-267 | at the same EMA a long position quotes strictly lower and a short one strictly higher than a flat one, on both sides |
| `TraderRound2.Deriv` | trader_round2.py:290-293 | a ten-step difference exists exactly when the series has at least ten samples |
| `TraderRound2.OrchidsSignal` | trader_round2.py:297-315 | the five cases are decided by the two differences: no history, both rising, both falling, opposite signs, or one of them zero |
| `TraderRound2.OrchidsStrategyAsWritten` | trader_round2.py:273-318 | fails exactly for opposite signs on a missing or one-sided book; no orders without history or with a zero difference; one order when both rise or both fall: `Order(ORCHIDS, best ask, bid_volume)` when rising and `Order(ORCHIDS, best bid, ask_volume)` when falling, whose price is `None` exactly when the book is missing or one-sided |
| `TraderRound2.OrchidsAsWrittenUnpricedOrder` | trader_round2.py:298-300 | an empty book with both series rising gives the order (ORCHIDS, None, 100) |
| `TraderRound2.OrchidsStrategy` | trader_round2.py:273-318 | no orders with fewer than ten samples or a zero difference; fails exactly for a non-zero signal on a missing or one-sided book; both rising: one buy at the best ask to +100; both falling: one sell at the best bid to −100; opposite signs: a buy at best bid + 1 to +100, then a sell at best ask − 1 whose quantity is the larger of the −100 cap and the volume to −100 |
| `TraderRound2.OrchidsStrategyCorrectsAsWritten` | trader_round2.py:298-311 | the corrected rule agrees with the rule as written wherever that one prices all its orders, and fails exactly where it would not |
| `TraderRound2.AmethystRespectsLimit` | trader_round2.py:215-218 | from any position, both AMETHYSTS orders keep position + quantity within ±20 |
| `TraderRound2.StarfruitRespectsLimit` | trader_round2.py:247-250 | from any position, both STARFRUIT orders keep position + quantity within ±20 |
| `TraderRound2.OrchidsRespectsLimit` | trader_round2.py:276-311 | when the ORCHIDS position is within ±100, every ORCHIDS order keeps position + quantity within ±100, the capped ask included |
| `TraderRound2.Collect` | trader_round2.py:419-438 | a product is in the step's result exactly when its rule did not fail, with that rule's orders, and no other product is |
| `TraderRound2.StepAlwaysQuotesStarfruit` | trader_round2.py:413-431 | once the EMAs are updated the STARFRUIT rule cannot fail, so STARFRUIT is always in the result |
| `TraderRound2.Trader.constructor` | trader_round2.py:132-148 | no EMA for any product, empty series, round 0 |
| `TraderRound2.Trader.UpdateEmaPrice` | trader_round2.py:197-205 | the loop over the products leaves exactly the table `UpdatedEma` describes |
| `TraderRound2.Trader.Run` | trader_round2.py:409-449 | the round grows by one; the EMAs are updated; each series gets exactly this step's sample appended; the result is `Collect` of the three rules run on the updated state, with the corrected ORCHIDS rule (see "## Left out"), so always has STARFRUIT; conversions 0 and "SAMPLE" |
| `TraderRound1.GetValueOnProduct` | trader.py:62-94 | fails (the `KeyError` of the EMA lookup) exactly for a product without an EMA entry; otherwise position times mid-price: zero for a product not held, position × EMA on a missing or one-sided book with an EMA, position × the default price on such a book without one, position × the book's mid on a two-sided book |
| `TraderRound1.TradeCash` | trader.py:103-109 | a trade not stamped at the previous step changes nothing; buying pays quantity × price, selling receives it, a trade with the trader on both or neither side changes nothing |
| `TraderRound1.CashDeltaAppend` | trader.py:102-109 | the cash change of two trade lists booked in sequence is the sum of their changes |
| `TraderRound1.CashDeltaIgnoresOtherSteps` | trader.py:103-104 | trades stamped at other times leave cash unchanged |
| `TraderRound1.CashOverRemove` | trader.py:101-102 | the cash change over all products does not depend on the order the products are visited in |
| `TraderRound1.ValueOverRemove` | trader.py:113-114 | the value over all held products does not depend on the order they are visited in |
| `TraderRound1.AmethystStrategy` | trader.py:136-157 | always exactly two orders: a bid at 9999 bringing the position to +20, then an ask at 10001 bringing it to −20 |
| `TraderRound1.TemplateOrders` | trader.py:170-189 | at most two orders: a buy of the first ask level (for minus its amount) exactly when its price is below 10, then a sell of the first bid level (for minus its amount) exactly when its price is above 10; never an order at 10 |
| `TraderRound1.Trader.constructor` | trader.py:28-52 | cash 0 and no EMA for either product |
| `TraderRound1.Trader.UpdateCash` | trader.py:100-109 | the nested loops add to cash exactly the trade-by-trade change over all products' own trades of the previous step |
| `TraderRound1.Trader.GetValueOnPosition` | trader.py:111-115 | fails exactly when some held product has no EMA entry; otherwise the loop returns the sum over held products of position × mid-price |
| `TraderRound1.Trader.UpdatePnl` | trader.py:96-118 | cash gets the previous step's trades (also when the value lookup then fails), the EMAs stay as they were; the result fails exactly when some held product has no EMA entry, and is otherwise the new cash plus the value of all positions |
| `TraderRound1.Trader.UpdateEmaPrice` | trader.py:120-133 | the loop over the products leaves exactly the table `UpdatedEma` describes |
| `TraderRound1.Trader.Run` | trader.py:160-195 | one entry per book and no other, each holding that book's template orders (at most two); conversions 1 and "SAMPLE" |

## Left out

- Output serialisation (`Logger.flush`, `compress_*`, `to_json`, `Logger.print`, trader_round2.py:31-121) and every `print`: JSON through the platform's encoder and debugging output only.
- The commented-out ORCHIDS regression strategies (trader_round2.py:321-404): they are string literals, not code.
- `int(round(get_mid_price(ORCHIDS, ...)))` at trader_round2.py:284: its result is never used and it cannot raise.
- `if mid_price is None: continue` in both `update_ema_price` loops: the mid-price is never `None`, so the branch is dead.
- Floating point: the mid-price, the EMA and the sunlight and humidity samples are exact reals.
- The never-read fields `past_prices`, `cash` and `theta` of the round-2 trader, and `round` and `past_prices` of the earlier one. The read-only `position_limit` and `ema_param` are module constants.
- The platform's `datamodel` module, the exchange, position accounting and the observation feed are not part of this model. Only the fields the trader reads are kept. The `conversionObservations[ORCHIDS]` lookup in round-2 `run`, made outside any `try`, is a precondition.
- `TraderRound2.Trader.Run`: the result is built from the corrected ORCHIDS rule `OrchidsStrategy`, not from the rule as written (see "## Findings"). Where they differ, the source's `run` returns `result[ORCHIDS] = [Order(ORCHIDS, None, 100 - position)]` (trader_round2.py:300 and :436), while the model's result has no ORCHIDS entry. This happens with ten or more samples, both ten-step differences positive, and no or a one-sided ORCHIDS book (both negative gives the matching unpriced sell). The as-written rule is modelled and its divergence proved by `OrchidsStrategyCorrectsAsWritten`.
- `TraderRound1.Trader.Run`: nothing is said about the signs of the emitted quantities. They depend on the platform's convention that ask amounts are negative, which the model does not assume.

## Findings

| source | as written | input that shows it | evidently intended | confidence | as-written member | corrected member |
|---|---|---|---|---|---|---|
| trader_round2.py:298-304 | when both ten-step differences are positive (or both negative), the ORCHIDS rule builds `Order(ORCHIDS, best_ask, ...)` (or `best_bid`) without checking that `get_best_bid_ask` found a price | no ORCHIDS book (or a one-sided one), sunlight and humidity both 0, 1, …, 9, flat position: the rule returns `[Order(ORCHIDS, None, 100)]` and raises nothing | no order at a price the book does not have; the model lets the rule fail, as the opposite-sign branch already does on such a book | not executed; the unpriced order follows directly from the code, the intended behaviour is inferred | `TraderRound2.OrchidsStrategyAsWritten`, `TraderRound2.OrchidsAsWrittenUnpricedOrder` | `TraderRound2.OrchidsStrategy`, `TraderRound2.OrchidsStrategyCorrectsAsWritten` |
