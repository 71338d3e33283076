/**
 * The earlier trader: EMA and mid-price helpers, a cash and profit-and-loss
 * accumulator over the trader's own trades, the fixed AMETHYSTS quote, and a
 * driver that applies the platform template's acceptable-price rule to every
 * book.
 */
module TraderRound1 {
  import opened Wrappers
  import opened Datamodel
  import opened Book

  const AMETHYSTS: Symbol := "AMETHYSTS"
  const STARFRUIT: Symbol := "STARFRUIT"
  /** The name the exchange gives this trader in trades. */
  const SUBMISSION: string := "SUBMISSION"

  /** The products, in the order the EMA update visits them. */
  const PRODUCTS: seq<Symbol> := [AMETHYSTS, STARFRUIT]
  const PRODUCT_SET: set<Symbol> := {AMETHYSTS, STARFRUIT}

  const DEFAULT_PRICES: map<Symbol, int> := map[AMETHYSTS := 10_000, STARFRUIT := 5_000]
  const POSITION_LIMIT: map<Symbol, int> := map[AMETHYSTS := 20, STARFRUIT := 20]

  /** The template driver buys below and sells above this price. */
  const ACCEPTABLE_PRICE: int := 10

  /** How far back, in exchange time, the previous step's trades are stamped. */
  const STEP: int := 100

  predicate ValidEma(ema: map<Symbol, Option<real>>)
  {
    ema.Keys == PRODUCT_SET
  }

  // ---------------------------------------------------------------- reference price

  /**
   * `get_value_on_product`: the money held in a product, position times
   * mid-price. The EMA lookup in `get_mid_price` raises for a product without
   * an EMA entry, whether or not it is held; that failure is `None`.
   */
  function GetValueOnProduct(ema: map<Symbol, Option<real>>, product: Symbol, state: TradingState): (r: Option<real>)
    requires ValidEma(ema)
    ensures r.None? <==> product !in PRODUCT_SET
    ensures r.Some? && product !in state.position ==> r.value == 0.0
    ensures r.Some? && !TwoSided(state.orderDepths, product) && ema[product].Some? ==>
      r.value == Position(state, product) as real * ema[product].value
    ensures r.Some? && !TwoSided(state.orderDepths, product) && ema[product].None? ==>
      r.value == Position(state, product) as real * DEFAULT_PRICES[product] as real
    ensures r.Some? && TwoSided(state.orderDepths, product) ==>
      exists mid :: IsMidOfBook(mid, state.orderDepths[product]) && r.value == Position(state, product) as real * mid
  {
    if product !in ema then None
    else
      var mid := GetMidPrice(ema, DEFAULT_PRICES, product, state);
      assert TwoSided(state.orderDepths, product) ==> IsMidOfBook(mid, state.orderDepths[product]);
      Some(Position(state, product) as real * mid)
  }

  // ---------------------------------------------------------------- cash and PnL

  /**
   * What one own trade does to cash: nothing unless it is stamped at
   * `timestamp`; then buying pays `quantity * price` and selling receives it
   * (a trade with the trader on both sides does both).
   */
  function TradeCash(t: Trade, timestamp: int): (r: int)
    ensures t.timestamp != timestamp ==> r == 0
    ensures t.timestamp == timestamp && t.buyer == SUBMISSION && t.seller != SUBMISSION ==> r == -(t.quantity * t.price)
    ensures t.timestamp == timestamp && t.seller == SUBMISSION && t.buyer != SUBMISSION ==> r == t.quantity * t.price
    ensures t.buyer != SUBMISSION && t.seller != SUBMISSION ==> r == 0
    ensures t.buyer == SUBMISSION && t.seller == SUBMISSION ==> r == 0
  {
    if t.timestamp != timestamp then 0
    else
      (if t.buyer == SUBMISSION then -(t.quantity * t.price) else 0) +
      (if t.seller == SUBMISSION then t.quantity * t.price else 0)
  }

  /** The cash change from one product's list of own trades, in list order. */
  function CashDelta(trades: seq<Trade>, timestamp: int): int
  {
    if trades == [] then 0
    else CashDelta(trades[..|trades| - 1], timestamp) + TradeCash(trades[|trades| - 1], timestamp)
  }

  /** The cash change of two lists run one after the other is the sum of their changes. */
  lemma {:induction false} CashDeltaAppend(xs: seq<Trade>, ys: seq<Trade>, timestamp: int)
    ensures CashDelta(xs + ys, timestamp) == CashDelta(xs, timestamp) + CashDelta(ys, timestamp)
    decreases |ys|
  {
    if ys != [] {
      assert (xs + ys)[..|xs + ys| - 1] == xs + ys[..|ys| - 1];
      CashDeltaAppend(xs, ys[..|ys| - 1], timestamp);
    } else {
      assert xs + ys == xs;
    }
  }

  /** Trades stamped at any other time than `timestamp` leave cash unchanged. */
  lemma {:induction false} CashDeltaIgnoresOtherSteps(trades: seq<Trade>, timestamp: int)
    requires forall t :: t in trades ==> t.timestamp != timestamp
    ensures CashDelta(trades, timestamp) == 0
  {
    if trades != [] {
      var init := trades[..|trades| - 1];
      assert forall t :: t in init ==> t in trades;
      CashDeltaIgnoresOtherSteps(init, timestamp);
    }
  }

  /** The cash change from the trade lists of a set of products (a dict visited in any order). */
  ghost function CashOver(keys: set<Symbol>, ownTrades: map<Symbol, seq<Trade>>, timestamp: int): int
    requires keys <= ownTrades.Keys
    decreases keys
  {
    if keys == {} then 0
    else
      var p :| p in keys;
      CashDelta(ownTrades[p], timestamp) + CashOver(keys - {p}, ownTrades, timestamp)
  }

  /** The sum does not depend on which product is visited first. */
  lemma {:induction false} CashOverRemove(keys: set<Symbol>, ownTrades: map<Symbol, seq<Trade>>, timestamp: int, p: Symbol)
    requires keys <= ownTrades.Keys && p in keys
    ensures CashOver(keys, ownTrades, timestamp) == CashDelta(ownTrades[p], timestamp) + CashOver(keys - {p}, ownTrades, timestamp)
    decreases keys
  {
    var q :| q in keys && CashOver(keys, ownTrades, timestamp) == CashDelta(ownTrades[q], timestamp) + CashOver(keys - {q}, ownTrades, timestamp);
    if q != p {
      CashOverRemove(keys - {q}, ownTrades, timestamp, p);
      CashOverRemove(keys - {p}, ownTrades, timestamp, q);
      assert keys - {q} - {p} == keys - {p} - {q};
    }
  }

  /** The money held over a set of products (a dict visited in any order). */
  ghost function ValueOver(ema: map<Symbol, Option<real>>, keys: set<Symbol>, state: TradingState): real
    requires ValidEma(ema) && keys <= PRODUCT_SET
    decreases keys
  {
    if keys == {} then 0.0
    else
      var p :| p in keys;
      GetValueOnProduct(ema, p, state).value + ValueOver(ema, keys - {p}, state)
  }

  lemma {:induction false} ValueOverRemove(ema: map<Symbol, Option<real>>, keys: set<Symbol>, state: TradingState, p: Symbol)
    requires ValidEma(ema) && keys <= PRODUCT_SET && p in keys
    ensures ValueOver(ema, keys, state) == GetValueOnProduct(ema, p, state).value + ValueOver(ema, keys - {p}, state)
    decreases keys
  {
    var q :| q in keys && ValueOver(ema, keys, state) == GetValueOnProduct(ema, q, state).value + ValueOver(ema, keys - {q}, state);
    if q != p {
      ValueOverRemove(ema, keys - {q}, state, p);
      ValueOverRemove(ema, keys - {p}, state, q);
      assert keys - {q} - {p} == keys - {p} - {q};
    }
  }

  // ---------------------------------------------------------------- strategies

  /**
   * `amethyst_strategy`: always a bid one below the default price sized to
   * reach `+limit`, then an ask one above it sized to reach `-limit`.
   */
  function AmethystStrategy(state: TradingState): (r: seq<Order>)
    ensures |r| == 2 && r[0].symbol == AMETHYSTS && r[1].symbol == AMETHYSTS
    ensures r[0].price < DEFAULT_PRICES[AMETHYSTS] < r[1].price
    ensures r[1].price - r[0].price == 2
    ensures Position(state, AMETHYSTS) + r[0].quantity == POSITION_LIMIT[AMETHYSTS]
    ensures Position(state, AMETHYSTS) + r[1].quantity == -POSITION_LIMIT[AMETHYSTS]
  {
    var position := Position(state, AMETHYSTS);
    var bidVolume := POSITION_LIMIT[AMETHYSTS] - position;
    var askVolume := -POSITION_LIMIT[AMETHYSTS] - position;
    [Order(AMETHYSTS, DEFAULT_PRICES[AMETHYSTS] - 1, bidVolume), Order(AMETHYSTS, DEFAULT_PRICES[AMETHYSTS] + 1, askVolume)]
  }

  /**
   * The body of `run`'s loop for one book: buy the first-listed ask level if it
   * is below the acceptable price, then sell the first-listed bid level if it is
   * above it, each for the negated listed amount.
   */
  function TemplateOrders(product: Symbol, depth: OrderDepth): (r: seq<Order>)
    ensures |r| == (if |depth.sellOrders| > 0 && depth.sellOrders[0].price < ACCEPTABLE_PRICE then 1 else 0) +
                   (if |depth.buyOrders| > 0 && depth.buyOrders[0].price > ACCEPTABLE_PRICE then 1 else 0)
    ensures forall o :: o in r ==> o.symbol == product && o.price != ACCEPTABLE_PRICE
    ensures |depth.sellOrders| > 0 && depth.sellOrders[0].price < ACCEPTABLE_PRICE ==>
      r[0] == Order(product, depth.sellOrders[0].price, -depth.sellOrders[0].quantity)
    ensures |depth.buyOrders| > 0 && depth.buyOrders[0].price > ACCEPTABLE_PRICE ==>
      r[|r| - 1] == Order(product, depth.buyOrders[0].price, -depth.buyOrders[0].quantity)
    ensures |r| == 2 ==> r[0].price < ACCEPTABLE_PRICE < r[1].price
  {
    var buy := if |depth.sellOrders| > 0 && depth.sellOrders[0].price < ACCEPTABLE_PRICE
      then [Order(product, depth.sellOrders[0].price, -depth.sellOrders[0].quantity)] else [];
    var sell := if |depth.buyOrders| > 0 && depth.buyOrders[0].price > ACCEPTABLE_PRICE
      then [Order(product, depth.buyOrders[0].price, -depth.buyOrders[0].quantity)] else [];
    buy + sell
  }

  /** The trader's state between steps (the never-read `round` and `past_prices` are not kept). */
  class Trader {
    var cash: int
    var emaPrices: map<Symbol, Option<real>>

    ghost predicate Valid()
      reads this
    {
      ValidEma(emaPrices)
    }

    constructor ()
      ensures Valid()
      ensures cash == 0 && emaPrices == map[AMETHYSTS := None, STARFRUIT := None]
    {
      cash := 0;
      emaPrices := map[AMETHYSTS := None, STARFRUIT := None];
    }

    /**
     * `update_cash`: visit every product's own trades and book the ones of the
     * previous step (stamped `timestamp - 100`).
     */
    method UpdateCash(state: TradingState)
      modifies this`cash
      ensures cash == old(cash) + CashOver(state.ownTrades.Keys, state.ownTrades, state.timestamp - STEP)
    {
      var timestamp := state.timestamp - STEP;
      var remaining := state.ownTrades.Keys;
      while remaining != {}
        invariant remaining <= state.ownTrades.Keys
        invariant cash + CashOver(remaining, state.ownTrades, timestamp) ==
          old(cash) + CashOver(state.ownTrades.Keys, state.ownTrades, timestamp)
        decreases remaining
      {
        var product :| product in remaining;
        CashOverRemove(remaining, state.ownTrades, timestamp, product);
        var trades := state.ownTrades[product];
        ghost var before := cash;
        var i := 0;
        while i < |trades|
          invariant 0 <= i <= |trades|
          invariant cash == before + CashDelta(trades[..i], timestamp)
        {
          var trade := trades[i];
          if trade.timestamp == timestamp {
            if trade.buyer == SUBMISSION {
              cash := cash - trade.quantity * trade.price;
            }
            if trade.seller == SUBMISSION {
              cash := cash + trade.quantity * trade.price;
            }
          }
          assert trades[..i + 1][..i] == trades[..i];
          i := i + 1;
        }
        assert trades[..i] == trades;
        remaining := remaining - {product};
      }
    }

    /**
     * `get_value_on_position`: the money held over every product with a
     * position; it raises as soon as it meets a held product without an EMA
     * entry.
     */
    method GetValueOnPosition(state: TradingState) returns (value: Option<real>)
      requires Valid()
      ensures value.None? <==> !(state.position.Keys <= PRODUCT_SET)
      ensures value.Some? ==> value.value == ValueOver(emaPrices, state.position.Keys, state)
    {
      var sum := 0.0;
      var remaining := state.position.Keys;
      while remaining != {}
        invariant remaining <= state.position.Keys
        invariant state.position.Keys - remaining <= PRODUCT_SET
        invariant state.position.Keys <= PRODUCT_SET ==>
          sum + ValueOver(emaPrices, remaining, state) == ValueOver(emaPrices, state.position.Keys, state)
        decreases remaining
      {
        var product :| product in remaining;
        var v := GetValueOnProduct(emaPrices, product, state);
        if v.None? {
          return None;
        }
        if state.position.Keys <= PRODUCT_SET {
          ValueOverRemove(emaPrices, remaining, state, product);
        }
        sum := sum + v.value;
        remaining := remaining - {product};
      }
      value := Some(sum);
    }

    /**
     * `update_pnl`: book the previous step's trades into cash, then return cash
     * plus the money held in positions. The value lookup fails for a held
     * product without an EMA entry, after cash has already been updated.
     */
    method UpdatePnl(state: TradingState) returns (pnl: Option<real>)
      requires Valid()
      modifies this`cash
      ensures Valid() && emaPrices == old(emaPrices)
      ensures cash == old(cash) + CashOver(state.ownTrades.Keys, state.ownTrades, state.timestamp - STEP)
      ensures pnl.None? <==> !(state.position.Keys <= PRODUCT_SET)
      ensures pnl.Some? ==> pnl.value == cash as real + ValueOver(emaPrices, state.position.Keys, state)
    {
      UpdateCash(state);
      var value := GetValueOnPosition(state);
      pnl := if value.Some? then Some(cash as real + value.value) else None;
    }

    /** `update_ema_price`: one pass over the products, each EMA moved towards its mid-price. */
    method UpdateEmaPrice(state: TradingState)
      requires Valid()
      modifies this`emaPrices
      ensures Valid()
      ensures emaPrices == UpdatedEma(old(emaPrices), DEFAULT_PRICES, state)
    {
      ghost var prev := emaPrices;
      var i := 0;
      while i < |PRODUCTS|
        invariant 0 <= i <= |PRODUCTS|
        invariant emaPrices.Keys == prev.Keys
        invariant forall p :: p in emaPrices ==>
          emaPrices[p] == if p in PRODUCTS[..i] then EmaEntry(prev, DEFAULT_PRICES, p, state) else prev[p]
      {
        var product := PRODUCTS[i];
        assert product !in PRODUCTS[..i];
        var mid := GetMidPrice(emaPrices, DEFAULT_PRICES, product, state);
        ghost var updated := Some(EmaStep(emaPrices[product], mid));
        assert updated == EmaEntry(emaPrices, DEFAULT_PRICES, product, state);
        EmaEntryLocal(emaPrices, prev, DEFAULT_PRICES, product, state);
        emaPrices := emaPrices[product := Some(EmaStep(emaPrices[product], mid))];
        assert PRODUCTS[..i + 1] == PRODUCTS[..i] + [product];
        i := i + 1;
      }
      assert PRODUCTS[..i] == PRODUCTS;
    }

    /**
     * `run` of this revision: one entry per book, holding the template's
     * orders for it; it neither reads nor changes the trader's fields.
     */
    method Run(state: TradingState) returns (result: map<Symbol, seq<Order>>, conversions: int, traderData: string)
      ensures result.Keys == state.orderDepths.Keys
      ensures forall p :: p in result ==> result[p] == TemplateOrders(p, state.orderDepths[p])
      ensures forall p :: p in result ==> |result[p]| <= 2
      ensures conversions == 1 && traderData == "SAMPLE"
    {
      result := map[];
      var remaining := state.orderDepths.Keys;
      while remaining != {}
        invariant remaining <= state.orderDepths.Keys
        invariant result.Keys == state.orderDepths.Keys - remaining
        invariant forall p :: p in result ==> result[p] == TemplateOrders(p, state.orderDepths[p])
        decreases remaining
      {
        var product :| product in remaining;
        var depth := state.orderDepths[product];
        var orders: seq<Order> := [];
        if |depth.sellOrders| != 0 {
          var bestAsk := depth.sellOrders[0];
          if bestAsk.price < ACCEPTABLE_PRICE {
            orders := orders + [Order(product, bestAsk.price, -bestAsk.quantity)];
          }
        }
        if |depth.buyOrders| != 0 {
          var bestBid := depth.buyOrders[0];
          if bestBid.price > ACCEPTABLE_PRICE {
            orders := orders + [Order(product, bestBid.price, -bestBid.quantity)];
          }
        }
        assert orders == TemplateOrders(product, depth);
        result := result[product := orders];
        remaining := remaining - {product};
      }
      conversions := 1;
      traderData := "SAMPLE";
    }
  }
}
