/**
 * The round-2 trader: an EMA per product, the sunlight and humidity series
 * for ORCHIDS, three per-product quoting rules and the per-step driver that
 * isolates a failing rule from the others.
 */
module TraderRound2 {
  import opened Wrappers
  import opened Datamodel
  import opened Book

  const AMETHYSTS: Symbol := "AMETHYSTS"
  const STARFRUIT: Symbol := "STARFRUIT"
  const ORCHIDS: Symbol := "ORCHIDS"

  /** The products, in the order the EMA update visits them. */
  const PRODUCTS: seq<Symbol> := [AMETHYSTS, STARFRUIT, ORCHIDS]
  const PRODUCT_SET: set<Symbol> := {AMETHYSTS, STARFRUIT, ORCHIDS}

  const DEFAULT_PRICES: map<Symbol, int> := map[AMETHYSTS := 10_000, STARFRUIT := 5_000, ORCHIDS := 1_100]
  const POSITION_LIMIT: map<Symbol, int> := map[AMETHYSTS := 20, STARFRUIT := 20, ORCHIDS := 100]

  /** The ask quantity of the two-sided ORCHIDS quote is never below this. */
  const ORCHIDS_ASK_FLOOR: int := -100

  /** Number of samples back that the ORCHIDS signal looks. */
  const LOOKBACK: nat := 10

  /** The EMA table holds exactly one entry per product. */
  predicate ValidEma(ema: map<Symbol, Option<real>>)
  {
    ema.Keys == PRODUCT_SET
  }

  /** Every order keeps `position + quantity` within `[-limit, limit]`. */
  predicate Respects(orders: seq<Order>, position: int, limit: int)
  {
    forall o :: o in orders ==> -limit <= position + o.quantity <= limit
  }

  function Max(a: int, b: int): int { if a >= b then a else b }
  function Min(a: int, b: int): int { if a <= b then a else b }
  function Abs(a: int): int { if a >= 0 then a else -a }

  /** Python's `math.ceil`, written through `Floor`. */
  function Ceil(x: real): (r: int)
    ensures x <= r as real < x + 1.0
  {
    -((-x).Floor)
  }

  // ---------------------------------------------------------------- AMETHYSTS

  /** The anchor of the AMETHYSTS rule, `DEFAULT_PRICES[AMETHYSTS]`. */
  function Anchor(): int { DEFAULT_PRICES[AMETHYSTS] }

  /**
   * `amethyst_strategy`: fails (the comparison against `None` raises) unless the
   * book is two-sided; otherwise a bid sized to reach `+limit` followed by an
   * ask sized to reach `-limit`, priced by where the best bid and ask sit
   * against the anchor.
   */
  function AmethystStrategy(state: TradingState): (r: Option<seq<Order>>)
    ensures r.Some? <==> TwoSided(state.orderDepths, AMETHYSTS)
    ensures r.Some? ==> |r.value| == 2 && r.value[0].symbol == AMETHYSTS && r.value[1].symbol == AMETHYSTS
    ensures r.Some? ==> Position(state, AMETHYSTS) + r.value[0].quantity == POSITION_LIMIT[AMETHYSTS]
    ensures r.Some? ==> Position(state, AMETHYSTS) + r.value[1].quantity == -POSITION_LIMIT[AMETHYSTS]
    ensures r.Some? ==> var best := BestBidAsk(state.orderDepths, AMETHYSTS).value;
      (best.bid > Anchor() && best.ask > Anchor() ==>
        r.value[0].price == Anchor() && r.value[1].price == best.bid) &&
      (best.bid < Anchor() && best.ask < Anchor() ==>
        r.value[0].price == best.ask && r.value[1].price == Anchor()) &&
      (!(best.bid > Anchor() && best.ask > Anchor()) && !(best.bid < Anchor() && best.ask < Anchor()) ==>
        r.value[0].price + r.value[1].price == 2 * Anchor() &&
        Anchor() - r.value[0].price == Min(Abs(best.bid - Anchor()), Abs(Anchor() - best.ask)) - 1)
  {
    var position := Position(state, AMETHYSTS);
    var bidVolume := POSITION_LIMIT[AMETHYSTS] - position;
    var askVolume := -POSITION_LIMIT[AMETHYSTS] - position;
    match BestBidAsk(state.orderDepths, AMETHYSTS)
    case None => None
    case Some(best) =>
      if best.bid > Anchor() && best.ask > Anchor() then
        Some([Order(AMETHYSTS, Anchor(), bidVolume), Order(AMETHYSTS, best.bid, askVolume)])
      else if best.bid < Anchor() && best.ask < Anchor() then
        Some([Order(AMETHYSTS, best.ask, bidVolume), Order(AMETHYSTS, Anchor(), askVolume)])
      else
        var minDiff := Min(Abs(best.bid - Anchor()), Abs(Anchor() - best.ask));
        Some([Order(AMETHYSTS, Anchor() - minDiff + 1, bidVolume), Order(AMETHYSTS, Anchor() + minDiff - 1, askVolume)])
  }

  /**
   * The order of the two AMETHYSTS prices: when the book sits wholly above or
   * wholly below the anchor the bid is strictly below the ask; when it
   * straddles the anchor the quotes are crossed exactly when the smaller
   * deviation is zero (a best price on the anchor), and coincide when it is one.
   */
  lemma AmethystQuoteOrder(state: TradingState)
    requires TwoSided(state.orderDepths, AMETHYSTS)
    ensures var orders, best := AmethystStrategy(state).value, BestBidAsk(state.orderDepths, AMETHYSTS).value;
      var minDiff := Min(Abs(best.bid - Anchor()), Abs(Anchor() - best.ask));
      ((best.bid > Anchor() && best.ask > Anchor()) || (best.bid < Anchor() && best.ask < Anchor()) ==>
        orders[0].price < orders[1].price) &&
      (!(best.bid > Anchor() && best.ask > Anchor()) && !(best.bid < Anchor() && best.ask < Anchor()) ==>
        (orders[0].price > orders[1].price <==> minDiff == 0) &&
        (orders[0].price == orders[1].price <==> minDiff == 1))
  {
  }

  /** Best bid 10005 and best ask 10010, both above the anchor: buy at the anchor, sell at the best bid. */
  lemma AmethystAboveAnchorExample(position: int)
    ensures var state := TradingState(0, map[AMETHYSTS := OrderDepth([Level(10005, 3)], [Level(10010, -2)])],
        map[], map[AMETHYSTS := position], Observation(map[]));
      AmethystStrategy(state) == Some([Order(AMETHYSTS, 10_000, 20 - position), Order(AMETHYSTS, 10005, -20 - position)])
  {
  }

  // ---------------------------------------------------------------- STARFRUIT

  /**
   * `starfruit_strategy`: fails while the STARFRUIT EMA is `None`; otherwise
   * three independent `if`s on the sign of the position, of which exactly one
   * fires, each adding a bid and an ask around the EMA (flat: ±1, long: both
   * shifted down one, short: both shifted up one).
   */
  function StarfruitStrategy(state: TradingState, ema: Option<real>): (r: Option<seq<Order>>)
    ensures r.Some? <==> ema.Some?
    ensures r.Some? ==> |r.value| == 2 && r.value[0].symbol == STARFRUIT && r.value[1].symbol == STARFRUIT
    ensures r.Some? ==> Position(state, STARFRUIT) + r.value[0].quantity == POSITION_LIMIT[STARFRUIT]
    ensures r.Some? ==> Position(state, STARFRUIT) + r.value[1].quantity == -POSITION_LIMIT[STARFRUIT]
    ensures r.Some? ==> r.value[0].price < r.value[1].price
    ensures r.Some? ==> r.value[0].price as real <= ema.value <= r.value[1].price as real
    ensures r.Some? && Position(state, STARFRUIT) == 0 ==>
      r.value[0].price == (ema.value - 1.0).Floor && r.value[1].price == Ceil(ema.value + 1.0)
    ensures r.Some? && Position(state, STARFRUIT) > 0 ==>
      r.value[0].price == (ema.value - 2.0).Floor && r.value[1].price == Ceil(ema.value)
    ensures r.Some? && Position(state, STARFRUIT) < 0 ==>
      r.value[0].price == ema.value.Floor && r.value[1].price == Ceil(ema.value + 2.0)
  {
    match ema
    case None => None
    case Some(e) =>
      var position := Position(state, STARFRUIT);
      var bidVolume := POSITION_LIMIT[STARFRUIT] - position;
      var askVolume := -POSITION_LIMIT[STARFRUIT] - position;
      var flat := if position == 0 then
          [Order(STARFRUIT, (e - 1.0).Floor, bidVolume), Order(STARFRUIT, Ceil(e + 1.0), askVolume)]
        else [];
      var long := if position > 0 then
          [Order(STARFRUIT, (e - 2.0).Floor, bidVolume), Order(STARFRUIT, Ceil(e), askVolume)]
        else [];
      var short := if position < 0 then
          [Order(STARFRUIT, e.Floor, bidVolume), Order(STARFRUIT, Ceil(e + 2.0), askVolume)]
        else [];
      Some(flat + long + short)
  }

  /**
   * The position skew: at the same EMA a long book quotes strictly lower, and
   * a short book strictly higher, than a flat one, on both sides.
   */
  lemma StarfruitSkew(flat: TradingState, long: TradingState, short: TradingState, e: real)
    requires Position(flat, STARFRUIT) == 0 && Position(long, STARFRUIT) > 0 && Position(short, STARFRUIT) < 0
    ensures var f, l, s := StarfruitStrategy(flat, Some(e)).value, StarfruitStrategy(long, Some(e)).value,
        StarfruitStrategy(short, Some(e)).value;
      l[0].price < f[0].price < s[0].price && l[1].price < f[1].price < s[1].price
  {
    var f, l, s := StarfruitStrategy(flat, Some(e)).value, StarfruitStrategy(long, Some(e)).value,
      StarfruitStrategy(short, Some(e)).value;
    assert f[0].price == (e - 1.0).Floor && f[1].price == Ceil(e + 1.0);
    assert l[0].price == (e - 2.0).Floor && l[1].price == Ceil(e);
    assert s[0].price == e.Floor && s[1].price == Ceil(e + 2.0);
  }

  // ---------------------------------------------------------------- ORCHIDS

  /** `series[-1] - series[-10]`, or `None` with fewer than ten samples. */
  function Deriv(series: seq<real>): (r: Option<real>)
    ensures r.Some? <==> |series| >= LOOKBACK
  {
    if |series| >= LOOKBACK then Some(series[|series| - 1] - series[|series| - LOOKBACK]) else None
  }

  /** The direction the two ten-step differences point in, as the ORCHIDS rule reads them. */
  datatype Signal = NoHistory | Rising | Falling | Mixed | Flat

  function OrchidsSignal(sunlight: seq<real>, humidity: seq<real>): (r: Signal)
    ensures r == NoHistory <==> |sunlight| < LOOKBACK || |humidity| < LOOKBACK
    ensures r == Rising <==> (Deriv(sunlight).Some? && Deriv(humidity).Some? &&
      Deriv(sunlight).value > 0.0 && Deriv(humidity).value > 0.0)
    ensures r == Falling <==> (Deriv(sunlight).Some? && Deriv(humidity).Some? &&
      Deriv(sunlight).value < 0.0 && Deriv(humidity).value < 0.0)
    ensures r == Mixed <==> (Deriv(sunlight).Some? && Deriv(humidity).Some? &&
      ((Deriv(sunlight).value > 0.0 && Deriv(humidity).value < 0.0) ||
       (Deriv(sunlight).value < 0.0 && Deriv(humidity).value > 0.0)))
    ensures r == Flat <==> (Deriv(sunlight).Some? && Deriv(humidity).Some? &&
      (Deriv(sunlight).value == 0.0 || Deriv(humidity).value == 0.0))
  {
    match (Deriv(sunlight), Deriv(humidity))
    case (Some(s), Some(h)) =>
      if s > 0.0 && h > 0.0 then Rising
      else if s < 0.0 && h < 0.0 then Falling
      else if s * h < 0.0 then Mixed
      else Flat
    case _ => NoHistory
  }

  /** An order as the source builds it, whose price may be the `None` of `get_best_bid_ask`. */
  datatype RawOrder = RawOrder(symbol: Symbol, price: Option<int>, quantity: int)

  /** The ORCHIDS bid and ask volumes: to `+limit`, and to `-limit` but never below -100. */
  function OrchidsBidVolume(state: TradingState): int
  {
    POSITION_LIMIT[ORCHIDS] - Position(state, ORCHIDS)
  }

  function OrchidsAskVolume(state: TradingState): int
  {
    -POSITION_LIMIT[ORCHIDS] - Position(state, ORCHIDS)
  }

  /**
   * `orchids_strategy` exactly as written. The rising and falling branches put
   * the bare best ask or best bid into the order, which is `None` on a missing
   * or one-sided book; only the mixed branch raises there (`None + 1`).
   */
  function OrchidsStrategyAsWritten(state: TradingState, sunlight: seq<real>, humidity: seq<real>): (r: Option<seq<RawOrder>>)
    ensures r.None? <==> OrchidsSignal(sunlight, humidity) == Mixed && !TwoSided(state.orderDepths, ORCHIDS)
    ensures r.Some? && OrchidsSignal(sunlight, humidity) in {NoHistory, Flat} ==> r.value == []
    ensures OrchidsSignal(sunlight, humidity) == Rising ==>
      r.Some? && |r.value| == 1 && (r.value[0].price.None? <==> !TwoSided(state.orderDepths, ORCHIDS))
    ensures OrchidsSignal(sunlight, humidity) == Falling ==>
      r.Some? && |r.value| == 1 && (r.value[0].price.None? <==> !TwoSided(state.orderDepths, ORCHIDS))
    ensures OrchidsSignal(sunlight, humidity) == Rising ==>
      r == Some([RawOrder(ORCHIDS, if TwoSided(state.orderDepths, ORCHIDS)
                                   then Some(BestBidAsk(state.orderDepths, ORCHIDS).value.ask) else None,
                          OrchidsBidVolume(state))])
    ensures OrchidsSignal(sunlight, humidity) == Falling ==>
      r == Some([RawOrder(ORCHIDS, if TwoSided(state.orderDepths, ORCHIDS)
                                   then Some(BestBidAsk(state.orderDepths, ORCHIDS).value.bid) else None,
                          OrchidsAskVolume(state))])
  {
    var best := BestBidAsk(state.orderDepths, ORCHIDS);
    var bestBid := if best.Some? then Some(best.value.bid) else None;
    var bestAsk := if best.Some? then Some(best.value.ask) else None;
    match OrchidsSignal(sunlight, humidity)
    case NoHistory => Some([])
    case Flat => Some([])
    case Rising => Some([RawOrder(ORCHIDS, bestAsk, OrchidsBidVolume(state))])
    case Falling => Some([RawOrder(ORCHIDS, bestBid, OrchidsAskVolume(state))])
    case Mixed =>
      if best.None? then None
      else Some([RawOrder(ORCHIDS, Some(best.value.bid + 1), OrchidsBidVolume(state)),
                 RawOrder(ORCHIDS, Some(best.value.ask - 1), Max(OrchidsAskVolume(state), ORCHIDS_ASK_FLOOR))])
  }

  /** A concrete input on which the rule as written emits an order with no price. */
  lemma OrchidsAsWrittenUnpricedOrder()
    ensures var ramp := [0.0, 1.0, 2.0, 3.0, 4.0, 5.0, 6.0, 7.0, 8.0, 9.0];
      var state := TradingState(0, map[], map[], map[], Observation(map[]));
      OrchidsStrategyAsWritten(state, ramp, ramp) == Some([RawOrder(ORCHIDS, None, 100)])
  {
    var ramp := [0.0, 1.0, 2.0, 3.0, 4.0, 5.0, 6.0, 7.0, 8.0, 9.0];
    assert Deriv(ramp) == Some(9.0);
    assert OrchidsSignal(ramp, ramp) == Rising;
  }

  /**
   * `orchids_strategy` as intended: an order is only placed at a price the
   * book has, so a rising or falling signal on a missing or one-sided book
   * fails like the mixed signal does.
   */
  function OrchidsStrategy(state: TradingState, sunlight: seq<real>, humidity: seq<real>): (r: Option<seq<Order>>)
    ensures |sunlight| < LOOKBACK || |humidity| < LOOKBACK ==> r == Some([])
    ensures r.Some? ==> |r.value| <= 2 && forall o :: o in r.value ==> o.symbol == ORCHIDS
    ensures r.Some? && r.value != [] ==> TwoSided(state.orderDepths, ORCHIDS)
    ensures r.None? <==> OrchidsSignal(sunlight, humidity) in {Rising, Falling, Mixed} && !TwoSided(state.orderDepths, ORCHIDS)
    ensures OrchidsSignal(sunlight, humidity) == Flat ==> r == Some([])
    ensures r.Some? && OrchidsSignal(sunlight, humidity) == Rising ==>
      var best := BestBidAsk(state.orderDepths, ORCHIDS).value;
      r.value == [Order(ORCHIDS, best.ask, OrchidsBidVolume(state))]
    ensures r.Some? && OrchidsSignal(sunlight, humidity) == Falling ==>
      var best := BestBidAsk(state.orderDepths, ORCHIDS).value;
      r.value == [Order(ORCHIDS, best.bid, OrchidsAskVolume(state))]
    ensures r.Some? && OrchidsSignal(sunlight, humidity) == Mixed ==>
      var best := BestBidAsk(state.orderDepths, ORCHIDS).value;
      |r.value| == 2 &&
      r.value[0] == Order(ORCHIDS, best.bid + 1, OrchidsBidVolume(state)) &&
      r.value[1].price == best.ask - 1 &&
      r.value[1].quantity >= ORCHIDS_ASK_FLOOR && r.value[1].quantity >= OrchidsAskVolume(state) &&
      (r.value[1].quantity == ORCHIDS_ASK_FLOOR || r.value[1].quantity == OrchidsAskVolume(state))
  {
    var best := BestBidAsk(state.orderDepths, ORCHIDS);
    match OrchidsSignal(sunlight, humidity)
    case NoHistory => Some([])
    case Flat => Some([])
    case Rising =>
      if best.None? then None else Some([Order(ORCHIDS, best.value.ask, OrchidsBidVolume(state))])
    case Falling =>
      if best.None? then None else Some([Order(ORCHIDS, best.value.bid, OrchidsAskVolume(state))])
    case Mixed =>
      if best.None? then None
      else Some([Order(ORCHIDS, best.value.bid + 1, OrchidsBidVolume(state)),
                 Order(ORCHIDS, best.value.ask - 1, Max(OrchidsAskVolume(state), ORCHIDS_ASK_FLOOR))])
  }

  /** Every raw order carries a price. */
  predicate AllPriced(raw: seq<RawOrder>)
  {
    forall o :: o in raw ==> o.price.Some?
  }

  /** The orders of a fully priced raw list. */
  function Priced(raw: seq<RawOrder>): (r: seq<Order>)
    requires AllPriced(raw)
    ensures |r| == |raw|
    ensures forall i :: 0 <= i < |raw| ==> r[i] == Order(raw[i].symbol, raw[i].price.value, raw[i].quantity)
  {
    if raw == [] then [] else [Order(raw[0].symbol, raw[0].price.value, raw[0].quantity)] + Priced(raw[1..])
  }

  /**
   * The correction changes nothing where the rule as written produces priced
   * orders, and turns exactly the unpriced outcomes into a failure.
   */
  lemma OrchidsStrategyCorrectsAsWritten(state: TradingState, sunlight: seq<real>, humidity: seq<real>)
    ensures var raw := OrchidsStrategyAsWritten(state, sunlight, humidity);
      OrchidsStrategy(state, sunlight, humidity) ==
        if raw.Some? && AllPriced(raw.value) then Some(Priced(raw.value)) else None
  {
    var raw := OrchidsStrategyAsWritten(state, sunlight, humidity);
    var r := OrchidsStrategy(state, sunlight, humidity);
    if raw.Some? && AllPriced(raw.value) {
      assert r.Some?;
      assert r.value == Priced(raw.value);
    } else if raw.Some? {
      assert exists o :: o in raw.value && o.price.None?;
      assert OrchidsSignal(sunlight, humidity) in {Rising, Falling};
    }
  }

  // ---------------------------------------------------------------- limits and the step

  /**
   * The AMETHYSTS orders leave `position + quantity` within the limit, from
   * any position; so do the STARFRUIT orders, and the ORCHIDS ones whenever
   * the position already is within its limit.
   */
  lemma AmethystRespectsLimit(state: TradingState)
    ensures AmethystStrategy(state).Some? ==>
      Respects(AmethystStrategy(state).value, Position(state, AMETHYSTS), POSITION_LIMIT[AMETHYSTS])
  {
    var r := AmethystStrategy(state);
    if r.Some? {
      assert r.value == [r.value[0], r.value[1]];
    }
  }

  lemma StarfruitRespectsLimit(state: TradingState, ema: Option<real>)
    ensures StarfruitStrategy(state, ema).Some? ==>
      Respects(StarfruitStrategy(state, ema).value, Position(state, STARFRUIT), POSITION_LIMIT[STARFRUIT])
  {
    var r := StarfruitStrategy(state, ema);
    if r.Some? {
      assert r.value == [r.value[0], r.value[1]];
    }
  }

  /** The capped ORCHIDS ask included: `max(ask_volume, -100)` never overshoots `-limit`. */
  lemma OrchidsRespectsLimit(state: TradingState, sunlight: seq<real>, humidity: seq<real>)
    requires -POSITION_LIMIT[ORCHIDS] <= Position(state, ORCHIDS) <= POSITION_LIMIT[ORCHIDS]
    ensures OrchidsStrategy(state, sunlight, humidity).Some? ==>
      Respects(OrchidsStrategy(state, sunlight, humidity).value, Position(state, ORCHIDS), POSITION_LIMIT[ORCHIDS])
  {
    var r := OrchidsStrategy(state, sunlight, humidity);
    if r.Some? && |r.value| == 2 {
      assert r.value == [r.value[0], r.value[1]];
    }
  }

  /**
   * The result of one step: a product appears exactly when its rule did not
   * fail, with that rule's orders (the `try`/`except` around each rule).
   */
  function Collect(amethysts: Option<seq<Order>>, starfruit: Option<seq<Order>>, orchids: Option<seq<Order>>): (r: map<Symbol, seq<Order>>)
    ensures r.Keys <= PRODUCT_SET
    ensures AMETHYSTS in r <==> amethysts.Some?
    ensures STARFRUIT in r <==> starfruit.Some?
    ensures ORCHIDS in r <==> orchids.Some?
    ensures AMETHYSTS in r ==> r[AMETHYSTS] == amethysts.value
    ensures STARFRUIT in r ==> r[STARFRUIT] == starfruit.value
    ensures ORCHIDS in r ==> r[ORCHIDS] == orchids.value
  {
    var withAmethysts: map<Symbol, seq<Order>> := if amethysts.Some? then map[AMETHYSTS := amethysts.value] else map[];
    var withStarfruit := if starfruit.Some? then withAmethysts[STARFRUIT := starfruit.value] else withAmethysts;
    if orchids.Some? then withStarfruit[ORCHIDS := orchids.value] else withStarfruit
  }

  /** After an EMA update the STARFRUIT rule cannot fail, so every step quotes STARFRUIT. */
  lemma StepAlwaysQuotesStarfruit(ema: map<Symbol, Option<real>>, state: TradingState, sunlight: seq<real>, humidity: seq<real>)
    requires ValidEma(ema)
    ensures var next := UpdatedEma(ema, DEFAULT_PRICES, state);
      STARFRUIT in Collect(AmethystStrategy(state), StarfruitStrategy(state, next[STARFRUIT]), OrchidsStrategy(state, sunlight, humidity))
  {
    UpdatedEmaTracksMid(ema, DEFAULT_PRICES, state, STARFRUIT);
  }

  /** The trader's state between steps. */
  class Trader {
    var emaPrices: map<Symbol, Option<real>>
    var sunlight: seq<real>
    var humidity: seq<real>
    var round: int

    ghost predicate Valid()
      reads this
    {
      ValidEma(emaPrices)
    }

    constructor ()
      ensures Valid()
      ensures emaPrices == map[AMETHYSTS := None, STARFRUIT := None, ORCHIDS := None]
      ensures sunlight == [] && humidity == [] && round == 0
    {
      emaPrices := map[AMETHYSTS := None, STARFRUIT := None, ORCHIDS := None];
      sunlight := [];
      humidity := [];
      round := 0;
    }

    /** `update_ema_price`: one pass over the products, each EMA moved towards its mid-price. */
    method UpdateEmaPrice(state: TradingState)
      requires Valid()
      modifies this`emaPrices
      ensures Valid()
      ensures emaPrices == UpdatedEma(old(emaPrices), DEFAULT_PRICES, state)
    {
      ghost var prev := emaPrices;
      var i := 0;
      while i < |PRODUCTS|
        invariant 0 <= i <= |PRODUCTS|
        invariant emaPrices.Keys == prev.Keys
        invariant forall p :: p in emaPrices ==>
          emaPrices[p] == if p in PRODUCTS[..i] then EmaEntry(prev, DEFAULT_PRICES, p, state) else prev[p]
      {
        var product := PRODUCTS[i];
        assert product !in PRODUCTS[..i];
        var mid := GetMidPrice(emaPrices, DEFAULT_PRICES, product, state);
        ghost var updated := Some(EmaStep(emaPrices[product], mid));
        assert updated == EmaEntry(emaPrices, DEFAULT_PRICES, product, state);
        EmaEntryLocal(emaPrices, prev, DEFAULT_PRICES, product, state);
        emaPrices := emaPrices[product := Some(EmaStep(emaPrices[product], mid))];
        assert PRODUCTS[..i + 1] == PRODUCTS[..i] + [product];
        i := i + 1;
      }
      assert PRODUCTS[..i] == PRODUCTS;
    }

    /**
     * `run`: count the round, update the EMAs, record this step's sunlight
     * and humidity, then run each rule on its own; a rule that fails leaves its
     * product out of the result. The ORCHIDS observation must be present
     * (its lookup is outside any `try`).
     */
    method Run(state: TradingState) returns (result: map<Symbol, seq<Order>>, conversions: int, traderData: string)
      requires Valid()
      requires ORCHIDS in state.observations.conversionObservations
      modifies this
      ensures Valid()
      ensures round == old(round) + 1
      ensures emaPrices == UpdatedEma(old(emaPrices), DEFAULT_PRICES, state)
      ensures sunlight == old(sunlight) + [state.observations.conversionObservations[ORCHIDS].sunlight]
      ensures humidity == old(humidity) + [state.observations.conversionObservations[ORCHIDS].humidity]
      ensures result == Collect(AmethystStrategy(state), StarfruitStrategy(state, emaPrices[STARFRUIT]),
        OrchidsStrategy(state, sunlight, humidity))
      ensures STARFRUIT in result
      ensures conversions == 0 && traderData == "SAMPLE"
    {
      round := round + 1;
      UpdateEmaPrice(state);
      var observation := state.observations.conversionObservations[ORCHIDS];
      sunlight := sunlight + [observation.sunlight];
      humidity := humidity + [observation.humidity];

      result := map[];
      var amethysts := AmethystStrategy(state);
      if amethysts.Some? {
        result := result[AMETHYSTS := amethysts.value];
      }
      var starfruit := StarfruitStrategy(state, emaPrices[STARFRUIT]);
      if starfruit.Some? {
        result := result[STARFRUIT := starfruit.value];
      }
      var orchids := OrchidsStrategy(state, sunlight, humidity);
      if orchids.Some? {
        result := result[ORCHIDS := orchids.value];
      }
      StepAlwaysQuotesStarfruit(old(emaPrices), state, sunlight, humidity);
      conversions := 0;
      traderData := "SAMPLE";
    }
  }
}
