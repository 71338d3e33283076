/**
 * Helpers over a snapshot. Both revisions of the trader use the held
 * position, the highest price of a side, the mid-price with its fallback and
 * the exponential moving average; the lowest price of a side and the best
 * bid and ask of a book belong to the round-2 trader alone.
 */
module Book {
  import opened Wrappers
  import opened Datamodel

  /** The prices quoted on one side of a book (the keys of the dict). */
  function Prices(levels: seq<Level>): set<int>
  {
    set l | l in levels :: l.price
  }

  predicate IsHighest(p: int, levels: seq<Level>)
  {
    p in Prices(levels) && forall l :: l in levels ==> l.price <= p
  }

  predicate IsLowest(p: int, levels: seq<Level>)
  {
    p in Prices(levels) && forall l :: l in levels ==> p <= l.price
  }

  /** The book of `product` exists and neither side is empty. */
  predicate TwoSided(depths: map<Symbol, OrderDepth>, product: Symbol)
  {
    product in depths && |depths[product].buyOrders| > 0 && |depths[product].sellOrders| > 0
  }

  /** `state.position.get(product, 0)`. */
  function Position(state: TradingState, product: Symbol): (r: int)
    ensures product in state.position ==> r == state.position[product]
    ensures product !in state.position ==> r == 0
  {
    if product in state.position then state.position[product] else 0
  }

  /** Python's `max` over the keys of a non-empty dict. */
  function MaxPrice(levels: seq<Level>): (r: int)
    requires levels != []
    ensures IsHighest(r, levels)
  {
    if |levels| == 1 then levels[0].price
    else
      var rest := MaxPrice(levels[1..]);
      assert forall l :: l in levels[1..] ==> l in levels;
      if levels[0].price >= rest then levels[0].price else rest
  }

  /** Python's `min` over the keys of a non-empty dict. */
  function MinPrice(levels: seq<Level>): (r: int)
    requires levels != []
    ensures IsLowest(r, levels)
  {
    if |levels| == 1 then levels[0].price
    else
      var rest := MinPrice(levels[1..]);
      assert forall l :: l in levels[1..] ==> l in levels;
      if levels[0].price <= rest then levels[0].price else rest
  }

  datatype BestPrices = BestPrices(bid: int, ask: int)

  /**
   * `get_best_bid_ask`: `None` stands for the pair `(None, None)`, returned when
   * the product has no book or either side is empty; otherwise the highest bid
   * and the lowest ask.
   */
  function BestBidAsk(depths: map<Symbol, OrderDepth>, product: Symbol): (r: Option<BestPrices>)
    ensures r.Some? <==> TwoSided(depths, product)
    ensures r.Some? ==> IsHighest(r.value.bid, depths[product].buyOrders)
    ensures r.Some? ==> IsLowest(r.value.ask, depths[product].sellOrders)
  {
    if product !in depths then None
    else
      var depth := depths[product];
      if |depth.buyOrders| == 0 || |depth.sellOrders| == 0 then None
      else Some(BestPrices(MaxPrice(depth.buyOrders), MinPrice(depth.sellOrders)))
  }

  /**
   * The middle of the highest bid and the HIGHEST ask of a book, which is what
   * both revisions compute (they take `max` over the asks).
   */
  ghost predicate IsMidOfBook(r: real, depth: OrderDepth)
  {
    forall b, a :: IsHighest(b, depth.buyOrders) && IsHighest(a, depth.sellOrders) ==> r == (b + a) as real / 2.0
  }

  /** The book part of `get_mid_price`, given the fallback the caller already chose. */
  function MidPrice(fallback: real, depths: map<Symbol, OrderDepth>, product: Symbol): (r: real)
    ensures !TwoSided(depths, product) ==> r == fallback
    ensures TwoSided(depths, product) ==> IsMidOfBook(r, depths[product])
  {
    if product !in depths then fallback
    else
      var depth := depths[product];
      if |depth.buyOrders| == 0 then fallback
      else if |depth.sellOrders| == 0 then fallback
      else (MaxPrice(depth.buyOrders) + MaxPrice(depth.sellOrders)) as real / 2.0
  }

  /**
   * Because the asks enter through their maximum, the mid-price is never below
   * the middle of the best bid and the best (lowest) ask, and equals it when
   * every ask is at one price.
   */
  lemma MidPriceAtLeastBestMid(fallback: real, depths: map<Symbol, OrderDepth>, product: Symbol)
    requires TwoSided(depths, product)
    ensures var best := BestBidAsk(depths, product).value;
      MidPrice(fallback, depths, product) >= (best.bid + best.ask) as real / 2.0
    ensures (forall l :: l in depths[product].sellOrders ==> l.price == depths[product].sellOrders[0].price) ==>
      var best := BestBidAsk(depths, product).value;
      MidPrice(fallback, depths, product) == (best.bid + best.ask) as real / 2.0
  {
    var sells := depths[product].sellOrders;
    var hi, lo := MaxPrice(sells), MinPrice(sells);
    var l :| l in sells && l.price == lo;
    assert lo <= hi;
    var mid := MidPrice(fallback, depths, product);
    assert mid == (MaxPrice(depths[product].buyOrders) + hi) as real / 2.0;
    if forall l :: l in sells ==> l.price == sells[0].price {
      var h :| h in sells && h.price == hi;
      assert hi == lo;
    }
  }

  /** The EMA decay parameter α = 0.5. */
  const EMA_PARAM: real := 0.5

  /**
   * One EMA update: the first observation seeds the average, later ones
   * move it α of the way towards the new mid-price.
   */
  function EmaStep(prev: Option<real>, mid: real): (r: real)
    ensures prev.None? ==> r == mid
    ensures prev.Some? ==> (prev.value <= r <= mid) || (mid <= r <= prev.value)
    ensures prev.Some? ==> r - prev.value == mid - r
  {
    match prev
    case None => mid
    case Some(e) => EMA_PARAM * mid + (1.0 - EMA_PARAM) * e
  }

  /**
   * `get_mid_price` of either revision, given its table of default prices: the
   * fallback is the product's EMA, or its default price while no EMA exists;
   * it is returned when the book is missing or one-sided.
   */
  function GetMidPrice(ema: map<Symbol, Option<real>>, defaults: map<Symbol, int>, product: Symbol, state: TradingState): (r: real)
    requires product in ema && (ema[product].None? ==> product in defaults)
    ensures !TwoSided(state.orderDepths, product) && ema[product].Some? ==> r == ema[product].value
    ensures !TwoSided(state.orderDepths, product) && ema[product].None? ==> r == defaults[product] as real
    ensures TwoSided(state.orderDepths, product) ==> IsMidOfBook(r, state.orderDepths[product])
  {
    var fallback := if ema[product].Some? then ema[product].value else defaults[product] as real;
    MidPrice(fallback, state.orderDepths, product)
  }

  /** One product's EMA after one update: an EMA step towards its mid-price. */
  function EmaEntry(ema: map<Symbol, Option<real>>, defaults: map<Symbol, int>, p: Symbol, state: TradingState): Option<real>
    requires p in ema && (ema[p].None? ==> p in defaults)
  {
    Some(EmaStep(ema[p], GetMidPrice(ema, defaults, p, state)))
  }

  /** A product's update reads no other product's EMA, so updating in place equals updating from the old table. */
  lemma EmaEntryLocal(ema: map<Symbol, Option<real>>, other: map<Symbol, Option<real>>, defaults: map<Symbol, int>, p: Symbol, state: TradingState)
    requires p in ema && (ema[p].None? ==> p in defaults)
    requires p in other && other[p] == ema[p]
    ensures EmaEntry(ema, defaults, p, state) == EmaEntry(other, defaults, p, state)
  {
  }

  /** The EMA table after one `update_ema_price`, every product updated from the old table. */
  function UpdatedEma(ema: map<Symbol, Option<real>>, defaults: map<Symbol, int>, state: TradingState): (r: map<Symbol, Option<real>>)
    requires ema.Keys <= defaults.Keys
    ensures r.Keys == ema.Keys
    ensures forall p :: p in r ==> r[p] == EmaEntry(ema, defaults, p, state)
  {
    map p | p in ema :: EmaEntry(ema, defaults, p, state)
  }

  /**
   * What one update does to a product's EMA: afterwards every EMA exists; the
   * first one is the mid-price; a later one lies between the old EMA and the
   * mid-price; and on a missing or one-sided book an existing EMA stays put
   * while a missing one is seeded with the default price.
   */
  lemma UpdatedEmaTracksMid(ema: map<Symbol, Option<real>>, defaults: map<Symbol, int>, state: TradingState, p: Symbol)
    requires ema.Keys <= defaults.Keys && p in ema
    ensures UpdatedEma(ema, defaults, state)[p].Some?
    ensures var mid, e := GetMidPrice(ema, defaults, p, state), UpdatedEma(ema, defaults, state)[p].value;
      (ema[p].None? ==> e == mid) &&
      (ema[p].Some? ==> (ema[p].value <= e <= mid) || (mid <= e <= ema[p].value))
    ensures !TwoSided(state.orderDepths, p) && ema[p].Some? ==> UpdatedEma(ema, defaults, state)[p] == ema[p]
    ensures !TwoSided(state.orderDepths, p) && ema[p].None? ==> UpdatedEma(ema, defaults, state)[p] == Some(defaults[p] as real)
  {
    var mid := GetMidPrice(ema, defaults, p, state);
    var e := EmaStep(ema[p], mid);
    assert UpdatedEma(ema, defaults, state)[p] == EmaEntry(ema, defaults, p, state) == Some(e);
    if !TwoSided(state.orderDepths, p) && ema[p].Some? {
      assert mid == ema[p].value;
      assert e - mid == mid - e;
    }
  }

  /** A two-sided book with bids at 9 and 10 and one ask at 12 has mid-price 11. */
  lemma MidPriceExample(fallback: real)
    ensures MidPrice(fallback, map["X" := OrderDepth([Level(9, 1), Level(10, 1)], [Level(12, -1)])], "X") == 11.0
  {
    var bids := [Level(9, 1), Level(10, 1)];
    assert MaxPrice(bids) == 10 by {
      assert MaxPrice(bids[1..]) == 10;
    }
  }

  /** From an EMA of 100 a mid-price of 200 moves the EMA to 150. */
  lemma EmaStepExample()
    ensures EmaStep(Some(100.0), 200.0) == 150.0
  {
  }
}
