/**
 * The exchange's data types that the trader reads and builds (the platform's
 * `datamodel` module, which is not part of this model; only the fields the
 * trader touches are kept).
 */
module Datamodel {
  type Symbol = string

  /** One entry `price -> quantity` of one side of a book. */
  datatype Level = Level(price: int, quantity: int)

  /**
   * A book: each side is the entries of a Python dict in insertion order,
   * so that "the first entry" and "the set of prices" are both expressible.
   * A sequence may list one price twice, which a dict cannot; no operation of
   * the model depends on prices being distinct (the highest, the lowest and
   * the first-listed price are defined either way).
   */
  datatype OrderDepth = OrderDepth(buyOrders: seq<Level>, sellOrders: seq<Level>)

  /** An order sent to the exchange: positive quantity buys, negative sells. */
  datatype Order = Order(symbol: Symbol, price: int, quantity: int)

  datatype Trade = Trade(symbol: Symbol, price: int, quantity: int, buyer: string, seller: string, timestamp: int)

  /** The environmental observations of a convertible product (only the two the trader reads). */
  datatype ConversionObservation = ConversionObservation(sunlight: real, humidity: real)

  datatype Observation = Observation(conversionObservations: map<Symbol, ConversionObservation>)

  /** The snapshot the exchange hands the trader at each step. */
  datatype TradingState = TradingState(
    timestamp: int,
    orderDepths: map<Symbol, OrderDepth>,
    ownTrades: map<Symbol, seq<Trade>>,
    position: map<Symbol, int>,
    observations: Observation)
}
