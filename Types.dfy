/** Value types shared by the calculation engine: order-book depth, the
    triangle configuration, the engine configuration, errors and the
    calculated result of one evaluation. */
module Types {

  /** Success/failure of an evaluation; `Err` stands for a thrown Error. */
  datatype Result<+T, +E> = Ok(value: T) | Err(error: E) {
    predicate IsFailure() { Err? }
    function PropagateFailure<U>(): (r: Result<U, E>)
      requires Err?
    {
      Err(error)
    }
    function Extract(): (r: T)
      requires Ok?
    {
      value
    }
  }

  /** `None` stands for the `null` that `optimize` returns with no candidates. */
  datatype Option<+T> = None | Some(value: T)

  /** One price level of a book side: price `rate` and resting quantity `qty`
      (in the instrument's base currency). */
  datatype Level = Level(rate: real, qty: real)

  /** One side of a book, in walk order (best price first). */
  type Side = seq<Level>

  /** The frozen depth of one instrument. */
  datatype Depth = Depth(bids: Side, asks: Side)

  predicate PositiveRates(side: Side)
  {
    forall i :: 0 <= i < |side| ==> side[i].rate > 0.0
  }

  predicate NonNegativeQuantities(side: Side)
  {
    forall i :: 0 <= i < |side| ==> side[i].qty >= 0.0
  }

  /** Every price on the book is positive. */
  predicate ValidDepth(depth: Depth)
  {
    PositiveRates(depth.bids) && PositiveRates(depth.asks)
  }

  /** Every resting quantity on the book is non-negative. */
  predicate NonNegativeDepth(depth: Depth)
  {
    NonNegativeQuantities(depth.bids) && NonNegativeQuantities(depth.asks)
  }

  /** Bids from the highest price down, asks from the lowest price up. */
  predicate WellOrdered(depth: Depth)
  {
    && (forall i, j :: 0 <= i < j < |depth.bids| ==> depth.bids[j].rate <= depth.bids[i].rate)
    && (forall i, j :: 0 <= i < j < |depth.asks| ==> depth.asks[i].rate <= depth.asks[j].rate)
  }

  /** Which of the two walking routines raised an error. */
  datatype Direction = Forward | Reverse

  /** The leg of the triangle a conversion is made for (the `phase` tag). */
  datatype Phase = AB | BC | CA

  /** The errors a conversion throws, with the fields their messages carry:
      `Crossed` is "Spread does not exist", `Shallow` is "too shallow to
      (reverse) convert", and `NoDepth` is the TypeError raised when the depth
      cache has no entry for the ticker and the missing entry is read. */
  datatype Error =
    | Crossed(ticker: string)
    | Shallow(ticker: string, bidDepth: nat, askDepth: nat, remaining: real,
              symbolFrom: string, symbolTo: string, direction: Direction)
    | NoDepth(ticker: string)

  /** The configuration the engine reads: INVESTMENT.MIN/MAX/STEP,
      TRADING.TAKER_FEE, TRADING.EXECUTION_STRATEGY and HUD.ENABLED. */
  datatype Config = Config(investMin: real, investMax: real, investStep: real,
                           takerFee: real, executionStrategy: string, hudEnabled: bool)

  /** A leg's method: 'Buy', and every other value, which is traded as a sell. */
  datatype Order = Buy | Sell

  datatype Leg = Leg(ticker: string, order: Order, dustDecimals: nat)

  datatype Symbols = Symbols(a: string, b: string, c: string)

  /** A candidate triangle A -> B -> C -> A. */
  datatype Relationship = Relationship(symbol: Symbols, ab: Leg, bc: Leg, ca: Leg)

  /** The depth of the three instruments a relationship trades, as looked up
      in the depth cache (`None` when the cache has no entry). */
  datatype Snapshot = Snapshot(ab: Option<Depth>, bc: Option<Depth>, ca: Option<Depth>)

  /** Every quantity on a book that is present is non-negative. */
  predicate NonNegativeBook(book: Option<Depth>)
  {
    book.Some? ==> NonNegativeDepth(book.value)
  }

  predicate NonNegativeSnapshot(s: Snapshot)
  {
    NonNegativeBook(s.ab) && NonNegativeBook(s.bc) && NonNegativeBook(s.ca)
  }

  /** What one evaluation spent, earned and gained of one currency. */
  datatype Flow = Flow(spent: real, earned: real, delta: real)

  /** A return in percent as a double holds it: a finite value, or the
      infinity that a gain or a loss divided by a zero spend gives. */
  datatype Percentage = Finite(value: real) | PlusInfinity | MinusInfinity

  /** `x > y` on doubles, the infinities included. */
  predicate Exceeds(x: Percentage, y: Percentage)
  {
    match (x, y)
    case (PlusInfinity, _) => !y.PlusInfinity?
    case (Finite(a), Finite(b)) => a > b
    case (Finite(_), MinusInfinity) => true
    case _ => false
  }

  /** `Exceeds` is a strict total order: no value exceeds itself, it is
      transitive, and of two different values one exceeds the other. */
  lemma ExceedsIsStrictOrder(x: Percentage, y: Percentage, z: Percentage)
    ensures !Exceeds(x, x)
    ensures Exceeds(x, y) && Exceeds(y, z) ==> Exceeds(x, z)
    ensures x != y ==> Exceeds(x, y) || Exceeds(y, x)
  {
  }

  /** The result of evaluating a relationship at one investment size. */
  datatype Calculated = Calculated(
    id: string,
    trade: Relationship,
    ab: real, bc: real, ca: real,
    a: Flow, b: Flow, c: Flow,
    percent: Percentage,
    abLimitBuyPrice: real)
}
