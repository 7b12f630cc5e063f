/** `calculate`: one evaluation of a triangle A -> B -> C -> A at one
    investment size. Each leg is a Buy or a Sell on its instrument; the legs
    are chained, each one starting from what the previous one earned, and the
    result carries what was spent, earned and gained of every currency and the
    return net of fees. */
module Triangle {
  import opened Types
  import opened Dust
  import opened Rates
  import opened Walk
  import opened OrderBook

  /** What one leg spent, earned and traded, and the limit price after it. */
  datatype Traded = Traded(spent: real, earned: real, volume: real, limitPrice: real)

  /** The books of a snapshot can be walked under the configured strategy. */
  predicate Evaluable(cfg: Config, snap: Snapshot)
  {
    && CanWalk(snap.ab, IsTrigger(cfg, AB))
    && CanWalk(snap.bc, IsTrigger(cfg, BC))
    && CanWalk(snap.ca, IsTrigger(cfg, CA))
  }

  /** One leg, converting `available` of `symbolFrom` into `symbolTo`.
      Buy: convert forward, dust-round what that yields (the amount earned and
      traded), and reverse-convert the rounded amount for what it costs.
      Sell: dust-round the available amount (the amount spent and traded) and
      convert it forward for what it earns. */
  function TradeLeg(cfg: Config, leg: Leg, symbolFrom: string, symbolTo: string, book: Option<Depth>,
                    phase: Phase, available: real, limitPrice: real): (r: Result<Traded, Error>)
    requires CanWalk(book, IsTrigger(cfg, phase))
  {
    var trig := IsTrigger(cfg, phase);
    if leg.order == Buy then
      var converted :- Conversion(trig, available, symbolFrom, symbolTo, leg.ticker, book);
      var earned := CalculateDustless(converted, leg.dustDecimals);
      var spent :- ReverseConversion(trig, earned, symbolTo, symbolFrom, leg.ticker, book);
      Ok(Traded(spent, earned, earned,
                LimitPriceAfter(trig, available, symbolFrom, symbolTo, leg.ticker, book, limitPrice)))
    else
      var spent := CalculateDustless(available, leg.dustDecimals);
      var earned :- Conversion(trig, spent, symbolFrom, symbolTo, leg.ticker, book);
      Ok(Traded(spent, earned, spent,
                LimitPriceAfter(trig, spent, symbolFrom, symbolTo, leg.ticker, book, limitPrice)))
  }

  /** `${a}-${b}-${c}`. */
  function Id(symbol: Symbols): (r: string)
  {
    symbol.a + "-" + symbol.b + "-" + symbol.c
  }

  /** The return on A in percent, less three taker fees, as doubles compute
      it. When nothing of A was spent the division is by zero: a gain or a
      loss gives an infinity, which the fees do not change, and no change
      gives NaN, which is replaced by 0. On books with non-negative
      quantities only the last case arises (NothingSpentNothingGained). */
  function Percent(a: Flow, takerFee: real): (p: Percentage)
    ensures a.spent != 0.0 ==> p.Finite? && (p.value + takerFee * 3.0) * a.spent == a.delta * 100.0
    ensures a.spent == 0.0 ==>
      && (p.PlusInfinity? <==> a.delta > 0.0)
      && (p.MinusInfinity? <==> a.delta < 0.0)
      && (p.Finite? ==> p.value == 0.0)
  {
    if a.spent != 0.0 then Finite(a.delta / a.spent * 100.0 - takerFee * 3.0)
    else if a.delta > 0.0 then PlusInfinity
    else if a.delta < 0.0 then MinusInfinity
    else Finite(0.0)
  }

  /** The evaluation of `trade` at `investmentA`: the three legs chained, the
      deltas per currency and the net percent. It is labelled with the
      triangle it evaluates. */
  function Evaluate(cfg: Config, investmentA: real, trade: Relationship, snap: Snapshot): (r: Result<Calculated, Error>)
    requires Evaluable(cfg, snap)
    ensures r.Ok? ==> r.value.trade == trade && r.value.id == Id(trade.symbol)
  {
    var s := trade.symbol;
    var ab :- TradeLeg(cfg, trade.ab, s.a, s.b, snap.ab, AB, investmentA, -1.0);
    var bc :- TradeLeg(cfg, trade.bc, s.b, s.c, snap.bc, BC, ab.earned, ab.limitPrice);
    var ca :- TradeLeg(cfg, trade.ca, s.c, s.a, snap.ca, CA, bc.earned, bc.limitPrice);
    var a := Flow(ab.spent, ca.earned, ca.earned - ab.spent);
    var b := Flow(bc.spent, ab.earned, ab.earned - bc.spent);
    var c := Flow(ca.spent, bc.earned, bc.earned - ca.spent);
    Ok(Calculated(Id(s), trade, ab.volume, bc.volume, ca.volume, a, b, c, Percent(a, cfg.takerFee), ca.limitPrice))
  }

  // ---------------------------------------------------------------------
  // The routine

  /** One leg of `calculate`, as the source writes it out for AB, BC and CA
      in turn: the two conversion routines and the dust rounding, in the
      order the leg's side calls for. */
  method CalculateLeg(cfg: Config, leg: Leg, symbolFrom: string, symbolTo: string, book: Option<Depth>,
                      phase: Phase, available: real, limitPrice: real)
    returns (r: Result<Traded, Error>)
    requires CanWalk(book, IsTrigger(cfg, phase))
    ensures r == TradeLeg(cfg, leg, symbolFrom, symbolTo, book, phase, available, limitPrice)
  {
    if leg.order == Buy {
      var dusted, price := OrderBookConversion(cfg, available, symbolFrom, symbolTo, leg.ticker, book, phase,
                                               limitPrice);
      if dusted.Err? {
        return Err(dusted.error);
      }
      var earned := CalculateDustless(dusted.value, leg.dustDecimals);
      var spent := OrderBookReverseConversion(cfg, earned, symbolTo, symbolFrom, leg.ticker, book, phase);
      if spent.Err? {
        return Err(spent.error);
      }
      r := Ok(Traded(spent.value, earned, earned, price));
    } else {
      var spent := CalculateDustless(available, leg.dustDecimals);
      var earned, price := OrderBookConversion(cfg, spent, symbolFrom, symbolTo, leg.ticker, book, phase,
                                               limitPrice);
      if earned.Err? {
        return Err(earned.error);
      }
      r := Ok(Traded(spent, earned.value, spent, price));
    }
  }

  /** `calculate`: builds the result record and fills it in leg by leg, as the
      source does. */
  method Calculate(cfg: Config, investmentA: real, trade: Relationship, snap: Snapshot)
    returns (r: Result<Calculated, Error>)
    requires Evaluable(cfg, snap)
    ensures r == Evaluate(cfg, investmentA, trade, snap)
  {
    var s := trade.symbol;
    var zero := Flow(0.0, 0.0, 0.0);
    var calculated := Calculated(Id(s), trade, 0.0, 0.0, 0.0, zero, zero, zero, Finite(0.0), -1.0);

    var ab := CalculateLeg(cfg, trade.ab, s.a, s.b, snap.ab, AB, investmentA, calculated.abLimitBuyPrice);
    if ab.Err? {
      return Err(ab.error);
    }
    calculated := calculated.(ab := ab.value.volume, abLimitBuyPrice := ab.value.limitPrice,
                              a := calculated.a.(spent := ab.value.spent), b := calculated.b.(earned := ab.value.earned));

    var bc := CalculateLeg(cfg, trade.bc, s.b, s.c, snap.bc, BC, calculated.b.earned, calculated.abLimitBuyPrice);
    if bc.Err? {
      return Err(bc.error);
    }
    calculated := calculated.(bc := bc.value.volume, abLimitBuyPrice := bc.value.limitPrice,
                              b := calculated.b.(spent := bc.value.spent), c := calculated.c.(earned := bc.value.earned));

    var ca := CalculateLeg(cfg, trade.ca, s.c, s.a, snap.ca, CA, calculated.c.earned, calculated.abLimitBuyPrice);
    if ca.Err? {
      return Err(ca.error);
    }
    calculated := calculated.(ca := ca.value.volume, abLimitBuyPrice := ca.value.limitPrice,
                              c := calculated.c.(spent := ca.value.spent), a := calculated.a.(earned := ca.value.earned));

    calculated := calculated.(a := calculated.a.(delta := calculated.a.earned - calculated.a.spent));
    calculated := calculated.(b := calculated.b.(delta := calculated.b.earned - calculated.b.spent));
    calculated := calculated.(c := calculated.c.(delta := calculated.c.earned - calculated.c.spent));
    calculated := calculated.(percent := Percent(calculated.a, cfg.takerFee));
    ghost var a := Flow(ab.value.spent, ca.value.earned, ca.value.earned - ab.value.spent);
    ghost var expected := Calculated(Id(s), trade, ab.value.volume, bc.value.volume, ca.value.volume, a,
                                     Flow(bc.value.spent, ab.value.earned, ab.value.earned - bc.value.spent),
                                     Flow(ca.value.spent, bc.value.earned, bc.value.earned - ca.value.spent),
                                     Percent(a, cfg.takerFee), ca.value.limitPrice);
    assert calculated == expected;
    assert Evaluate(cfg, investmentA, trade, snap) == Ok(expected);
    r := Ok(calculated);
  }

  // ---------------------------------------------------------------------
  // One leg

  /** The volume a leg trades is what it earns on a Buy and what it spends on
      a Sell, and it never carries more decimals than the leg's dust decimals
      (or the twelve `toFixed` keeps). */
  lemma LegVolumeIsDustless(cfg: Config, leg: Leg, symbolFrom: string, symbolTo: string, book: Option<Depth>,
                            phase: Phase, available: real, limitPrice: real)
    requires CanWalk(book, IsTrigger(cfg, phase))
    ensures var t := TradeLeg(cfg, leg, symbolFrom, symbolTo, book, phase, available, limitPrice);
      t.Ok? ==>
        && HasDecimals(t.value.volume, Min(leg.dustDecimals, FixedDigits))
        && (leg.order == Buy ==> t.value.volume == t.value.earned)
        && (leg.order == Sell ==> t.value.volume == t.value.spent)
  {
    var trig := IsTrigger(cfg, phase);
    if leg.order == Buy {
      var c := Conversion(trig, available, symbolFrom, symbolTo, leg.ticker, book);
      if c.Ok? {
        DustlessDigits(c.value, leg.dustDecimals);
      }
    } else {
      DustlessDigits(available, leg.dustDecimals);
    }
  }

  /** On books with no negative quantity, a leg given a non-negative amount
      spends and earns non-negative amounts; it spends nothing exactly when it
      earns nothing, and given nothing it trades nothing. */
  lemma LegSigns(cfg: Config, leg: Leg, symbolFrom: string, symbolTo: string, book: Option<Depth>,
                 phase: Phase, available: real, limitPrice: real)
    requires CanWalk(book, IsTrigger(cfg, phase)) && NonNegativeBook(book) && available >= 0.0
    ensures var t := TradeLeg(cfg, leg, symbolFrom, symbolTo, book, phase, available, limitPrice);
      t.Ok? ==>
        && t.value.spent >= 0.0 && t.value.earned >= 0.0
        && (t.value.spent == 0.0 <==> t.value.earned == 0.0)
        && (available == 0.0 ==> t.value.spent == 0.0)
  {
    var trig := IsTrigger(cfg, phase);
    var d := leg.dustDecimals;
    if leg.order == Buy {
      ConversionsKeepSign(trig, available, symbolFrom, symbolTo, leg.ticker, book);
      var c := Conversion(trig, available, symbolFrom, symbolTo, leg.ticker, book);
      if c.Ok? {
        DustlessBounds(c.value, d);
        var earned := CalculateDustless(c.value, d);
        ConversionsKeepSign(trig, earned, symbolTo, symbolFrom, leg.ticker, book);
      }
    } else {
      DustlessBounds(available, d);
      var spent := CalculateDustless(available, d);
      ConversionsKeepSign(trig, spent, symbolFrom, symbolTo, leg.ticker, book);
    }
  }

  /** The amount a leg dust-rounds (what the forward conversion yields on a
      Buy, the amount available on a Sell) is not rounded up. This holds
      whenever that amount has at most twelve decimals (DustlessNeverUp);
      `toFixed(12)` can round other amounts up (DustlessCanRoundUp). */
  predicate RoundsDown(cfg: Config, leg: Leg, symbolFrom: string, symbolTo: string, book: Option<Depth>,
                       phase: Phase, available: real)
    requires CanWalk(book, IsTrigger(cfg, phase))
  {
    if leg.order == Buy then
      match Conversion(IsTrigger(cfg, phase), available, symbolFrom, symbolTo, leg.ticker, book)
      case Ok(y) => CalculateDustless(y, leg.dustDecimals) <= y
      case Err(_) => true
    else CalculateDustless(available, leg.dustDecimals) <= available
  }

  /** A leg on an instrument of its own pair never spends more than it was
      given, unless rounding went up. A Buy leg fails only when its forward
      conversion does: the reverse conversion of the rounded amount always
      finds enough depth. */
  lemma LegStaysWithinAvailable(cfg: Config, leg: Leg, symbolFrom: string, symbolTo: string, book: Option<Depth>,
                                phase: Phase, available: real, limitPrice: real)
    requires CanWalk(book, IsTrigger(cfg, phase)) && NonNegativeBook(book) && available >= 0.0
    requires SamePair(symbolFrom, symbolTo, leg.ticker)
    requires RoundsDown(cfg, leg, symbolFrom, symbolTo, book, phase, available)
    ensures var t := TradeLeg(cfg, leg, symbolFrom, symbolTo, book, phase, available, limitPrice);
      t.Ok? ==> 0.0 <= t.value.spent <= available
    ensures leg.order == Buy ==>
      (TradeLeg(cfg, leg, symbolFrom, symbolTo, book, phase, available, limitPrice).Ok? <==>
       Conversion(IsTrigger(cfg, phase), available, symbolFrom, symbolTo, leg.ticker, book).Ok?)
  {
    var trig := IsTrigger(cfg, phase);
    var d := leg.dustDecimals;
    LegSigns(cfg, leg, symbolFrom, symbolTo, book, phase, available, limitPrice);
    if leg.order == Buy {
      var c := Conversion(trig, available, symbolFrom, symbolTo, leg.ticker, book);
      if c.Ok? {
        if available == 0.0 {
          DustlessBounds(c.value, d);
        } else {
          ReverseUndoesConversion(trig, available, symbolFrom, symbolTo, leg.ticker, book.value);
          DustlessBounds(c.value, d);
          ReverseOfLessNeverExceeds(trig, available, symbolFrom, symbolTo, leg.ticker, book.value,
                                    CalculateDustless(c.value, d));
        }
      }
    }
  }

  // ---------------------------------------------------------------------
  // The whole triangle

  /** Every leg's instrument trades the two currencies the leg converts
      between. */
  predicate WellFormed(trade: Relationship)
  {
    var s := trade.symbol;
    SamePair(s.a, s.b, trade.ab.ticker) && SamePair(s.b, s.c, trade.bc.ticker) && SamePair(s.c, s.a, trade.ca.ticker)
  }

  /** No leg of the evaluation rounds its amount up. */
  predicate RoundsDownThroughout(cfg: Config, investmentA: real, trade: Relationship, snap: Snapshot)
    requires Evaluable(cfg, snap)
  {
    var s := trade.symbol;
    && RoundsDown(cfg, trade.ab, s.a, s.b, snap.ab, AB, investmentA)
    && match TradeLeg(cfg, trade.ab, s.a, s.b, snap.ab, AB, investmentA, -1.0)
       case Err(_) => true
       case Ok(ab) =>
         && RoundsDown(cfg, trade.bc, s.b, s.c, snap.bc, BC, ab.earned)
         && match TradeLeg(cfg, trade.bc, s.b, s.c, snap.bc, BC, ab.earned, ab.limitPrice)
            case Err(_) => true
            case Ok(bc) => RoundsDown(cfg, trade.ca, s.c, s.a, snap.ca, CA, bc.earned)
  }

  /** On books with non-negative quantities all amounts of an evaluation are
      non-negative, and when nothing of A is spent nothing comes back either:
      the return is then 0, not the NaN of 0/0 and not an infinite return on
      nothing. */
  lemma NothingSpentNothingGained(cfg: Config, investmentA: real, trade: Relationship, snap: Snapshot)
    requires Evaluable(cfg, snap) && NonNegativeSnapshot(snap) && investmentA >= 0.0
    ensures var r := Evaluate(cfg, investmentA, trade, snap);
      r.Ok? ==>
        && r.value.a.spent >= 0.0 && r.value.a.earned >= 0.0
        && r.value.b.spent >= 0.0 && r.value.b.earned >= 0.0
        && r.value.c.spent >= 0.0 && r.value.c.earned >= 0.0
        && (r.value.a.spent == 0.0 ==> r.value.a.earned == 0.0 && r.value.a.delta == 0.0 && r.value.percent == Finite(0.0))
  {
    var s := trade.symbol;
    var rab := TradeLeg(cfg, trade.ab, s.a, s.b, snap.ab, AB, investmentA, -1.0);
    LegSigns(cfg, trade.ab, s.a, s.b, snap.ab, AB, investmentA, -1.0);
    if rab.Ok? {
      var ab := rab.value;
      var rbc := TradeLeg(cfg, trade.bc, s.b, s.c, snap.bc, BC, ab.earned, ab.limitPrice);
      LegSigns(cfg, trade.bc, s.b, s.c, snap.bc, BC, ab.earned, ab.limitPrice);
      if rbc.Ok? {
        var bc := rbc.value;
        LegSigns(cfg, trade.ca, s.c, s.a, snap.ca, CA, bc.earned, bc.limitPrice);
      }
    }
  }

  /** When every instrument trades its leg's pair and no rounding goes up,
      the triangle never invests more A than it was given, and it never
      spends more B or C than the previous leg earned: the intermediate
      currencies are never short. */
  lemma IntermediatesNeverShort(cfg: Config, investmentA: real, trade: Relationship, snap: Snapshot)
    requires Evaluable(cfg, snap) && NonNegativeSnapshot(snap) && investmentA >= 0.0
    requires WellFormed(trade) && RoundsDownThroughout(cfg, investmentA, trade, snap)
    ensures var r := Evaluate(cfg, investmentA, trade, snap);
      r.Ok? ==> r.value.a.spent <= investmentA && r.value.b.delta >= 0.0 && r.value.c.delta >= 0.0
  {
    var s := trade.symbol;
    var rab := TradeLeg(cfg, trade.ab, s.a, s.b, snap.ab, AB, investmentA, -1.0);
    LegSigns(cfg, trade.ab, s.a, s.b, snap.ab, AB, investmentA, -1.0);
    LegStaysWithinAvailable(cfg, trade.ab, s.a, s.b, snap.ab, AB, investmentA, -1.0);
    if rab.Ok? {
      var ab := rab.value;
      var rbc := TradeLeg(cfg, trade.bc, s.b, s.c, snap.bc, BC, ab.earned, ab.limitPrice);
      LegSigns(cfg, trade.bc, s.b, s.c, snap.bc, BC, ab.earned, ab.limitPrice);
      LegStaysWithinAvailable(cfg, trade.bc, s.b, s.c, snap.bc, BC, ab.earned, ab.limitPrice);
      if rbc.Ok? {
        var bc := rbc.value;
        LegStaysWithinAvailable(cfg, trade.ca, s.c, s.a, snap.ca, CA, bc.earned, bc.limitPrice);
      }
    }
  }

  /** Net of fees aside, the return is positive exactly when the triangle
      brings back more A than it spent. */
  lemma PercentSign(cfg: Config, investmentA: real, trade: Relationship, snap: Snapshot)
    requires Evaluable(cfg, snap)
    ensures var r := Evaluate(cfg, investmentA, trade, snap);
      r.Ok? && r.value.a.spent > 0.0 ==>
        && r.value.percent.Finite?
        && (r.value.percent.value + cfg.takerFee * 3.0 > 0.0 <==> r.value.a.earned > r.value.a.spent)
  {
    var r := Evaluate(cfg, investmentA, trade, snap);
    if r.Ok? && r.value.a.spent > 0.0 {
      var a := r.value.a;
      assert a.delta == a.earned - a.spent;
      QuotientSign(a.delta, a.spent);
    }
  }

  /** When nothing of A is spent the return is infinite exactly when some A
      still comes back or goes out, with the sign of that amount, and 0
      otherwise. */
  lemma ReturnOnNothing(cfg: Config, investmentA: real, trade: Relationship, snap: Snapshot)
    requires Evaluable(cfg, snap)
    ensures var r := Evaluate(cfg, investmentA, trade, snap);
      r.Ok? && r.value.a.spent == 0.0 ==>
        && (r.value.percent == PlusInfinity <==> r.value.a.earned > 0.0)
        && (r.value.percent == MinusInfinity <==> r.value.a.earned < 0.0)
        && (r.value.percent == Finite(0.0) <==> r.value.a.earned == 0.0)
  {
    var r := Evaluate(cfg, investmentA, trade, snap);
    if r.Ok? {
      assert r.value.a.delta == r.value.a.earned - r.value.a.spent;
    }
  }

  lemma QuotientSign(x: real, y: real)
    requires y > 0.0
    ensures x / y * 100.0 > 0.0 <==> x > 0.0
  {
  }

  // ---------------------------------------------------------------------
  // A worked triangle

  /** A-B-`c`, all three legs Sell with dust precision 8, on instruments
      "AB", "B`c`" and "`c`A". */
  function SellTriangle(c: string): (r: Relationship)
  {
    Relationship(Symbols("A", "B", c), Leg("AB", Sell, 8), Leg("B" + c, Sell, 8), Leg(c + "A", Sell, 8))
  }

  /** Books with one level a side: AB bid 100 for 10, BC bid 50 for
      `bcQty`, CA bid 0.0002 for a million. */
  function SellBooks(bcQty: real): (r: Snapshot)
  {
    Snapshot(Some(Depth([Level(100.0, 10.0)], [Level(101.0, 10.0)])),
             Some(Depth([Level(50.0, bcQty)], [Level(51.0, 10.0)])),
             Some(Depth([Level(0.0002, 1000000.0)], [Level(0.0003, 1000000.0)])))
  }

  /** A taker fee of 0.1 percent and the sweeping strategy. */
  function SellConfig(): (r: Config)
  {
    Config(1.0, 1.0, 1.0, 0.1, "sweep", false)
  }

  /** Selling `amount`, a whole number, into a single bid of `qty` at
      `rate`, on an instrument named base then quote: the whole amount sells
      at that rate when the bid is deep enough; otherwise what the bid holds
      sells and the rest is reported. */
  lemma SingleBidSell(leg: Leg, symbolFrom: string, symbolTo: string, depth: Depth, phase: Phase,
                      amount: real, rate: real, qty: real)
    requires leg.order == Sell && leg.ticker == symbolFrom + symbolTo && !IsTrigger(SellConfig(), phase)
    requires depth.bids == [Level(rate, qty)] && |depth.asks| == 1 && rate > 0.0 && depth.asks[0].rate > rate
    requires amount > 0.0 && IsInteger(amount)
    ensures CanWalk(Some(depth), false)
    ensures amount <= qty ==>
      TradeLeg(SellConfig(), leg, symbolFrom, symbolTo, Some(depth), phase, amount, -1.0)
      == Ok(Traded(amount, amount * rate, amount, -1.0))
    ensures amount > qty ==>
      TradeLeg(SellConfig(), leg, symbolFrom, symbolTo, Some(depth), phase, amount, -1.0)
      == Err(Shallow(leg.ticker, 1, 1, amount - qty, symbolFrom, symbolTo, Forward))
  {
    assert !IsCrossed(depth);
    SingleBidLevel(false, amount, symbolFrom, symbolTo, leg.ticker, depth, rate, qty);
  }

  /** Investing 1 A sells it for 100 B, but the BC bid holds only 10 B: the
      second leg reports the 90 B it could not sell. */
  lemma ShallowSecondLeg(c: string)
    ensures Evaluable(SellConfig(), SellBooks(10.0))
    ensures Evaluate(SellConfig(), 1.0, SellTriangle(c), SellBooks(10.0))
         == Err(Shallow("B" + c, 1, 1, 90.0, "B", c, Forward))
  {
    SweepNeverTriggers(SellConfig(), AB);
    var t, snap := SellTriangle(c), SellBooks(10.0);
    assert IsInteger(1.0) && IsInteger(100.0);
    SingleBidSell(t.ab, "A", "B", snap.ab.value, AB, 1.0, 100.0, 10.0);
    SingleBidSell(t.bc, "B", c, snap.bc.value, BC, 100.0, 50.0, 10.0);
  }

  /** With 1000 B on the BC bid the triangle goes through: 1 A buys 100 B,
      5000 C and 1 A again, so nothing is gained and the return is the three
      fees, -0.3 percent. */
  lemma DeepTriangle(c: string)
    ensures Evaluable(SellConfig(), SellBooks(1000.0))
    ensures var r := Evaluate(SellConfig(), 1.0, SellTriangle(c), SellBooks(1000.0));
      && r.Ok?
      && r.value.id == "A-B-" + c
      && r.value.a == Flow(1.0, 1.0, 0.0)
      && r.value.b == Flow(100.0, 100.0, 0.0)
      && r.value.c == Flow(5000.0, 5000.0, 0.0)
      && r.value.percent == Finite(-0.3)
  {
    SweepNeverTriggers(SellConfig(), AB);
    var t, snap := SellTriangle(c), SellBooks(1000.0);
    assert IsInteger(1.0) && IsInteger(100.0) && IsInteger(5000.0);
    SingleBidSell(t.ab, "A", "B", snap.ab.value, AB, 1.0, 100.0, 10.0);
    SingleBidSell(t.bc, "B", c, snap.bc.value, BC, 100.0, 50.0, 1000.0);
    SingleBidSell(t.ca, c, "A", snap.ca.value, CA, 5000.0, 0.0002, 1000000.0);
  }
}
