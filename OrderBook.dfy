/** `orderBookConversion` and `orderBookReverseConversion`: converting an
    amount of one currency into another by walking one side of an
    instrument's depth, best level first. Each routine is a method with the
    loops of the source, proved equal to a functional specification built
    from the two walks of module Walk; the lemmas say what the specifications
    compute. */
module OrderBook {
  import opened Types
  import opened Rates
  import opened Walk

  /** The spread test made on entry: the best bid strictly above the best ask.
      A side without levels has no best price, and the comparison with it is
      false. */
  predicate IsCrossed(depth: Depth)
  {
    |depth.bids| > 0 && |depth.asks| > 0 && depth.bids[0].rate > depth.asks[0].rate
  }

  /** The levels walked in place of the asks under the trigger strategy: level
      `i` takes the blend of the best ask and bid `i` as its rate and bid `i`'s
      quantity; there are as many of them as there are asks. */
  function TriggerLevels(depth: Depth): (side: Side)
    requires |depth.asks| <= |depth.bids|
    ensures |side| == |depth.asks|
  {
    seq(|depth.asks|, i requires 0 <= i < |depth.asks| =>
      Level(TriggerRate(depth.asks[0].rate, depth.bids[i].rate), depth.bids[i].qty))
  }

  /** The levels of the loop over `askRates`. */
  function AskLevels(depth: Depth, trig: bool): (r: Side)
    requires trig ==> |depth.asks| <= |depth.bids|
  {
    if trig then TriggerLevels(depth) else depth.asks
  }

  /** What the conversions need of a book they read: positive prices, and
      under the trigger strategy a bid for every ask. The source reads
      `bidRates[i]` for every ask index `i`, but only when it walks the
      asks: forward against the ticker's pair, or in reverse along it. The
      condition is asked of every trigger-mode call, which is more than
      those two branches need. */
  predicate CanWalk(book: Option<Depth>, trig: bool)
  {
    book.Some? ==> ValidDepth(book.value) && (trig ==> |book.value.asks| <= |book.value.bids|)
  }

  lemma AskLevelsValid(depth: Depth, trig: bool)
    requires ValidDepth(depth) && (trig ==> |depth.asks| <= |depth.bids|)
    ensures PositiveRates(AskLevels(depth, trig))
    ensures NonNegativeDepth(depth) ==> NonNegativeQuantities(AskLevels(depth, trig))
  {
    if trig {
      forall i | 0 <= i < |depth.asks|
        ensures TriggerLevels(depth)[i].rate > 0.0
      {
        TriggerRateFacts(depth.asks[0].rate, depth.bids[i].rate);
      }
    }
  }

  /** The outcome of a walk as the routine reports it: the converted amount,
      or the "too shallow" error with the amount left unconverted. */
  function Settle(f: Fill, depth: Depth, symbolFrom: string, symbolTo: string, ticker: string,
                  direction: Direction): (r: Result<real, Error>)
  {
    match f
    case Filled(amount, _) => Ok(amount)
    case Exhausted(remaining) =>
      Err(Shallow(ticker, |depth.bids|, |depth.asks|, remaining, symbolFrom, symbolTo, direction))
  }

  /** `orderBookConversion`. A zero amount is 0 whatever the book. A missing
      book is read and fails. A crossed book fails. When the ticker names the
      pair in the order from-to, the amount is in the base currency and is
      sold into the bids, level by level by quantity; otherwise it is in the
      quote currency and buys from the asks (or the trigger levels), level by
      level by notional. */
  function Conversion(trig: bool, amountFrom: real, symbolFrom: string, symbolTo: string,
                      ticker: string, book: Option<Depth>): (r: Result<real, Error>)
    requires CanWalk(book, trig)
  {
    if amountFrom == 0.0 then Ok(0.0)
    else if book.None? then Err(NoDepth(ticker))
    else if IsCrossed(book.value) then Err(Crossed(ticker))
    else if ticker == symbolFrom + symbolTo then
      Settle(QuantityWalk(book.value.bids, 0, amountFrom, 0.0), book.value, symbolFrom, symbolTo, ticker, Forward)
    else
      AskLevelsValid(book.value, trig);
      Settle(NotionalWalk(AskLevels(book.value, trig), 0, amountFrom, 0.0), book.value, symbolFrom, symbolTo,
             ticker, Forward)
  }

  /** `orderBookReverseConversion`: the same walks with the sides exchanged.
      When the ticker names the pair in the order from-to, the amount is the
      base quantity to acquire and is walked through the asks (or the trigger
      levels) by quantity; otherwise it is walked through the bids by
      notional. */
  function ReverseConversion(trig: bool, amountFrom: real, symbolFrom: string, symbolTo: string,
                             ticker: string, book: Option<Depth>): (r: Result<real, Error>)
    requires CanWalk(book, trig)
  {
    if amountFrom == 0.0 then Ok(0.0)
    else if book.None? then Err(NoDepth(ticker))
    else if IsCrossed(book.value) then Err(Crossed(ticker))
    else if ticker == symbolFrom + symbolTo then
      Settle(QuantityWalk(AskLevels(book.value, trig), 0, amountFrom, 0.0), book.value, symbolFrom, symbolTo,
             ticker, Reverse)
    else
      Settle(NotionalWalk(book.value.bids, 0, amountFrom, 0.0), book.value, symbolFrom, symbolTo, ticker, Reverse)
  }

  /** The rate of the last level a walk visited: the one it finished on, or
      the last one when it ran out; `price` when there was none. */
  function LastRate(levels: Side, f: Fill, price: real): (r: real)
    requires f.Filled? ==> f.last < |levels|
  {
    match f
    case Filled(_, last) => levels[last].rate
    case Exhausted(_) => if |levels| == 0 then price else levels[|levels| - 1].rate
  }

  /** The `ab_limit_buy_price` a forward conversion leaves behind: under the
      trigger strategy, on the asks branch, the rate of the last level the
      loop visited; otherwise the price it was given. */
  function LimitPriceAfter(trig: bool, amountFrom: real, symbolFrom: string, symbolTo: string,
                           ticker: string, book: Option<Depth>, price: real): (r: real)
    requires CanWalk(book, trig)
  {
    if amountFrom == 0.0 || book.None? || IsCrossed(book.value) || ticker == symbolFrom + symbolTo || !trig then price
    else
      AskLevelsValid(book.value, trig);
      LastRate(AskLevels(book.value, trig), NotionalWalk(AskLevels(book.value, trig), 0, amountFrom, 0.0), price)
  }

  // ---------------------------------------------------------------------
  // The loops

  /** The loop over `bidRates` when the amount is in the base currency:
      level by level, by quantity. */
  method WalkBidsByQuantity(bids: Side, amountFrom: real) returns (f: Fill)
    ensures f == QuantityWalk(bids, 0, amountFrom, 0.0)
  {
    var remaining, amountTo := amountFrom, 0.0;
    var i := 0;
    while i < |bids|
      invariant 0 <= i <= |bids|
      invariant QuantityWalk(bids, i, remaining, amountTo) == QuantityWalk(bids, 0, amountFrom, 0.0)
    {
      var rate, quantity := bids[i].rate, bids[i].qty;
      var exchangeableAmount := quantity * rate;
      assert exchangeableAmount == Notional(bids[i]);
      if quantity < remaining {
        remaining := remaining - quantity;
        amountTo := amountTo + exchangeableAmount;
      } else {
        return Filled(amountTo + remaining * rate, i);
      }
      i := i + 1;
    }
    return Exhausted(remaining);
  }

  /** The loop over `bidRates` when the amount is in the quote currency:
      level by level, by notional. */
  method WalkBidsByNotional(bids: Side, amountFrom: real) returns (f: Fill)
    requires PositiveRates(bids)
    ensures f == NotionalWalk(bids, 0, amountFrom, 0.0)
  {
    var remaining, amountTo := amountFrom, 0.0;
    var i := 0;
    while i < |bids|
      invariant 0 <= i <= |bids|
      invariant NotionalWalk(bids, i, remaining, amountTo) == NotionalWalk(bids, 0, amountFrom, 0.0)
    {
      var rate, quantity := bids[i].rate, bids[i].qty;
      var exchangeableAmount := quantity * rate;
      assert exchangeableAmount == Notional(bids[i]);
      if exchangeableAmount < remaining {
        remaining := remaining - exchangeableAmount;
        amountTo := amountTo + quantity;
      } else {
        return Filled(amountTo + remaining / rate, i);
      }
      i := i + 1;
    }
    return Exhausted(remaining);
  }

  /** The rate and quantity of ask level `i`, or under the trigger strategy
      the blended rate and the quantity of bid level `i`. */
  method AskLevel(depth: Depth, trig: bool, i: nat) returns (rate: real, quantity: real)
    requires i < |depth.asks| && (trig ==> |depth.asks| <= |depth.bids|)
    ensures Level(rate, quantity) == AskLevels(depth, trig)[i]
  {
    if trig {
      rate := WeightedRate(1.0, 9.0, depth.asks[0].rate, depth.bids[i].rate);
      quantity := depth.bids[i].qty;
    } else {
      rate := depth.asks[i].rate;
      quantity := depth.asks[i].qty;
    }
  }

  /** The loop over `askRates` when the amount is in the quote currency:
      level by level, by notional. Under the trigger strategy each visited
      level's rate is written to the limit price. */
  method WalkAsksByNotional(depth: Depth, trig: bool, amountFrom: real, limitPrice: real)
    returns (f: Fill, price: real)
    requires ValidDepth(depth) && (trig ==> |depth.asks| <= |depth.bids|)
    ensures PositiveRates(AskLevels(depth, trig))
    ensures f == NotionalWalk(AskLevels(depth, trig), 0, amountFrom, 0.0)
    ensures price == if trig then LastRate(AskLevels(depth, trig), f, limitPrice) else limitPrice
  {
    ghost var levels := AskLevels(depth, trig);
    AskLevelsValid(depth, trig);
    price := limitPrice;
    var remaining, amountTo := amountFrom, 0.0;
    var i := 0;
    while i < |depth.asks|
      invariant 0 <= i <= |depth.asks| == |levels|
      invariant NotionalWalk(levels, i, remaining, amountTo) == NotionalWalk(levels, 0, amountFrom, 0.0)
      invariant price == if i == 0 || !trig then limitPrice else levels[i - 1].rate
    {
      var rate, quantity := AskLevel(depth, trig, i);
      if trig {
        price := rate;
      }
      var exchangeableAmount := quantity * rate;
      assert exchangeableAmount == Notional(levels[i]);
      if exchangeableAmount < remaining {
        remaining := remaining - exchangeableAmount;
        amountTo := amountTo + quantity;
      } else {
        return Filled(amountTo + remaining / rate, i), price;
      }
      i := i + 1;
    }
    return Exhausted(remaining), price;
  }

  /** The loop over `askRates` when the amount is the base quantity to
      acquire: level by level, by quantity. */
  method WalkAsksByQuantity(depth: Depth, trig: bool, amountFrom: real) returns (f: Fill)
    requires ValidDepth(depth) && (trig ==> |depth.asks| <= |depth.bids|)
    ensures f == QuantityWalk(AskLevels(depth, trig), 0, amountFrom, 0.0)
  {
    ghost var levels := AskLevels(depth, trig);
    var remaining, amountTo := amountFrom, 0.0;
    var i := 0;
    while i < |depth.asks|
      invariant 0 <= i <= |depth.asks| == |levels|
      invariant QuantityWalk(levels, i, remaining, amountTo) == QuantityWalk(levels, 0, amountFrom, 0.0)
    {
      var rate, quantity := AskLevel(depth, trig, i);
      var exchangeableAmount := quantity * rate;
      assert exchangeableAmount == Notional(levels[i]);
      if quantity < remaining {
        remaining := remaining - quantity;
        amountTo := amountTo + exchangeableAmount;
      } else {
        return Filled(amountTo + remaining * rate, i);
      }
      i := i + 1;
    }
    return Exhausted(remaining);
  }

  // ---------------------------------------------------------------------
  // The routines

  /** `orderBookConversion`, with `calculated.ab_limit_buy_price` passed in as
      `limitPrice` and handed back as `price`. */
  method OrderBookConversion(cfg: Config, amountFrom: real, symbolFrom: string, symbolTo: string,
                             ticker: string, book: Option<Depth>, phase: Phase, limitPrice: real)
    returns (r: Result<real, Error>, price: real)
    requires CanWalk(book, IsTrigger(cfg, phase))
    ensures r == Conversion(IsTrigger(cfg, phase), amountFrom, symbolFrom, symbolTo, ticker, book)
    ensures price == LimitPriceAfter(IsTrigger(cfg, phase), amountFrom, symbolFrom, symbolTo, ticker, book, limitPrice)
  {
    price := limitPrice;
    if amountFrom == 0.0 {
      return Ok(0.0), price;
    }
    if book.None? {
      return Err(NoDepth(ticker)), price;
    }
    var depth := book.value;
    if IsCrossed(depth) {
      return Err(Crossed(ticker)), price;
    }
    var trig := IsTrigger(cfg, phase);
    var f;
    if ticker == symbolFrom + symbolTo {
      f := WalkBidsByQuantity(depth.bids, amountFrom);
    } else {
      f, price := WalkAsksByNotional(depth, trig, amountFrom, limitPrice);
    }
    r := Settle(f, depth, symbolFrom, symbolTo, ticker, Forward);
  }

  /** `orderBookReverseConversion`; it never writes the limit price. */
  method OrderBookReverseConversion(cfg: Config, amountFrom: real, symbolFrom: string, symbolTo: string,
                                    ticker: string, book: Option<Depth>, phase: Phase)
    returns (r: Result<real, Error>)
    requires CanWalk(book, IsTrigger(cfg, phase))
    ensures r == ReverseConversion(IsTrigger(cfg, phase), amountFrom, symbolFrom, symbolTo, ticker, book)
  {
    if amountFrom == 0.0 {
      return Ok(0.0);
    }
    if book.None? {
      return Err(NoDepth(ticker));
    }
    var depth := book.value;
    if IsCrossed(depth) {
      return Err(Crossed(ticker));
    }
    var trig := IsTrigger(cfg, phase);
    var f;
    if ticker == symbolFrom + symbolTo {
      f := WalkAsksByQuantity(depth, trig, amountFrom);
    } else {
      f := WalkBidsByNotional(depth.bids, amountFrom);
    }
    r := Settle(f, depth, symbolFrom, symbolTo, ticker, Reverse);
  }

  // ---------------------------------------------------------------------
  // Guards and errors

  /** A zero amount converts to zero before the book is looked at, whatever
      the book holds or lacks, and leaves the limit price alone. */
  lemma ZeroConvertsToZero(trig: bool, symbolFrom: string, symbolTo: string, ticker: string,
                           book: Option<Depth>, price: real)
    requires CanWalk(book, trig)
    ensures Conversion(trig, 0.0, symbolFrom, symbolTo, ticker, book) == Ok(0.0)
    ensures ReverseConversion(trig, 0.0, symbolFrom, symbolTo, ticker, book) == Ok(0.0)
    ensures LimitPriceAfter(trig, 0.0, symbolFrom, symbolTo, ticker, book, price) == price
  {
  }

  /** A non-zero amount on a book whose best bid is strictly above its best
      ask fails with the spread error in either direction, and that error
      arises in no other way. Equal best prices are not crossed. */
  lemma CrossedBookFails(trig: bool, amountFrom: real, symbolFrom: string, symbolTo: string,
                         ticker: string, book: Option<Depth>)
    requires CanWalk(book, trig)
    ensures Conversion(trig, amountFrom, symbolFrom, symbolTo, ticker, book) == Err(Crossed(ticker))
        <==> amountFrom != 0.0 && book.Some? && IsCrossed(book.value)
    ensures ReverseConversion(trig, amountFrom, symbolFrom, symbolTo, ticker, book) == Err(Crossed(ticker))
        <==> amountFrom != 0.0 && book.Some? && IsCrossed(book.value)
    ensures (book.Some? && |book.value.bids| > 0 && |book.value.asks| > 0
             && book.value.bids[0].rate == book.value.asks[0].rate) ==> !IsCrossed(book.value)
  {
  }

  /** On the bids, a positive amount of the base currency converts exactly
      when it does not exceed the quantity the bids hold; otherwise the error
      names the ticker, both symbols and the amount left over. */
  lemma ConversionOnBids(trig: bool, amountFrom: real, symbolFrom: string, symbolTo: string,
                         ticker: string, depth: Depth)
    requires CanWalk(Some(depth), trig) && NonNegativeDepth(depth)
    requires amountFrom > 0.0 && !IsCrossed(depth) && ticker == symbolFrom + symbolTo
    ensures var r := Conversion(trig, amountFrom, symbolFrom, symbolTo, ticker, Some(depth));
      && (r.Ok? <==> amountFrom <= SumQuantity(depth.bids, 0))
      && (r.Err? ==> r.error == Shallow(ticker, |depth.bids|, |depth.asks|,
                                        amountFrom - SumQuantity(depth.bids, 0), symbolFrom, symbolTo, Forward))
  {
    QuantityWalkFills(depth.bids, 0, amountFrom, 0.0);
  }

  /** On the asks (or the trigger levels), a positive amount of the quote
      currency converts exactly when it does not exceed the notional those
      levels hold; otherwise the error carries the amount left over. */
  lemma ConversionOnAsks(trig: bool, amountFrom: real, symbolFrom: string, symbolTo: string,
                         ticker: string, depth: Depth)
    requires CanWalk(Some(depth), trig) && NonNegativeDepth(depth)
    requires amountFrom > 0.0 && !IsCrossed(depth) && ticker != symbolFrom + symbolTo
    ensures var r := Conversion(trig, amountFrom, symbolFrom, symbolTo, ticker, Some(depth));
      var total := SumNotional(AskLevels(depth, trig), 0);
      && (r.Ok? <==> amountFrom <= total)
      && (r.Err? ==> r.error == Shallow(ticker, |depth.bids|, |depth.asks|,
                                        amountFrom - total, symbolFrom, symbolTo, Forward))
  {
    AskLevelsValid(depth, trig);
    NotionalWalkFills(AskLevels(depth, trig), 0, amountFrom, 0.0);
  }

  /** The reverse conversion on the asks (or the trigger levels) acquires a
      positive base quantity exactly when those levels hold that much. */
  lemma ReverseConversionOnAsks(trig: bool, amountFrom: real, symbolFrom: string, symbolTo: string,
                                ticker: string, depth: Depth)
    requires CanWalk(Some(depth), trig) && NonNegativeDepth(depth)
    requires amountFrom > 0.0 && !IsCrossed(depth) && ticker == symbolFrom + symbolTo
    ensures var r := ReverseConversion(trig, amountFrom, symbolFrom, symbolTo, ticker, Some(depth));
      var total := SumQuantity(AskLevels(depth, trig), 0);
      && (r.Ok? <==> amountFrom <= total)
      && (r.Err? ==> r.error == Shallow(ticker, |depth.bids|, |depth.asks|,
                                        amountFrom - total, symbolFrom, symbolTo, Reverse))
  {
    AskLevelsValid(depth, trig);
    QuantityWalkFills(AskLevels(depth, trig), 0, amountFrom, 0.0);
  }

  /** The reverse conversion on the bids converts a positive amount exactly
      when it does not exceed the notional the bids hold. */
  lemma ReverseConversionOnBids(trig: bool, amountFrom: real, symbolFrom: string, symbolTo: string,
                                ticker: string, depth: Depth)
    requires CanWalk(Some(depth), trig) && NonNegativeDepth(depth)
    requires amountFrom > 0.0 && !IsCrossed(depth) && ticker != symbolFrom + symbolTo
    ensures var r := ReverseConversion(trig, amountFrom, symbolFrom, symbolTo, ticker, Some(depth));
      && (r.Ok? <==> amountFrom <= SumNotional(depth.bids, 0))
      && (r.Err? ==> r.error == Shallow(ticker, |depth.bids|, |depth.asks|,
                                        amountFrom - SumNotional(depth.bids, 0), symbolFrom, symbolTo, Reverse))
  {
    NotionalWalkFills(depth.bids, 0, amountFrom, 0.0);
  }

  /** A book with one bid level `(rate, qty)`: selling at most `qty` yields
      the amount times the rate, selling more fails by the excess. */
  lemma SingleBidLevel(trig: bool, amountFrom: real, symbolFrom: string, symbolTo: string,
                       ticker: string, depth: Depth, rate: real, qty: real)
    requires CanWalk(Some(depth), trig) && depth.bids == [Level(rate, qty)]
    requires !IsCrossed(depth) && ticker == symbolFrom + symbolTo && amountFrom > 0.0
    ensures amountFrom <= qty ==>
      Conversion(trig, amountFrom, symbolFrom, symbolTo, ticker, Some(depth)) == Ok(amountFrom * rate)
    ensures amountFrom > qty ==>
      Conversion(trig, amountFrom, symbolFrom, symbolTo, ticker, Some(depth))
        == Err(Shallow(ticker, 1, |depth.asks|, amountFrom - qty, symbolFrom, symbolTo, Forward))
  {
    var bids := depth.bids;
    if amountFrom <= qty {
      assert QuantityWalk(bids, 0, amountFrom, 0.0) == Filled(0.0 + Worth(amountFrom, bids[0]), 0);
      assert Worth(amountFrom, bids[0]) == amountFrom * rate;
    } else {
      assert QuantityWalk(bids, 0, amountFrom, 0.0) == QuantityWalk(bids, 1, amountFrom - qty, Notional(bids[0]));
    }
  }

  /** A non-negative amount converts, in either direction, to a non-negative
      amount, which is zero exactly when the amount is. */
  lemma ConversionsKeepSign(trig: bool, amountFrom: real, symbolFrom: string, symbolTo: string,
                            ticker: string, book: Option<Depth>)
    requires CanWalk(book, trig) && NonNegativeBook(book) && amountFrom >= 0.0
    ensures var r := Conversion(trig, amountFrom, symbolFrom, symbolTo, ticker, book);
      r.Ok? ==> r.value >= 0.0 && (r.value == 0.0 <==> amountFrom == 0.0)
    ensures var r := ReverseConversion(trig, amountFrom, symbolFrom, symbolTo, ticker, book);
      r.Ok? ==> r.value >= 0.0 && (r.value == 0.0 <==> amountFrom == 0.0)
  {
    if amountFrom > 0.0 && book.Some? && !IsCrossed(book.value) {
      var depth := book.value;
      AskLevelsValid(depth, trig);
      var levels := AskLevels(depth, trig);
      if QuantityWalk(depth.bids, 0, amountFrom, 0.0).Filled? {
        QuantityWalkGrows(depth.bids, 0, amountFrom, 0.0);
      }
      if NotionalWalk(levels, 0, amountFrom, 0.0).Filled? {
        NotionalWalkGrows(levels, 0, amountFrom, 0.0);
      }
      if QuantityWalk(levels, 0, amountFrom, 0.0).Filled? {
        QuantityWalkGrows(levels, 0, amountFrom, 0.0);
      }
      if NotionalWalk(depth.bids, 0, amountFrom, 0.0).Filled? {
        NotionalWalkGrows(depth.bids, 0, amountFrom, 0.0);
      }
    }
  }

  // ---------------------------------------------------------------------
  // The reverse conversion is the inverse of the forward one

  /** The same instrument read with the currencies in either order. */
  predicate SamePair(symbolFrom: string, symbolTo: string, ticker: string)
  {
    (ticker == symbolFrom + symbolTo || ticker == symbolTo + symbolFrom)
    && symbolFrom + symbolTo != symbolTo + symbolFrom
  }

  /** Reverse-converting the whole amount a forward conversion produced, on
      the same book and the same strategy, gives back exactly the amount that
      was converted. */
  lemma ReverseUndoesConversion(trig: bool, amountFrom: real, symbolFrom: string, symbolTo: string,
                                ticker: string, depth: Depth)
    requires CanWalk(Some(depth), trig) && NonNegativeDepth(depth) && SamePair(symbolFrom, symbolTo, ticker)
    requires amountFrom >= 0.0 && Conversion(trig, amountFrom, symbolFrom, symbolTo, ticker, Some(depth)).Ok?
    ensures var y := Conversion(trig, amountFrom, symbolFrom, symbolTo, ticker, Some(depth)).value;
      y >= 0.0 && ReverseConversion(trig, y, symbolTo, symbolFrom, ticker, Some(depth)) == Ok(amountFrom)
  {
    if amountFrom > 0.0 {
      AskLevelsValid(depth, trig);
      if ticker == symbolFrom + symbolTo {
        QuantityWalkGrows(depth.bids, 0, amountFrom, 0.0);
        NotionalUndoesQuantity(depth.bids, 0, amountFrom, 0.0, 0.0);
      } else {
        var levels := AskLevels(depth, trig);
        NotionalWalkGrows(levels, 0, amountFrom, 0.0);
        QuantityUndoesNotional(levels, 0, amountFrom, 0.0, 0.0);
      }
    }
  }

  /** Reverse-converting any part of what a forward conversion produced (the
      dust-rounded amount of a Buy leg, say) succeeds and costs no more than
      the amount that was converted: rounding loses, it never gains. */
  lemma ReverseOfLessNeverExceeds(trig: bool, amountFrom: real, symbolFrom: string, symbolTo: string,
                                  ticker: string, depth: Depth, part: real)
    requires CanWalk(Some(depth), trig) && NonNegativeDepth(depth) && SamePair(symbolFrom, symbolTo, ticker)
    requires amountFrom >= 0.0 && Conversion(trig, amountFrom, symbolFrom, symbolTo, ticker, Some(depth)).Ok?
    requires 0.0 <= part <= Conversion(trig, amountFrom, symbolFrom, symbolTo, ticker, Some(depth)).value
    ensures var r := ReverseConversion(trig, part, symbolTo, symbolFrom, ticker, Some(depth));
      r.Ok? && 0.0 <= r.value <= amountFrom
  {
    ReverseUndoesConversion(trig, amountFrom, symbolFrom, symbolTo, ticker, depth);
    var y := Conversion(trig, amountFrom, symbolFrom, symbolTo, ticker, Some(depth)).value;
    if part > 0.0 {
      AskLevelsValid(depth, trig);
      if ticker == symbolFrom + symbolTo {
        NotionalWalkMonotone(depth.bids, 0, y, part, 0.0);
        NotionalWalkGrows(depth.bids, 0, part, 0.0);
      } else {
        var levels := AskLevels(depth, trig);
        QuantityWalkMonotone(levels, 0, y, part, 0.0);
        QuantityWalkGrows(levels, 0, part, 0.0);
      }
    }
  }

  // ---------------------------------------------------------------------
  // The trigger strategy's limit price

  /** Under the trigger strategy a forward conversion on the asks branch that
      succeeds leaves as limit price the blended rate of the level it finished
      on: a tenth of the way from that bid to the best ask, so inside the
      spread on a well-ordered book. Without the trigger strategy, or on the
      bids branch, the price is left as it was. */
  lemma TriggerLimitPrice(trig: bool, amountFrom: real, symbolFrom: string, symbolTo: string,
                          ticker: string, depth: Depth, price: real)
    requires CanWalk(Some(depth), trig) && amountFrom != 0.0 && !IsCrossed(depth)
    requires Conversion(trig, amountFrom, symbolFrom, symbolTo, ticker, Some(depth)).Ok?
    ensures !trig || ticker == symbolFrom + symbolTo ==>
      LimitPriceAfter(trig, amountFrom, symbolFrom, symbolTo, ticker, Some(depth), price) == price
    ensures trig && ticker != symbolFrom + symbolTo ==>
      var p := LimitPriceAfter(trig, amountFrom, symbolFrom, symbolTo, ticker, Some(depth), price);
      exists j :: 0 <= j < |depth.asks|
        && p == TriggerRate(depth.asks[0].rate, depth.bids[j].rate)
        && (WellOrdered(depth) ==> depth.bids[j].rate <= p <= depth.asks[0].rate)
  {
    if trig && ticker != symbolFrom + symbolTo {
      AskLevelsValid(depth, trig);
      var levels := AskLevels(depth, trig);
      var j := NotionalWalk(levels, 0, amountFrom, 0.0).last;
      var p := LimitPriceAfter(trig, amountFrom, symbolFrom, symbolTo, ticker, Some(depth), price);
      assert p == TriggerRate(depth.asks[0].rate, depth.bids[j].rate);
      if WellOrdered(depth) {
        assert depth.bids[j].rate <= depth.bids[0].rate;
        TriggerRateFacts(depth.asks[0].rate, depth.bids[j].rate);
      }
      assert 0 <= j < |depth.asks| && p == TriggerRate(depth.asks[0].rate, depth.bids[j].rate)
        && (WellOrdered(depth) ==> depth.bids[j].rate <= p <= depth.asks[0].rate);
    }
  }
}
