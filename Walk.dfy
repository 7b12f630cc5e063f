/** The two ways the conversion routines walk one side of a book, best level
    first, as recursive specifications of their loops, and what they compute:
    when they succeed, what they leave over, and that each one undoes the
    other. */
module Walk {
  import opened Types

  /** How a walk ends: the converted amount and the index of the level that
      finished it, or the amount still unconverted when every level has been
      consumed. */
  datatype Fill = Filled(amount: real, last: nat) | Exhausted(remaining: real)

  /** What a whole level is worth in the quote currency. */
  function Notional(l: Level): (r: real)
  {
    l.qty * l.rate
  }

  /** What `x` units of the base currency are worth at the level's rate. */
  function Worth(x: real, l: Level): (r: real)
  {
    x * l.rate
  }

  /** How many base units `y` of the quote currency buy at the level's rate. */
  function Units(y: real, l: Level): (r: real)
    requires l.rate > 0.0
  {
    y / l.rate
  }

  /** A walk whose levels are measured by quantity (the source amount is in the
      instrument's base currency). From level `i` on, with `remaining` still to
      convert and `acc` already obtained: a level whose quantity is below the
      remaining amount is consumed whole and adds its notional; the first
      level with quantity at least the remaining amount finishes the walk with
      what the remaining amount is worth at that level. */
  function QuantityWalk(side: Side, i: nat, remaining: real, acc: real): (f: Fill)
    requires i <= |side|
    ensures f.Filled? ==> i <= f.last < |side|
    decreases |side| - i
  {
    if i == |side| then Exhausted(remaining)
    else if side[i].qty < remaining then
      QuantityWalk(side, i + 1, remaining - side[i].qty, acc + Notional(side[i]))
    else Filled(acc + Worth(remaining, side[i]), i)
  }

  /** A walk whose levels are measured by notional (the source amount is in
      the quote currency): a level whose notional is below the remaining amount
      is consumed whole and adds its quantity; the first other level finishes
      the walk with the units the remaining amount buys at that level. */
  function NotionalWalk(side: Side, i: nat, remaining: real, acc: real): (f: Fill)
    requires i <= |side| && PositiveRates(side)
    ensures f.Filled? ==> i <= f.last < |side|
    decreases |side| - i
  {
    if i == |side| then Exhausted(remaining)
    else if Notional(side[i]) < remaining then
      NotionalWalk(side, i + 1, remaining - Notional(side[i]), acc + side[i].qty)
    else Filled(acc + Units(remaining, side[i]), i)
  }

  /** The quantity resting on levels `i..` of a side. */
  function SumQuantity(side: Side, i: nat): (r: real)
    requires i <= |side|
    decreases |side| - i
  {
    if i == |side| then 0.0 else side[i].qty + SumQuantity(side, i + 1)
  }

  /** The notional resting on levels `i..` of a side. */
  function SumNotional(side: Side, i: nat): (r: real)
    requires i <= |side|
    decreases |side| - i
  {
    if i == |side| then 0.0 else Notional(side[i]) + SumNotional(side, i + 1)
  }

  // ---------------------------------------------------------------------
  // Arithmetic on one level

  lemma WorthMonotone(a: real, b: real, l: Level)
    requires a <= b && l.rate > 0.0
    ensures Worth(a, l) <= Worth(b, l)
  {
  }

  lemma UnitsMonotone(a: real, b: real, l: Level)
    requires a <= b && l.rate > 0.0
    ensures Units(a, l) <= Units(b, l)
  {
    assert b / l.rate - a / l.rate == (b - a) / l.rate;
  }

  lemma LevelFacts(l: Level)
    requires l.qty >= 0.0 && l.rate > 0.0
    ensures Notional(l) >= 0.0
    ensures Units(Notional(l), l) == l.qty
    ensures Worth(l.qty, l) == Notional(l)
  {
  }

  lemma WorthPositive(x: real, l: Level)
    requires x > 0.0 && l.rate > 0.0
    ensures Worth(x, l) > 0.0 && Units(x, l) > 0.0
  {
  }

  lemma UnitsOfWorth(x: real, l: Level)
    requires l.rate > 0.0
    ensures Units(Worth(x, l), l) == x && Worth(Units(x, l), l) == x
  {
  }

  // ---------------------------------------------------------------------
  // Totals

  lemma {:induction false} SumQuantityNonNegative(side: Side, i: nat)
    requires i <= |side| && NonNegativeQuantities(side)
    ensures SumQuantity(side, i) >= 0.0
    decreases |side| - i
  {
    if i < |side| {
      SumQuantityNonNegative(side, i + 1);
    }
  }

  lemma {:induction false} SumNotionalNonNegative(side: Side, i: nat)
    requires i <= |side| && NonNegativeQuantities(side) && PositiveRates(side)
    ensures SumNotional(side, i) >= 0.0
    decreases |side| - i
  {
    if i < |side| {
      LevelFacts(side[i]);
      SumNotionalNonNegative(side, i + 1);
    }
  }

  // ---------------------------------------------------------------------
  // When a walk succeeds, and what it leaves over when it does not

  /** A positive amount is converted exactly when it does not exceed the
      quantity on the side; otherwise the walk reports the excess. */
  lemma {:induction false} QuantityWalkFills(side: Side, i: nat, remaining: real, acc: real)
    requires i <= |side| && NonNegativeQuantities(side) && remaining > 0.0
    ensures QuantityWalk(side, i, remaining, acc).Filled? <==> remaining <= SumQuantity(side, i)
    ensures QuantityWalk(side, i, remaining, acc).Exhausted? ==>
      QuantityWalk(side, i, remaining, acc).remaining == remaining - SumQuantity(side, i)
    decreases |side| - i
  {
    if i < |side| {
      SumQuantityNonNegative(side, i + 1);
      if side[i].qty < remaining {
        QuantityWalkFills(side, i + 1, remaining - side[i].qty, acc + Notional(side[i]));
      }
    }
  }

  /** A positive amount is converted exactly when it does not exceed the
      notional on the side; otherwise the walk reports the excess. */
  lemma {:induction false} NotionalWalkFills(side: Side, i: nat, remaining: real, acc: real)
    requires i <= |side| && NonNegativeQuantities(side) && PositiveRates(side) && remaining > 0.0
    ensures NotionalWalk(side, i, remaining, acc).Filled? <==> remaining <= SumNotional(side, i)
    ensures NotionalWalk(side, i, remaining, acc).Exhausted? ==>
      NotionalWalk(side, i, remaining, acc).remaining == remaining - SumNotional(side, i)
    decreases |side| - i
  {
    if i < |side| {
      SumNotionalNonNegative(side, i + 1);
      if Notional(side[i]) < remaining {
        NotionalWalkFills(side, i + 1, remaining - Notional(side[i]), acc + side[i].qty);
      }
    }
  }

  // ---------------------------------------------------------------------
  // A positive amount always converts to more than nothing

  lemma {:induction false} QuantityWalkGrows(side: Side, i: nat, remaining: real, acc: real)
    requires i <= |side| && NonNegativeQuantities(side) && PositiveRates(side) && remaining > 0.0
    requires QuantityWalk(side, i, remaining, acc).Filled?
    ensures QuantityWalk(side, i, remaining, acc).amount > acc
    decreases |side| - i
  {
    var l := side[i];
    LevelFacts(l);
    if l.qty < remaining {
      QuantityWalkGrows(side, i + 1, remaining - l.qty, acc + Notional(l));
    } else {
      WorthPositive(remaining, l);
    }
  }

  lemma {:induction false} NotionalWalkGrows(side: Side, i: nat, remaining: real, acc: real)
    requires i <= |side| && NonNegativeQuantities(side) && PositiveRates(side) && remaining > 0.0
    requires NotionalWalk(side, i, remaining, acc).Filled?
    ensures NotionalWalk(side, i, remaining, acc).amount > acc
    decreases |side| - i
  {
    var l := side[i];
    if Notional(l) < remaining {
      NotionalWalkGrows(side, i + 1, remaining - Notional(l), acc + l.qty);
    } else {
      WorthPositive(remaining, l);
    }
  }

  // ---------------------------------------------------------------------
  // Each walk undoes the other

  /** Walking by notional the amount a quantity walk produced gives back the
      original amount, finishing on the same level. */
  lemma {:induction false} NotionalUndoesQuantity(side: Side, i: nat, remaining: real, accQ: real, accN: real)
    requires i <= |side| && NonNegativeQuantities(side) && PositiveRates(side) && remaining > 0.0
    requires QuantityWalk(side, i, remaining, accQ).Filled?
    ensures var f := QuantityWalk(side, i, remaining, accQ);
      NotionalWalk(side, i, f.amount - accQ, accN) == Filled(accN + remaining, f.last)
    decreases |side| - i
  {
    var l := side[i];
    var f := QuantityWalk(side, i, remaining, accQ);
    if l.qty < remaining {
      var accQ' := accQ + Notional(l);
      QuantityWalkGrows(side, i + 1, remaining - l.qty, accQ');
      NotionalUndoesQuantity(side, i + 1, remaining - l.qty, accQ', accN + l.qty);
      assert f.amount - accQ - Notional(l) == f.amount - accQ';
    } else {
      WorthMonotone(remaining, l.qty, l);
      LevelFacts(l);
      UnitsOfWorth(remaining, l);
    }
  }

  /** Walking by quantity the amount a notional walk produced gives back the
      original amount, finishing on the same level. */
  lemma {:induction false} QuantityUndoesNotional(side: Side, i: nat, remaining: real, accN: real, accQ: real)
    requires i <= |side| && NonNegativeQuantities(side) && PositiveRates(side) && remaining > 0.0
    requires NotionalWalk(side, i, remaining, accN).Filled?
    ensures var f := NotionalWalk(side, i, remaining, accN);
      QuantityWalk(side, i, f.amount - accN, accQ) == Filled(accQ + remaining, f.last)
    decreases |side| - i
  {
    var l := side[i];
    var f := NotionalWalk(side, i, remaining, accN);
    if Notional(l) < remaining {
      var accN' := accN + l.qty;
      NotionalWalkGrows(side, i + 1, remaining - Notional(l), accN');
      QuantityUndoesNotional(side, i + 1, remaining - Notional(l), accN', accQ + Notional(l));
      assert f.amount - accN - l.qty == f.amount - accN';
    } else {
      UnitsMonotone(remaining, Notional(l), l);
      LevelFacts(l);
      UnitsOfWorth(remaining, l);
    }
  }

  // ---------------------------------------------------------------------
  // Converting less never yields more

  lemma {:induction false} QuantityWalkMonotone(side: Side, i: nat, a: real, b: real, acc: real)
    requires i <= |side| && NonNegativeQuantities(side) && PositiveRates(side)
    requires 0.0 < b <= a && QuantityWalk(side, i, a, acc).Filled?
    ensures QuantityWalk(side, i, b, acc).Filled?
    ensures QuantityWalk(side, i, b, acc).amount <= QuantityWalk(side, i, a, acc).amount
    decreases |side| - i
  {
    var l := side[i];
    if l.qty < a {
      var acc' := acc + Notional(l);
      if l.qty < b {
        QuantityWalkMonotone(side, i + 1, a - l.qty, b - l.qty, acc');
      } else {
        QuantityWalkGrows(side, i + 1, a - l.qty, acc');
        WorthMonotone(b, l.qty, l);
        LevelFacts(l);
      }
    } else {
      WorthMonotone(b, a, l);
    }
  }

  lemma {:induction false} NotionalWalkMonotone(side: Side, i: nat, a: real, b: real, acc: real)
    requires i <= |side| && NonNegativeQuantities(side) && PositiveRates(side)
    requires 0.0 < b <= a && NotionalWalk(side, i, a, acc).Filled?
    ensures NotionalWalk(side, i, b, acc).Filled?
    ensures NotionalWalk(side, i, b, acc).amount <= NotionalWalk(side, i, a, acc).amount
    decreases |side| - i
  {
    var l := side[i];
    if Notional(l) < a {
      if Notional(l) < b {
        NotionalWalkMonotone(side, i + 1, a - Notional(l), b - Notional(l), acc + l.qty);
      } else {
        NotionalWalkGrows(side, i + 1, a - Notional(l), acc + l.qty);
        UnitsMonotone(b, Notional(l), l);
        LevelFacts(l);
      }
    } else {
      UnitsMonotone(b, a, l);
    }
  }
}
