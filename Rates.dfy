/** The rate blend of the "trigger" execution strategy and the test that
    switches that strategy on. */
module Rates {
  import opened Types

  /** `getWeightedRate`: the mean of the ask rate and the bid rate weighted by
      `askWeight` and `bidWeight`. The result is the one rate at which the
      weighted distances to the two rates cancel out. */
  function WeightedRate(askWeight: real, bidWeight: real, askRate: real, bidRate: real): (r: real)
    requires askWeight + bidWeight != 0.0
    ensures bidWeight * (bidRate - r) + askWeight * (askRate - r) == 0.0
  {
    (bidWeight * bidRate + askWeight * askRate) / (askWeight + bidWeight)
  }

  /** With non-negative weights the blend lies between the two rates. */
  lemma WeightedRateBetween(askWeight: real, bidWeight: real, askRate: real, bidRate: real)
    requires askWeight >= 0.0 && bidWeight >= 0.0 && askWeight + bidWeight > 0.0
    requires bidRate <= askRate
    ensures bidRate <= WeightedRate(askWeight, bidWeight, askRate, bidRate) <= askRate
  {
    var w := askWeight + bidWeight;
    var r := WeightedRate(askWeight, bidWeight, askRate, bidRate);
    assert w * r == bidWeight * bidRate + askWeight * askRate;
    assert w * (r - bidRate) == askWeight * (askRate - bidRate);
    assert w * (askRate - r) == bidWeight * (askRate - bidRate);
    ProductNonNegative(askWeight, askRate - bidRate);
    ProductNonNegative(bidWeight, askRate - bidRate);
    FactorNonNegative(w, r - bidRate);
    FactorNonNegative(w, askRate - r);
  }

  lemma ProductNonNegative(x: real, y: real)
    requires x >= 0.0 && y >= 0.0
    ensures x * y >= 0.0
  {
  }

  lemma FactorNonNegative(w: real, x: real)
    requires w > 0.0 && w * x >= 0.0
    ensures x >= 0.0
  {
  }

  /** The rate the trigger strategy uses at bid level `bidRate`:
      `getWeightedRate(1, 9, bestAsk, bidRate)`. */
  function TriggerRate(bestAsk: real, bidRate: real): (r: real)
  {
    WeightedRate(1.0, 9.0, bestAsk, bidRate)
  }

  /** The trigger rate sits a tenth of the spread above the bid, so it is
      positive when both rates are, and between them on a book that is not
      crossed. */
  lemma TriggerRateFacts(bestAsk: real, bidRate: real)
    ensures TriggerRate(bestAsk, bidRate) == bidRate + (bestAsk - bidRate) / 10.0
    ensures bestAsk > 0.0 && bidRate > 0.0 ==> TriggerRate(bestAsk, bidRate) > 0.0
    ensures bidRate <= bestAsk ==> bidRate <= TriggerRate(bestAsk, bidRate) <= bestAsk
  {
    var r := TriggerRate(bestAsk, bidRate);
    assert 9.0 * (bidRate - r) + (bestAsk - r) == 0.0;
    if bidRate <= bestAsk {
      WeightedRateBetween(1.0, 9.0, bestAsk, bidRate);
    }
  }

  /** `String.prototype.toLowerCase` on the ASCII letters. */
  function LowerChar(c: char): (l: char)
    ensures 'A' <= c <= 'Z' ==> 'a' <= l <= 'z'
    ensures !('A' <= c <= 'Z') ==> l == c
  {
    if 'A' <= c <= 'Z' then (c as int - 'A' as int + 'a' as int) as char else c
  }

  function ToLower(s: string): (l: string)
    ensures |l| == |s|
    ensures forall i :: 0 <= i < |s| ==> l[i] == LowerChar(s[i])
  {
    if s == [] then [] else [LowerChar(s[0])] + ToLower(s[1..])
  }

  /** The trigger strategy is in force when the configured strategy lowercases
      to "trigger" and the conversion is made for the AB leg. */
  predicate IsTrigger(cfg: Config, phase: Phase)
  {
    ToLower(cfg.executionStrategy) == "trigger" && phase == AB
  }

  /** The strategy test ignores letter case. */
  lemma TriggerIgnoresCase(cfg: Config, phase: Phase)
    requires cfg.executionStrategy == "TRIGGER"
    ensures IsTrigger(cfg, phase) <==> phase == AB
  {
    assert ToLower(cfg.executionStrategy) == "trigger";
  }

  /** The sweeping strategy never prices a leg by the trigger blend. */
  lemma SweepNeverTriggers(cfg: Config, phase: Phase)
    requires cfg.executionStrategy == "sweep"
    ensures !IsTrigger(cfg, phase)
  {
    assert ToLower(cfg.executionStrategy)[0] == 's';
  }
}
