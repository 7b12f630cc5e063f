/** `optimize`: evaluates a triangle at every investment size of the
    configured range and keeps the one with the best return. */
module Optimizer {
  import opened Types
  import opened Triangle

  /** The first investment size: the configured minimum, or the step when the
      minimum is 0 (`MIN || STEP`). */
  function Start(cfg: Config): (r: real)
  {
    if cfg.investMin == 0.0 then cfg.investStep else cfg.investMin
  }

  /** The investment size the loop tries on its `k`-th pass. */
  function Candidate(cfg: Config, k: nat): (r: real)
  {
    Start(cfg) + k as real * cfg.investStep
  }

  lemma NextCandidate(cfg: Config, k: nat)
    ensures Candidate(cfg, k) + cfg.investStep == Candidate(cfg, k + 1)
  {
    assert (k + 1) as real * cfg.investStep == k as real * cfg.investStep + cfg.investStep;
  }

  /** The loop ends: either the step is positive, or the first size is
      already above the maximum, so that the body never runs. */
  predicate Ends(cfg: Config)
  {
    cfg.investStep > 0.0 || Start(cfg) > cfg.investMax
  }

  /** How many passes the loop makes: the sizes from the start up to the
      maximum, inclusive. */
  function Count(cfg: Config): (r: nat)
    requires Ends(cfg)
  {
    if Start(cfg) > cfg.investMax then 0
    else ((cfg.investMax - Start(cfg)) / cfg.investStep).Floor as nat + 1
  }

  lemma ScaledAtMost(k: real, step: real, d: real)
    requires step > 0.0
    ensures k * step <= d <==> k <= d / step
  {
    assert d / step * step == d;
    if k <= d / step {
      assert k * step <= d / step * step;
    } else {
      assert k * step > d / step * step;
    }
  }

  /** The loop tries exactly the sizes `Candidate(0)`, ...,
      `Candidate(Count - 1)`: each of them is within the maximum, and the next
      one is not. */
  lemma CandidateInRange(cfg: Config, k: nat)
    requires cfg.investStep > 0.0
    ensures Candidate(cfg, k) <= cfg.investMax <==> k < Count(cfg)
  {
    var d := cfg.investMax - Start(cfg);
    ScaledAtMost(k as real, cfg.investStep, d);
    if Start(cfg) <= cfg.investMax {
      assert d / cfg.investStep >= 0.0;
    }
  }

  /** The sizes `Candidate(0)`, ..., `Candidate(Count - 1)` are within the
      maximum and `Candidate(Count)` is not, whatever the sign of the step. */
  lemma SizesTried(cfg: Config)
    requires Ends(cfg)
    ensures forall k: nat :: k < Count(cfg) ==> Candidate(cfg, k) <= cfg.investMax
    ensures Candidate(cfg, Count(cfg)) > cfg.investMax
  {
    if cfg.investStep > 0.0 {
      forall k: nat | k <= Count(cfg)
        ensures k < Count(cfg) <==> Candidate(cfg, k) <= cfg.investMax
      {
        CandidateInRange(cfg, k);
      }
    }
  }

  /** The evaluation at the `k`-th size. */
  function Trial(cfg: Config, trade: Relationship, snap: Snapshot, k: nat): (r: Result<Calculated, Error>)
    requires Evaluable(cfg, snap)
  {
    Evaluate(cfg, Candidate(cfg, k), trade, snap)
  }

  /** The evaluations at every size the loop tries, in order: one for each
      size within the maximum, and none for the first size beyond it. */
  function Trials(cfg: Config, trade: Relationship, snap: Snapshot): (trials: seq<Result<Calculated, Error>>)
    requires Ends(cfg) && Evaluable(cfg, snap)
    ensures |trials| == Count(cfg)
    ensures forall k :: 0 <= k < |trials| ==> trials[k] == Trial(cfg, trade, snap, k)
    ensures forall k: nat :: k < |trials| ==> Candidate(cfg, k) <= cfg.investMax
    ensures Candidate(cfg, |trials|) > cfg.investMax
  {
    SizesTried(cfg);
    seq(Count(cfg), k requires 0 <= k => Trial(cfg, trade, snap, k))
  }

  /** The loop from pass `k` on, holding `best`: the first failed evaluation
      ends it with that failure; an evaluation replaces `best` when there is
      none yet or when its return is strictly greater. */
  function Sweep(trials: seq<Result<Calculated, Error>>, k: nat, best: Option<Calculated>)
    : (r: Result<Option<Calculated>, Error>)
    requires k <= |trials|
    decreases |trials| - k
  {
    if k == |trials| then Ok(best)
    else
      var c :- trials[k];
      Sweep(trials, k + 1, if best.None? || Exceeds(c.percent, best.value.percent) then Some(c) else best)
  }

  /** What `optimize` returns for a triangle and a snapshot. */
  function Optimized(cfg: Config, trade: Relationship, snap: Snapshot): (r: Result<Option<Calculated>, Error>)
    requires Ends(cfg) && Evaluable(cfg, snap)
  {
    Sweep(Trials(cfg, trade, snap), 0, None)
  }

  /** `optimize`. The loop runs on the investment size itself, as the source
      does; `k` only counts the passes. */
  method Optimize(cfg: Config, trade: Relationship, snap: Snapshot) returns (r: Result<Option<Calculated>, Error>)
    requires Ends(cfg) && Evaluable(cfg, snap)
    ensures r == Optimized(cfg, trade, snap)
  {
    ghost var trials := Trials(cfg, trade, snap);
    var best: Option<Calculated> := None;
    var quantity := Start(cfg);
    ghost var k: nat := 0;
    while quantity <= cfg.investMax
      invariant k <= |trials| && quantity == Candidate(cfg, k)
      invariant Sweep(trials, k, best) == Sweep(trials, 0, None)
      decreases |trials| - k
    {
      var calculation := Calculate(cfg, quantity, trade, snap);
      assert calculation == trials[k];
      if calculation.Err? {
        return Err(calculation.error);
      }
      if best.None? || Exceeds(calculation.value.percent, best.value.percent) {
        best := Some(calculation.value);
      }
      NextCandidate(cfg, k);
      quantity := quantity + cfg.investStep;
      k := k + 1;
    }
    return Ok(best);
  }

  // ---------------------------------------------------------------------
  // What the sweep finds

  /** `best` is evaluation `j`; among the first `k` evaluations none failed
      or returned more than it, and every earlier one returned strictly
      less. */
  predicate FirstBest(trials: seq<Result<Calculated, Error>>, k: nat, best: Calculated, j: nat)
  {
    && j < k <= |trials|
    && trials[j] == Ok(best)
    && (forall i :: 0 <= i < k ==> trials[i].Ok? && !Exceeds(trials[i].value.percent, best.percent))
    && (forall i :: 0 <= i < j ==> Exceeds(best.percent, trials[i].value.percent))
  }

  /** Sweeping on from the best of the first `k` evaluations ends, when it
      succeeds, with the best of all of them. */
  lemma {:induction false} SweepKeepsFirstBest(trials: seq<Result<Calculated, Error>>, k: nat,
                                               best: Option<Calculated>, j0: nat)
    returns (j: nat)
    requires k <= |trials| && (best.None? ==> k == 0)
    requires best.Some? ==> FirstBest(trials, k, best.value, j0)
    requires Sweep(trials, k, best).Ok? && |trials| > 0
    ensures Sweep(trials, k, best).value.Some?
    ensures FirstBest(trials, |trials|, Sweep(trials, k, best).value.value, j)
    decreases |trials| - k
  {
    if k == |trials| {
      j := j0;
    } else {
      var c := trials[k].value;
      if best.None? || Exceeds(c.percent, best.value.percent) {
        j := SweepKeepsFirstBest(trials, k + 1, Some(c), k);
      } else {
        j := SweepKeepsFirstBest(trials, k + 1, best, j0);
      }
    }
  }

  /** A sweep over nothing returns nothing; a successful sweep returns
      nothing only then; otherwise it returns an evaluation whose return no other
      beats, the first such one on a tie. */
  lemma SweepFindsFirstBest(trials: seq<Result<Calculated, Error>>)
    ensures |trials| == 0 ==> Sweep(trials, 0, None) == Ok(None)
    ensures Sweep(trials, 0, None).Ok? ==> (Sweep(trials, 0, None).value.None? <==> |trials| == 0)
    ensures Sweep(trials, 0, None).Ok? && Sweep(trials, 0, None).value.Some? ==>
      exists j :: FirstBest(trials, |trials|, Sweep(trials, 0, None).value.value, j)
  {
    if Sweep(trials, 0, None).Ok? && |trials| > 0 {
      var j := SweepKeepsFirstBest(trials, 0, None, 0);
    }
  }

  /** `optimize` returns nothing when the investment range is empty (in
      particular when the first size is already beyond the maximum), and
      when it succeeds only then; otherwise the evaluation at a size whose return no other size beats,
      the smallest such size on a tie. */
  lemma OptimizeFindsFirstBest(cfg: Config, trade: Relationship, snap: Snapshot)
    requires Ends(cfg) && Evaluable(cfg, snap)
    ensures Count(cfg) == 0 ==> Optimized(cfg, trade, snap) == Ok(None)
    ensures Start(cfg) > cfg.investMax ==> Optimized(cfg, trade, snap) == Ok(None)
    ensures var r := Optimized(cfg, trade, snap);
      r.Ok? ==> (r.value.None? <==> Count(cfg) == 0)
    ensures var r := Optimized(cfg, trade, snap);
      r.Ok? && r.value.Some? ==> exists j :: FirstBest(Trials(cfg, trade, snap), Count(cfg), r.value.value, j)
  {
    SweepFindsFirstBest(Trials(cfg, trade, snap));
  }

  /** What `optimize` returns is an evaluation of the triangle it was given. */
  lemma OptimizeKeepsTriangle(cfg: Config, trade: Relationship, snap: Snapshot)
    requires Ends(cfg) && Evaluable(cfg, snap)
    ensures var r := Optimized(cfg, trade, snap);
      r.Ok? && r.value.Some? ==> r.value.value.trade == trade && r.value.value.id == Id(trade.symbol)
  {
    var r := Optimized(cfg, trade, snap);
    if r.Ok? && r.value.Some? {
      OptimizeFindsFirstBest(cfg, trade, snap);
      var j :| FirstBest(Trials(cfg, trade, snap), Count(cfg), r.value.value, j);
      assert Trial(cfg, trade, snap, j) == Ok(r.value.value);
    }
  }

  /** The sweep from pass `k` fails exactly when one of the remaining
      evaluations fails, and then with the failure of the first one. */
  lemma {:induction false} SweepFailsAtFirstError(trials: seq<Result<Calculated, Error>>, k: nat,
                                                  best: Option<Calculated>)
    requires k <= |trials|
    ensures Sweep(trials, k, best).Err? <==> exists j :: k <= j < |trials| && trials[j].Err?
    ensures Sweep(trials, k, best).Err? ==>
      exists j :: k <= j < |trials| && trials[j] == Err(Sweep(trials, k, best).error)
        && forall i :: k <= i < j ==> trials[i].Ok?
    decreases |trials| - k
  {
    if k < |trials| && trials[k].Ok? {
      var c := trials[k].value;
      var next := if best.None? || Exceeds(c.percent, best.value.percent) then Some(c) else best;
      SweepFailsAtFirstError(trials, k + 1, next);
      if Sweep(trials, k, best).Err? {
        var j :| k + 1 <= j < |trials| && trials[j] == Err(Sweep(trials, k, best).error)
          && forall i :: k + 1 <= i < j ==> trials[i].Ok?;
        assert forall i :: k <= i < j ==> trials[i].Ok?;
      }
    }
  }

  /** With a single investment size, `optimize` is one `calculate`. */
  lemma SingleSize(cfg: Config, trade: Relationship, snap: Snapshot)
    requires Ends(cfg) && Evaluable(cfg, snap) && Count(cfg) == 1
    ensures Optimized(cfg, trade, snap) ==
      match Trial(cfg, trade, snap, 0)
      case Ok(c) => Ok(Some(c))
      case Err(e) => Err(e)
  {
    var trials := Trials(cfg, trade, snap);
    assert trials[0] == Trial(cfg, trade, snap, 0);
    if trials[0].Ok? {
      assert Sweep(trials, 0, None) == Sweep(trials, 1, Some(trials[0].value));
    }
  }
}
