/** `cycle`: one pass over every triangle against one copy of the depth
    cache. Each triangle is optimised on its own; a failure is counted and
    reported and the pass goes on with the next triangle. The node keeps a
    count of its passes and the duration of each. */
module CycleDriver {
  import opened Types
  import opened Rates
  import opened OrderBook
  import opened Triangle
  import opened Optimizer

  /** What a pass returns. `results` holds the optimised evaluations by id,
      and only when the heads-up display is enabled. */
  datatype Stats = Stats(calculationTime: int, successCount: nat, errorCount: nat, results: map<string, Calculated>)

  /** The running state of a pass: the counts and results of `Stats`, and
      what was handed to the execution callback and to the error callback, in
      order. */
  datatype Tally = Tally(successCount: nat, errorCount: nat, results: map<string, Calculated>,
                         executed: seq<Calculated>, errors: seq<Error>)

  /** The book of one instrument, if the cache has one. */
  function Lookup(cache: map<string, Depth>, ticker: string): (r: Option<Depth>)
  {
    if ticker in cache then Some(cache[ticker]) else None
  }

  /** The three books a triangle reads. */
  function SnapshotFor(cache: map<string, Depth>, trade: Relationship): (r: Snapshot)
  {
    Snapshot(Lookup(cache, trade.ab.ticker), Lookup(cache, trade.bc.ticker), Lookup(cache, trade.ca.ticker))
  }

  /** Every triangle of the pass can be evaluated on the books it reads. */
  predicate Serves(cfg: Config, cache: map<string, Depth>, relationships: seq<Relationship>)
  {
    forall i :: 0 <= i < |relationships| ==> Evaluable(cfg, SnapshotFor(cache, relationships[i]))
  }

  /** What optimising one triangle gives: no evaluation exactly when the
      investment range is empty, and otherwise a failure or an evaluation of
      that triangle. */
  function Outcome(cfg: Config, cache: map<string, Depth>, trade: Relationship): (r: Result<Option<Calculated>, Error>)
    requires Ends(cfg) && Evaluable(cfg, SnapshotFor(cache, trade))
    ensures r == Ok(None) <==> Count(cfg) == 0
    ensures r.Ok? && r.value.Some? ==> r.value.value.trade == trade && r.value.value.id == Id(trade.symbol)
  {
    OptimizeFindsFirstBest(cfg, trade, SnapshotFor(cache, trade));
    OptimizeKeepsTriangle(cfg, trade, SnapshotFor(cache, trade));
    Optimized(cfg, trade, SnapshotFor(cache, trade))
  }

  /** What optimising each triangle of the pass gives, in order: one
      outcome per triangle, each without an evaluation exactly when the
      investment range is empty, and any evaluation in outcome `i` is one of
      triangle `i`, under its id. */
  function Outcomes(cfg: Config, cache: map<string, Depth>, relationships: seq<Relationship>)
    : (outcomes: seq<Result<Option<Calculated>, Error>>)
    requires Ends(cfg) && Serves(cfg, cache, relationships)
    ensures |outcomes| == |relationships|
    ensures forall i :: 0 <= i < |relationships| ==> outcomes[i] == Outcome(cfg, cache, relationships[i])
    ensures forall i :: 0 <= i < |outcomes| ==> (outcomes[i] == Ok(None) <==> Count(cfg) == 0)
    ensures forall i :: 0 <= i < |outcomes| && outcomes[i].Ok? && outcomes[i].value.Some? ==>
      outcomes[i].value.value.trade == relationships[i] && outcomes[i].value.value.id == Id(relationships[i].symbol)
  {
    seq(|relationships|, i requires 0 <= i < |relationships| => Outcome(cfg, cache, relationships[i]))
  }

  /** Taking one outcome into account: a failure is counted and reported, an
      evaluation is counted, recorded when the display is enabled and handed
      to execution, and no evaluation at all (an empty investment range) is
      neither. */
  function Record(hud: bool, t: Tally, outcome: Result<Option<Calculated>, Error>): (r: Tally)
  {
    match outcome
    case Err(e) => t.(errorCount := t.errorCount + 1, errors := t.errors + [e])
    case Ok(None) => t
    case Ok(Some(c)) =>
      t.(successCount := t.successCount + 1,
         results := if hud then t.results[c.id := c] else t.results,
         executed := t.executed + [c])
  }

  /** The state after the given outcomes, taken in order. */
  function TallyOf(hud: bool, outcomes: seq<Result<Option<Calculated>, Error>>): (r: Tally)
  {
    if outcomes == [] then Tally(0, 0, map[], [], [])
    else Record(hud, TallyOf(hud, outcomes[..|outcomes| - 1]), outcomes[|outcomes| - 1])
  }

  /** Taking the outcomes up to `i` into account is taking the outcomes
      before `i` and then outcome `i`. */
  lemma TallyStep(hud: bool, outcomes: seq<Result<Option<Calculated>, Error>>, i: nat)
    requires i < |outcomes|
    ensures TallyOf(hud, outcomes[..i + 1]) == Record(hud, TallyOf(hud, outcomes[..i]), outcomes[i])
  {
    assert outcomes[..i + 1][..i] == outcomes[..i];
  }

  /** What a pass over the given triangles reports. */
  function PassOf(cfg: Config, cache: map<string, Depth>, relationships: seq<Relationship>): (r: Tally)
    requires Ends(cfg) && Serves(cfg, cache, relationships)
  {
    TallyOf(cfg.hudEnabled, Outcomes(cfg, cache, relationships))
  }

  /** The node: how many passes it has made and how long each one took. The
      clock is read by the caller, once before and once after the pass. */
  class CalculationNode {
    var cycleCount: nat
    var timings: seq<int>

    constructor()
      ensures cycleCount == 0 && timings == []
    {
      cycleCount := 0;
      timings := [];
    }

    /** `cycle`. The execution and error callbacks are the sequences of what
        they would have been handed. */
    method Cycle(cfg: Config, relationships: seq<Relationship>, depthCache: map<string, Depth>,
                 startTime: int, endTime: int)
      returns (stats: Stats, executed: seq<Calculated>, errors: seq<Error>)
      requires Ends(cfg) && Serves(cfg, depthCache, relationships)
      modifies this
      ensures var t := PassOf(cfg, depthCache, relationships);
        && stats == Stats(endTime - startTime, t.successCount, t.errorCount, t.results)
        && executed == t.executed && errors == t.errors
      ensures cycleCount == old(cycleCount) + 1
      ensures timings == old(timings) + [endTime - startTime]
    {
      ghost var outcomes := Outcomes(cfg, depthCache, relationships);
      var successCount: nat := 0;
      var errorCount: nat := 0;
      var results: map<string, Calculated> := map[];
      executed, errors := [], [];
      var i := 0;
      while i < |relationships|
        invariant i <= |relationships|
        invariant cycleCount == old(cycleCount) && timings == old(timings)
        invariant TallyOf(cfg.hudEnabled, outcomes[..i]) == Tally(successCount, errorCount, results, executed, errors)
      {
        var relationship := relationships[i];
        TallyStep(cfg.hudEnabled, outcomes, i);
        var depthSnapshot := SnapshotFor(depthCache, relationship);
        var calculated := Optimize(cfg, relationship, depthSnapshot);
        assert calculated == outcomes[i];
        match calculated {
          case Err(e) =>
            errorCount := errorCount + 1;
            errors := errors + [e];
          case Ok(None) =>
          case Ok(Some(c)) =>
            successCount := successCount + 1;
            if cfg.hudEnabled {
              results := results[c.id := c];
            }
            executed := executed + [c];
        }
        i := i + 1;
      }
      assert outcomes[..i] == outcomes;
      var calculationTime := endTime - startTime;
      timings := timings + [calculationTime];
      cycleCount := cycleCount + 1;
      stats := Stats(calculationTime, successCount, errorCount, results);
    }
  }

  // ---------------------------------------------------------------------
  // What a pass reports

  /** The counts are the numbers of evaluations executed and of failures
      reported, and together at most the number of outcomes; when every
      outcome is an evaluation or a failure they add up to the number of
      outcomes, and when none is they are both zero. */
  lemma {:induction false} TallyCounts(hud: bool, outcomes: seq<Result<Option<Calculated>, Error>>)
    ensures var t := TallyOf(hud, outcomes);
      && t.successCount == |t.executed|
      && t.errorCount == |t.errors|
      && t.successCount + t.errorCount <= |outcomes|
      && ((forall i :: 0 <= i < |outcomes| ==> outcomes[i] != Ok(None)) ==> t.successCount + t.errorCount == |outcomes|)
      && ((forall i :: 0 <= i < |outcomes| ==> outcomes[i] == Ok(None)) ==> t.successCount + t.errorCount == 0)
    decreases |outcomes|
  {
    if outcomes != [] {
      var n := |outcomes| - 1;
      TallyCounts(hud, outcomes[..n]);
      assert forall i :: 0 <= i < n ==> outcomes[..n][i] == outcomes[i];
    }
  }

  /** No triangle is counted twice. When the investment range is not empty
      every triangle is counted exactly once, as a success or as a failure;
      when it is empty none is. */
  lemma EveryTriangleCountedOnce(cfg: Config, cache: map<string, Depth>, relationships: seq<Relationship>)
    requires Ends(cfg) && Serves(cfg, cache, relationships)
    ensures var t := PassOf(cfg, cache, relationships);
      && t.successCount == |t.executed|
      && t.errorCount == |t.errors|
      && t.successCount + t.errorCount <= |relationships|
      && (Count(cfg) > 0 ==> t.successCount + t.errorCount == |relationships|)
      && (Count(cfg) == 0 ==> t.successCount + t.errorCount == 0)
  {
    TallyCounts(cfg.hudEnabled, Outcomes(cfg, cache, relationships));
  }

  lemma RecordAppends(hud: bool, t1: Tally, t2: Tally, t: Tally, o: Result<Option<Calculated>, Error>)
    requires t.successCount == t1.successCount + t2.successCount && t.errorCount == t1.errorCount + t2.errorCount
    requires t.executed == t1.executed + t2.executed && t.errors == t1.errors + t2.errors
    ensures var r, r2 := Record(hud, t, o), Record(hud, t2, o);
      && r.successCount == t1.successCount + r2.successCount && r.errorCount == t1.errorCount + r2.errorCount
      && r.executed == t1.executed + r2.executed && r.errors == t1.errors + r2.errors
  {
    match o
    case Err(e) =>
      assert (t1.errors + t2.errors) + [e] == t1.errors + (t2.errors + [e]);
    case Ok(None) =>
    case Ok(Some(c)) =>
      assert (t1.executed + t2.executed) + [c] == t1.executed + (t2.executed + [c]);
  }

  /** The tally of two runs of outcomes, one after the other, adds up the
      tallies of each run. */
  lemma {:induction false} TallyAppends(hud: bool, first: seq<Result<Option<Calculated>, Error>>,
                                        second: seq<Result<Option<Calculated>, Error>>)
    ensures var t, t1, t2 := TallyOf(hud, first + second), TallyOf(hud, first), TallyOf(hud, second);
      && t.successCount == t1.successCount + t2.successCount
      && t.errorCount == t1.errorCount + t2.errorCount
      && t.executed == t1.executed + t2.executed
      && t.errors == t1.errors + t2.errors
    decreases |second|
  {
    var all := first + second;
    if second == [] {
      assert all == first;
    } else {
      var n := |second| - 1;
      TallyAppends(hud, first, second[..n]);
      assert all[..|all| - 1] == first + second[..n];
      assert all[|all| - 1] == second[n];
      RecordAppends(hud, TallyOf(hud, first), TallyOf(hud, second[..n]), TallyOf(hud, first + second[..n]), second[n]);
    }
  }

  lemma ServesBoth(cfg: Config, cache: map<string, Depth>, first: seq<Relationship>, second: seq<Relationship>)
    requires Serves(cfg, cache, first) && Serves(cfg, cache, second)
    ensures Serves(cfg, cache, first + second)
  {
    var all := first + second;
    forall i | 0 <= i < |all|
      ensures Evaluable(cfg, SnapshotFor(cache, all[i]))
    {
      if i >= |first| {
        assert all[i] == second[i - |first|];
      }
    }
  }

  /** Triangles do not affect one another: what a pass over two runs of
      triangles reports is what each run reports on its own, one after the
      other. In particular a failing triangle stops nothing after it. */
  lemma PassesCompose(cfg: Config, cache: map<string, Depth>, first: seq<Relationship>, second: seq<Relationship>)
    requires Ends(cfg) && Serves(cfg, cache, first) && Serves(cfg, cache, second)
    ensures Serves(cfg, cache, first + second)
    ensures var t, t1, t2 := PassOf(cfg, cache, first + second), PassOf(cfg, cache, first), PassOf(cfg, cache, second);
      && t.successCount == t1.successCount + t2.successCount
      && t.errorCount == t1.errorCount + t2.errorCount
      && t.executed == t1.executed + t2.executed
      && t.errors == t1.errors + t2.errors
  {
    ServesBoth(cfg, cache, first, second);
    var o1, o2 := Outcomes(cfg, cache, first), Outcomes(cfg, cache, second);
    var all := first + second;
    assert Outcomes(cfg, cache, all) == o1 + o2 by {
      forall i | 0 <= i < |all|
        ensures Outcomes(cfg, cache, all)[i] == (o1 + o2)[i]
      {
        if i >= |first| {
          assert all[i] == second[i - |first|];
        }
      }
    }
    TallyAppends(cfg.hudEnabled, o1, o2);
  }

  /** With the display disabled no result is kept; with it enabled the
      results are the executed evaluations, by id. */
  lemma {:induction false} ResultsAreExecuted(hud: bool, outcomes: seq<Result<Option<Calculated>, Error>>)
    ensures var t := TallyOf(hud, outcomes);
      && (!hud ==> t.results == map[])
      && (hud ==>
            && t.results.Keys == (set c | c in t.executed :: c.id)
            && forall id :: id in t.results ==> t.results[id].id == id && t.results[id] in t.executed)
    decreases |outcomes|
  {
    if outcomes != [] {
      ResultsAreExecuted(hud, outcomes[..|outcomes| - 1]);
    }
  }

  /** Whatever is handed to execution is the evaluation of one of the
      outcomes. */
  lemma {:induction false} ExecutedFromOutcomes(hud: bool, outcomes: seq<Result<Option<Calculated>, Error>>)
    ensures forall c :: c in TallyOf(hud, outcomes).executed ==>
      exists i :: 0 <= i < |outcomes| && outcomes[i] == Ok(Some(c))
    decreases |outcomes|
  {
    if outcomes != [] {
      var n := |outcomes| - 1;
      ExecutedFromOutcomes(hud, outcomes[..n]);
      forall c | c in TallyOf(hud, outcomes).executed
        ensures exists i :: 0 <= i < |outcomes| && outcomes[i] == Ok(Some(c))
      {
        if c in TallyOf(hud, outcomes[..n]).executed {
          var i :| 0 <= i < n && outcomes[..n][i] == Ok(Some(c));
          assert outcomes[i] == Ok(Some(c));
        } else {
          assert outcomes[n] == Ok(Some(c));
        }
      }
    }
  }

  /** Every evaluation a pass hands to execution is one of a triangle of the
      pass, under that triangle's id. */
  lemma ExecutedAreTriangles(cfg: Config, cache: map<string, Depth>, relationships: seq<Relationship>)
    requires Ends(cfg) && Serves(cfg, cache, relationships)
    ensures forall c :: c in PassOf(cfg, cache, relationships).executed ==>
      exists i :: 0 <= i < |relationships| && c.trade == relationships[i] && c.id == Id(relationships[i].symbol)
  {
    var outcomes := Outcomes(cfg, cache, relationships);
    ExecutedFromOutcomes(cfg.hudEnabled, outcomes);
    forall c | c in PassOf(cfg, cache, relationships).executed
      ensures exists i :: 0 <= i < |relationships| && c.trade == relationships[i] && c.id == Id(relationships[i].symbol)
    {
      var i :| 0 <= i < |outcomes| && outcomes[i] == Ok(Some(c));
    }
  }

  // ---------------------------------------------------------------------
  // A worked pass

  /** The books of three Sell triangles A-B-C, A-B-D and A-B-E, sharing the
      instrument "AB": the BD bid holds 10 B where the others hold 1000. */
  function ThreeBooks(): (r: map<string, Depth>)
  {
    var s, shallow := SellBooks(1000.0), SellBooks(10.0);
    map["AB" := s.ab.value, "BC" := s.bc.value, "CA" := s.ca.value,
        "BD" := shallow.bc.value, "DA" := shallow.ca.value,
        "BE" := s.bc.value, "EA" := s.ca.value]
  }

  lemma Tickers()
    ensures "B" + "C" == "BC" && "C" + "A" == "CA"
    ensures "B" + "D" == "BD" && "D" + "A" == "DA"
    ensures "B" + "E" == "BE" && "E" + "A" == "EA"
  {
  }

  /** Each triangle reads its own books from the shared cache. */
  lemma SnapshotsOfThree()
    ensures SnapshotFor(ThreeBooks(), SellTriangle("C")) == SellBooks(1000.0)
    ensures SnapshotFor(ThreeBooks(), SellTriangle("D")) == SellBooks(10.0)
    ensures SnapshotFor(ThreeBooks(), SellTriangle("E")) == SellBooks(1000.0)
  {
    Tickers();
  }

  /** On deep books the single size of the sweeping configuration goes
      through, and optimising gives that evaluation. */
  lemma DeepOutcome(cache: map<string, Depth>, c: string) returns (found: Calculated)
    requires SnapshotFor(cache, SellTriangle(c)) == SellBooks(1000.0)
    ensures Evaluable(SellConfig(), SnapshotFor(cache, SellTriangle(c)))
    ensures Outcome(SellConfig(), cache, SellTriangle(c)) == Ok(Some(found)) && found.id == "A-B-" + c
  {
    var cfg := SellConfig();
    DeepTriangle(c);
    assert Count(cfg) == 1 && Candidate(cfg, 0) == 1.0;
    SingleSize(cfg, SellTriangle(c), SellBooks(1000.0));
    found := Evaluate(cfg, 1.0, SellTriangle(c), SellBooks(1000.0)).value;
  }

  /** On books whose BC bid is too shallow, optimising fails at the second
      leg. */
  lemma ShallowOutcome(cache: map<string, Depth>, c: string)
    requires SnapshotFor(cache, SellTriangle(c)) == SellBooks(10.0)
    ensures Evaluable(SellConfig(), SnapshotFor(cache, SellTriangle(c)))
    ensures Outcome(SellConfig(), cache, SellTriangle(c)) == Err(Shallow("B" + c, 1, 1, 90.0, "B", c, Forward))
  {
    var cfg := SellConfig();
    ShallowSecondLeg(c);
    assert Count(cfg) == 1 && Candidate(cfg, 0) == 1.0;
    SingleSize(cfg, SellTriangle(c), SellBooks(10.0));
  }

  /** A pass over three triangles tallies their three outcomes. */
  lemma PassOfThree(cfg: Config, cache: map<string, Depth>, r0: Relationship, r1: Relationship, r2: Relationship)
    requires Ends(cfg)
    requires Evaluable(cfg, SnapshotFor(cache, r0))
    requires Evaluable(cfg, SnapshotFor(cache, r1))
    requires Evaluable(cfg, SnapshotFor(cache, r2))
    ensures Serves(cfg, cache, [r0, r1, r2])
    ensures PassOf(cfg, cache, [r0, r1, r2])
         == TallyOf(cfg.hudEnabled, [Outcome(cfg, cache, r0), Outcome(cfg, cache, r1), Outcome(cfg, cache, r2)])
  {
    var rels := [r0, r1, r2];
    assert Serves(cfg, cache, rels);
    assert Outcomes(cfg, cache, rels) == [Outcome(cfg, cache, r0), Outcome(cfg, cache, r1), Outcome(cfg, cache, r2)];
  }

  /** A success, a failure and a success, with the display disabled. */
  lemma TallyOfThree(c: Calculated, failure: Error, e: Calculated)
    ensures TallyOf(false, [Ok(Some(c)), Err(failure), Ok(Some(e))]) == Tally(2, 1, map[], [c, e], [failure])
  {
    var outcomes: seq<Result<Option<Calculated>, Error>> := [Ok(Some(c)), Err(failure), Ok(Some(e))];
    TallyStep(false, outcomes, 0);
    TallyStep(false, outcomes, 1);
    TallyStep(false, outcomes, 2);
    assert outcomes[..0] == [];
    assert outcomes[..3] == outcomes;
  }

  /** A pass over three triangles whose second one is too shallow counts two
      successes and one failure, reports the failure once, naming the
      instrument "BD", and still executes the third triangle. */
  lemma SecondOfThreeFails()
    ensures Serves(SellConfig(), ThreeBooks(), [SellTriangle("C"), SellTriangle("D"), SellTriangle("E")])
    ensures var t := PassOf(SellConfig(), ThreeBooks(), [SellTriangle("C"), SellTriangle("D"), SellTriangle("E")]);
      && t.successCount == 2 && t.errorCount == 1
      && t.errors == [Shallow("BD", 1, 1, 90.0, "B", "D", Forward)]
      && |t.executed| == 2 && t.executed[0].id == "A-B-C" && t.executed[1].id == "A-B-E"
  {
    var cfg, cache := SellConfig(), ThreeBooks();
    SnapshotsOfThree();
    var c := DeepOutcome(cache, "C");
    ShallowOutcome(cache, "D");
    var e := DeepOutcome(cache, "E");
    PassOfThree(cfg, cache, SellTriangle("C"), SellTriangle("D"), SellTriangle("E"));
    assert "B" + "D" == "BD";
    TallyOfThree(c, Shallow("BD", 1, 1, 90.0, "B", "D", Forward), e);
    assert "A-B-" + "C" == "A-B-C" && "A-B-" + "E" == "A-B-E";
  }
}
