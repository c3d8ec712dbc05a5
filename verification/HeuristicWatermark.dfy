/** The heuristic watermark over whole runs: monotone, bounded, rate limited; and the lag estimate. */
module HeuristicWatermark {
  import opened Extended
  import opened HeuristicSpec
  import opened Reals
  import S = StrictSpec

  datatype Op =
    | Arrive(e: S.Event, arrival: real, a: Ambient)
    | Global(w: Ext, phase0: bool, sweep: bool)
    | FlushAll

  ghost function Step(p: Params, s: State, op: Op): State
    requires p.Valid()
  {
    match op
    case Arrive(e, arrival, a) => Process(p, s, e, arrival, a)
    case Global(w, phase0, sweep) => UpdateGlobal(p, s, w, phase0, sweep)
    case FlushAll => Flush(p, s)
  }

  ghost function Run(p: Params, s: State, ops: seq<Op>): State
    requires p.Valid()
  {
    if ops == [] then s else Step(p, Run(p, s, ops[..|ops| - 1]), ops[|ops| - 1])
  }

  // ------------------------------------------------------------------
  // Monotone and bounded
  // ------------------------------------------------------------------

  ghost predicate Sane(p: Params) {
    p.Valid() && p.lMax >= 0.0 && p.advanceRate >= 0.0 && p.startTime > 0.0 && 0.0 <= p.decayRate <= 1.0
  }

  predicate SampleOk(sample: Sample) {
    if sample.warm then sample.quantile >= 0.0 else sample.prior >= 0.0
  }

  /** Quantile readings and priors are never negative. */
  ghost predicate ReadingOk(a: Ambient) {
    && SampleOk(a.sample)
    && (a.recovered.Some? ==> a.recovered.value >= 0.0)
  }

  /** The clock reads no earlier than at the last watermark update. */
  ghost predicate ClockOk(p: Params, s: State, op: Op) {
    op.Arrive? ==> Larger(s.wm.lastUpdate, p.startTime) <= op.a.now <= op.a.later
  }

  ghost predicate Bounded(p: Params, w: Watermark) {
    && w.lEff >= 0.0 && w.wH.Le(w.maxEventTime)
    && (w.lastUpdate == 0.0 || w.lastUpdate >= p.startTime)
    && (w.wH.Fin? ==> w.lastUpdate >= p.startTime)
  }

  lemma EstimateNonNegative(p: Params, w: Watermark, sample: Sample, sweep: bool)
    requires Sane(p) && w.lEff >= 0.0
    requires SampleOk(sample)
    ensures UpdateEstimate(p, w, sample, sweep).lEff >= 0.0
  {
    ProductNonNegative(w.lEff, 1.0 - p.decayRate);
  }

  lemma EstimateOnly(p: Params, w: Watermark, sample: Sample, sweep: bool)
    ensures var t := UpdateEstimate(p, w, sample, sweep);
            t.wH == w.wH && t.maxEventTime == w.maxEventTime && t.lastUpdate == w.lastUpdate
  {
  }

  lemma AllowanceNonNegative(p: Params, elapsed: real)
    requires Sane(p) && elapsed >= 0.0
    ensures Allowance(p, elapsed) >= 0.0
  {
    ProductNonNegative(elapsed, p.advanceRate);
  }

  lemma ComputeIsMonotone(p: Params, w: Watermark, phase0: bool, boo: bool, sweep: bool, now: real, later: real)
    requires Sane(p) && Bounded(p, w) && Larger(w.lastUpdate, p.startTime) <= now <= later
    ensures var t := ComputeWatermark(p, w, phase0, boo, sweep, now, later);
            w.wH.Le(t.wH) && Bounded(p, t) && t.maxEventTime == w.maxEventTime
  {
    AllowanceNonNegative(p, Elapsed(p, w, now));
    hide Allowance;
  }

  /** An event that is a duplicate or lies too far in the future leaves the watermark alone. */
  predicate Ignored(p: Params, s: State, e: S.Event, arrival: real) {
    IsDuplicate(s, e) || e.time - arrival > p.maxFutureSkew
  }

  /** Only the watermark update of an event touches the watermark fields. */
  lemma StepWatermark(p: Params, s: State, op: Op)
    requires p.Valid()
    ensures Step(p, s, op).wm ==
            if op.Arrive? && !Ignored(p, s, op.e, op.arrival) then
              AfterRecovery(p, Observe(p, s.wm, op.e.time, op.a), op.a) else s.wm
  {
    hide Observe, AfterRecovery, S.Close;
  }

  lemma ObserveIsMonotone(p: Params, w: Watermark, t: real, a: Ambient)
    requires Sane(p) && Bounded(p, w) && ReadingOk(a) && Larger(w.lastUpdate, p.startTime) <= a.now <= a.later
    ensures var v := AfterRecovery(p, Observe(p, w, t, a), a);
            w.wH.Le(v.wH) && Bounded(p, v)
  {
    var newest := w.(maxEventTime := w.maxEventTime.Max(Fin(t)));
    EstimateNonNegative(p, newest, a.sample, a.sweep);
    EstimateOnly(p, newest, a.sample, a.sweep);
    hide UpdateEstimate, ComputeWatermark;
    ComputeIsMonotone(p, UpdateEstimate(p, newest, a.sample, a.sweep), a.phase0, a.boo, a.sweep, a.now, a.later);
  }

  lemma StepIsMonotone(p: Params, s: State, op: Op)
    requires Sane(p) && Bounded(p, s.wm) && ClockOk(p, s, op) && (op.Arrive? ==> ReadingOk(op.a))
    ensures s.wm.wH.Le(Step(p, s, op).wm.wH) && Bounded(p, Step(p, s, op).wm)
  {
    hide Step, Observe, AfterRecovery;
    StepWatermark(p, s, op);
    if op.Arrive? {
      ObserveIsMonotone(p, s.wm, op.e.time, op.a);
    }
  }

  /** A run with sensible readings and a clock that never runs backwards. */
  ghost predicate Admissible(p: Params, s: State, ops: seq<Op>)
    requires p.Valid()
  {
    forall i | 0 <= i < |ops| ::
      ClockOk(p, Run(p, s, ops[..i]), ops[i]) && (ops[i].Arrive? ==> ReadingOk(ops[i].a))
  }

  lemma AdmissiblePrefix(p: Params, s: State, ops: seq<Op>, n: nat)
    requires p.Valid() && Admissible(p, s, ops) && n <= |ops|
    ensures Admissible(p, s, ops[..n])
  {
    hide Run;
    forall i | 0 <= i < n ensures ops[..n][..i] == ops[..i] {
    }
  }

  /** Over every run the watermark never falls and never passes the largest event time. */
  lemma {:induction false} WatermarkMonotone(p: Params, s: State, ops: seq<Op>)
    requires Sane(p) && Bounded(p, s.wm) && Admissible(p, s, ops)
    ensures s.wm.wH.Le(Run(p, s, ops).wm.wH) && Bounded(p, Run(p, s, ops).wm)
    ensures Run(p, s, ops).wm.wH.Le(Run(p, s, ops).wm.maxEventTime)
  {
    if ops != [] {
      var n := |ops| - 1;
      AdmissiblePrefix(p, s, ops, n);
      WatermarkMonotone(p, s, ops[..n]);
      hide Step;
      StepIsMonotone(p, Run(p, s, ops[..n]), ops[n]);
    }
  }

  // ------------------------------------------------------------------
  // Rate limit
  // ------------------------------------------------------------------

  ghost predicate DefaultMode(ops: seq<Op>) {
    forall i | 0 <= i < |ops| && ops[i].Arrive? :: !ops[i].a.sweep
  }

  /** The steepest slope the limiter permits. */
  ghost function Slope(p: Params): real {
    p.advanceRate + 10.0 * p.size
  }

  lemma AllowanceBelowSlope(p: Params, elapsed: real)
    requires Sane(p) && elapsed >= 0.0
    ensures Allowance(p, elapsed) <= elapsed * Slope(p)
  {
    var a, b := elapsed * p.advanceRate, (10.0 * elapsed) * p.size;
    assert elapsed * Slope(p) == a + b;
    if elapsed > 0.1 {
      ProductMonotone(1.0, 10.0 * elapsed, p.size);
    } else {
      ProductNonNegative(10.0 * elapsed, p.size);
    }
  }

  ghost predicate WithinSlope(p: Params, v: Watermark, w: Watermark) {
    && v.wH.Fin? && w.wH.Fin? && v.lastUpdate <= w.lastUpdate
    && w.wH.r - v.wH.r <= (w.lastUpdate - v.lastUpdate) * Slope(p)
  }

  lemma WithinSlopeChains(p: Params, u: Watermark, v: Watermark, w: Watermark)
    requires WithinSlope(p, u, v) && WithinSlope(p, v, w)
    ensures WithinSlope(p, u, w)
  {
    hide Slope;
    var whole := (w.lastUpdate - u.lastUpdate) * Slope(p);
    assert whole == (v.lastUpdate - u.lastUpdate) * Slope(p) + (w.lastUpdate - v.lastUpdate) * Slope(p);
  }

  lemma StillWithinSlope(p: Params, v: Watermark, w: Watermark)
    requires v.wH.Fin? && w.wH == v.wH && w.lastUpdate == v.lastUpdate
    ensures WithinSlope(p, v, w)
  {
    hide Slope;
    var none := (w.lastUpdate - v.lastUpdate) * Slope(p);
    assert none == 0.0;
  }

  lemma ComputeRate(p: Params, w: Watermark, phase0: bool, boo: bool, now: real, later: real)
    requires Sane(p) && w.wH.Fin? && p.startTime <= w.lastUpdate <= now <= later
    ensures WithinSlope(p, w, ComputeWatermark(p, w, phase0, boo, false, now, later))
  {
    var elapsed := Elapsed(p, w, now);
    AllowanceNonNegative(p, elapsed);
    AllowanceBelowSlope(p, elapsed);
    ProductWeaklyMonotone(elapsed, later - w.lastUpdate, Slope(p));
    StillWithinSlope(p, w, w.(wHPrev := w.wH));
    hide Allowance, Slope;
  }

  lemma StepRate(p: Params, s: State, op: Op)
    requires Sane(p) && Bounded(p, s.wm) && s.wm.wH.Fin? && ClockOk(p, s, op)
    requires op.Arrive? ==> !op.a.sweep
    ensures WithinSlope(p, s.wm, Step(p, s, op).wm)
  {
    hide Step, ComputeWatermark, UpdateEstimate, Slope;
    StepWatermark(p, s, op);
    if op.Arrive? && !Ignored(p, s, op.e, op.arrival) {
      var newest := s.wm.(maxEventTime := s.wm.maxEventTime.Max(Fin(op.e.time)));
      EstimateOnly(p, newest, op.a.sample, op.a.sweep);
      ComputeRate(p, UpdateEstimate(p, newest, op.a.sample, op.a.sweep), op.a.phase0, op.a.boo, op.a.now, op.a.later);
    } else {
      StillWithinSlope(p, s.wm, s.wm);
    }
  }

  /** In default mode, from any moment with a watermark on, the watermark advances by at most the slope
      times the time between the two watermark updates. */
  lemma {:induction false} RateLimited(p: Params, s: State, ops: seq<Op>)
    requires Sane(p) && Bounded(p, s.wm) && s.wm.wH.Fin? && Admissible(p, s, ops) && DefaultMode(ops)
    ensures var w := Run(p, s, ops).wm;
            && w.wH.Fin? && w.lastUpdate >= s.wm.lastUpdate
            && w.wH.r - s.wm.wH.r <= (w.lastUpdate - s.wm.lastUpdate) * (p.advanceRate + 10.0 * p.size)
  {
    hide Run, Admissible, DefaultMode, Bounded, Sane;
    WithinSlopeOverRun(p, s, ops);
  }

  lemma {:induction false} WithinSlopeOverRun(p: Params, s: State, ops: seq<Op>)
    requires Sane(p) && Bounded(p, s.wm) && s.wm.wH.Fin? && Admissible(p, s, ops) && DefaultMode(ops)
    ensures WithinSlope(p, s.wm, Run(p, s, ops).wm)
  {
    if ops == [] {
      StillWithinSlope(p, s.wm, s.wm);
    } else {
      var n := |ops| - 1;
      AdmissiblePrefix(p, s, ops, n);
      WithinSlopeOverRun(p, s, ops[..n]);
      WatermarkMonotone(p, s, ops[..n]);
      var r := Run(p, s, ops[..n]);
      LastOk(p, s, ops);
      StepRate(p, r, ops[n]);
      hide WithinSlope, Bounded, Step;
      WithinSlopeChains(p, s.wm, r.wm, Run(p, s, ops).wm);
    }
  }

  lemma LastOk(p: Params, s: State, ops: seq<Op>)
    requires p.Valid() && ops != [] && Admissible(p, s, ops) && DefaultMode(ops)
    ensures var n := |ops| - 1;
            && ClockOk(p, Run(p, s, ops[..n]), ops[n]) && (ops[n].Arrive? ==> !ops[n].a.sweep)
            && DefaultMode(ops[..n])
  {
    hide Run;
  }

  /** The first watermark is the candidate itself: the limiter applies from the very first one on. */
  lemma FirstWatermark(p: Params, w: Watermark, sweep: bool, now: real, later: real)
    requires Sane(p) && w.wH.NegInf? && w.maxEventTime.Fin? && Bounded(p, w)
    requires Larger(w.lastUpdate, p.startTime) <= now <= later
    ensures ComputeWatermark(p, w, false, false, sweep, now, later).wH == Fin(w.maxEventTime.r - w.lEff)
  {
    AllowanceNonNegative(p, Elapsed(p, w, now));
    hide Allowance;
  }

  // ------------------------------------------------------------------
  // Asymmetric hysteresis of the lag estimate in sweep mode
  // ------------------------------------------------------------------

  ghost function Estimates(p: Params, l: real, readings: seq<real>): real {
    if readings == [] then l else
      SweepEstimate(p, Estimates(p, l, readings[..|readings| - 1]), readings[|readings| - 1])
  }

  lemma SweepBounds(p: Params, l: real, q: real)
    requires Sane(p) && 0.0 <= l <= p.lMax
    ensures var t := SweepEstimate(p, l, q);
            Smaller(l, q) <= t <= p.lMax && t >= l * (1.0 - p.decayRate)
  {
    ProductWeaklyMonotone(1.0 - p.decayRate, 1.0, l);
  }

  ghost predicate AtLeast(low: real, readings: seq<real>) {
    forall i | 0 <= i < |readings| :: low <= readings[i]
  }

  /** The estimate stays at or below its cap and at or above the smaller of its start and the readings. */
  lemma {:induction false} EstimateBounds(p: Params, l: real, readings: seq<real>, low: real)
    requires Sane(p) && 0.0 <= low <= l <= p.lMax && AtLeast(low, readings)
    ensures low <= Estimates(p, l, readings) <= p.lMax
  {
    if readings != [] {
      var n := |readings| - 1;
      EstimateBounds(p, l, readings[..n], low);
      hide SweepEstimate;
      SweepBounds(p, Estimates(p, l, readings[..n]), readings[n]);
    }
  }

  /** `n` readings of `q` in a row. */
  ghost function Repeated(p: Params, l: real, q: real, n: nat): real {
    if n == 0 then l else SweepEstimate(p, Repeated(p, l, q, n - 1), q)
  }

  lemma DecayStep(p: Params, l: real, q: real)
    requires Sane(p) && p.decayRate > 0.0 && p.updateThreshold > 0.0 && 0.0 < q <= l <= p.lMax
    ensures var t := SweepEstimate(p, l, q);
            q <= t <= l && (t == q || t <= l - q * p.decayRate)
  {
    ProductWeaklyMonotone(q, l, p.decayRate);
    ProductNonNegative(l, p.decayRate);
    var drop := l * (1.0 - p.decayRate);
    assert drop == l - l * p.decayRate;
    if q == l {
      assert RelativeChange(l, q - l) == 0.0;
    }
  }

  lemma {:induction false} RepeatedFalls(p: Params, l: real, q: real, d: real, n: nat)
    requires Sane(p) && p.decayRate > 0.0 && p.updateThreshold > 0.0 && 0.0 < q <= l <= p.lMax
    requires d == q * p.decayRate
    ensures var t := Repeated(p, l, q, n); q <= t <= l && (t == q || t <= l - Times(n, d))
  {
    if n > 0 {
      RepeatedFalls(p, l, q, d, n - 1);
      hide SweepEstimate;
      DecayStep(p, Repeated(p, l, q, n - 1), q);
      OneMore(n, d);
    }
  }

  ghost function Times(n: nat, d: real): real {
    n as real * d
  }

  lemma OneMore(n: nat, d: real)
    requires n > 0
    ensures Times(n, d) == Times(n - 1, d) + d
  {
  }

  lemma Enough(gap: real, d: real) returns (n: nat)
    requires d > 0.0
    ensures forall m: nat :: m >= n ==> Times(m, d) > gap
  {
    var x := Quotient(gap, d);
    var c := Ceil(x);
    n := if c >= 0 then c + 1 else 1;
    ProductMonotone(x, n as real, d);
    forall m: nat | m >= n ensures Times(m, d) > gap {
      ProductWeaklyMonotone(n as real, m as real, d);
    }
  }

  /** When the readings settle at a positive value not above the estimate, the estimate reaches exactly
      that value after finitely many updates and stays there. */
  lemma EstimateSettles(p: Params, l: real, q: real) returns (enough: nat)
    requires Sane(p) && p.decayRate > 0.0 && p.updateThreshold > 0.0 && 0.0 < q <= l <= p.lMax
    ensures forall n: nat :: n >= enough ==> Repeated(p, l, q, n) == q
  {
    ProductPositive(q, p.decayRate);
    var d := q * p.decayRate;
    enough := Enough(l - q, d);
    forall n: nat | n >= enough ensures Repeated(p, l, q, n) == q {
      hide Repeated;
      RepeatedFalls(p, l, q, d, n);
    }
  }
}
