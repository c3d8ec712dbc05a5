/** The heuristic watermark read off the history of arrivals: what it is after every update, that it catches up
    with its candidate, and that the lag estimate follows its readings. */
module HeuristicProgress {
  import opened Extended
  import opened HeuristicHistory
  import opened HeuristicSpec
  import opened HeuristicWatermark
  import opened Outcomes
  import opened Reals

  // ------------------------------------------------------------------
  // The history of observations
  // ------------------------------------------------------------------

  /** Arrival `n` is neither a repetition nor from too far in the future. */
  ghost predicate Observed(p: Params, ops: seq<Op>, n: nat)
    requires n < |ops|
  {
    ops[n].Arrive? && !Repeats(ops, n) && ops[n].e.time - ops[n].arrival <= p.maxFutureSkew
  }

  /** Outside the first cold-start phase an observation moves the watermark. */
  ghost predicate Updates(p: Params, ops: seq<Op>, n: nat)
    requires n < |ops|
  {
    Observed(p, ops, n) && !ops[n].a.phase0
  }

  /** The newest event time among the first `n` operations. */
  ghost function Newest(p: Params, ops: seq<Op>, n: nat): Ext
    requires n <= |ops|
  {
    if n == 0 then NegInf
    else if Observed(p, ops, n - 1) then Newest(p, ops, n - 1).Max(Fin(ops[n - 1].e.time))
    else Newest(p, ops, n - 1)
  }

  /** The engine after the first `n` operations. */
  ghost function After(p: Params, ops: seq<Op>, n: nat): State
    requires p.Valid() && n <= |ops|
  {
    Run(p, Init(p), ops[..n])
  }

  /** The lag estimate that update `n` uses. */
  ghost function EstimateAt(p: Params, ops: seq<Op>, n: nat): real
    requires p.Valid() && n < |ops| && ops[n].Arrive?
  {
    var a := ops[n].a;
    if a.boo then p.lMax else UpdateEstimate(p, After(p, ops, n).wm, a.sample, a.sweep).lEff
  }

  /** The newest event time minus that estimate. */
  ghost function Candidate(p: Params, ops: seq<Op>, n: nat): real
    requires p.Valid() && n < |ops| && Observed(p, ops, n)
  {
    var newest := Newest(p, ops, n + 1);
    (if newest.Fin? then newest.r else 0.0) - EstimateAt(p, ops, n)
  }

  /** The largest candidate of the updates among the first `n` operations. */
  ghost function Best(p: Params, ops: seq<Op>, n: nat): Ext
    requires p.Valid() && n <= |ops|
  {
    if n == 0 then NegInf
    else if Updates(p, ops, n - 1) then Best(p, ops, n - 1).Max(Fin(Candidate(p, ops, n - 1)))
    else Best(p, ops, n - 1)
  }

  lemma AfterNext(p: Params, ops: seq<Op>, n: nat)
    requires p.Valid() && n < |ops|
    ensures After(p, ops, n + 1) == Step(p, After(p, ops, n), ops[n])
  {
    RunNext(p, Init(p), ops, n);
  }

  lemma ObservedIff(p: Params, ops: seq<Op>, n: nat)
    requires p.Valid() && n < |ops| && ops[n].Arrive?
    ensures Observed(p, ops, n) <==> !Ignored(p, After(p, ops, n), ops[n].e, ops[n].arrival)
  {
    SeenByHistory(p, ops, n);
    RepeatsIff(ops, n, After(p, ops, n).seen);
    hide Repeats, SeenIs, Run;
  }

  // ------------------------------------------------------------------
  // One update
  // ------------------------------------------------------------------

  /** The candidate of an update, from the state before it. */
  ghost function CandidateFrom(p: Params, w: Watermark, t: real, a: Ambient): real {
    var newest := w.maxEventTime.Max(Fin(t));
    newest.r - if a.boo then p.lMax else UpdateEstimate(p, w, a.sample, a.sweep).lEff
  }

  lemma EstimateIgnoresTime(p: Params, w: Watermark, m: Ext, sample: Sample, sweep: bool)
    ensures UpdateEstimate(p, w.(maxEventTime := m), sample, sweep) ==
            UpdateEstimate(p, w, sample, sweep).(maxEventTime := m)
  {
  }

  lemma RecoveryLeaves(p: Params, w: Watermark, a: Ambient)
    ensures var v := AfterRecovery(p, w, a);
            v.wH == w.wH && v.maxEventTime == w.maxEventTime && v.lastUpdate == w.lastUpdate
  {
  }

  lemma ObserveIs(p: Params, w: Watermark, t: real, a: Ambient)
    ensures var v, c := AfterRecovery(p, Observe(p, w, t, a), a), CandidateFrom(p, w, t, a);
            && v.maxEventTime == w.maxEventTime.Max(Fin(t))
            && (a.phase0 ==> v.wH == w.wH && v.lastUpdate == w.lastUpdate)
            && (!a.phase0 && a.sweep ==> v.wH == w.wH.Max(Fin(c)) && v.lastUpdate == a.now)
            && (!a.phase0 && !a.sweep ==>
                  && v.lastUpdate == a.later
                  && v.wH == Fin(Limited(p, w.wH, c, a.now - if w.lastUpdate > 0.0 then w.lastUpdate else p.startTime)))
  {
    EstimateIgnoresTime(p, w, w.maxEventTime.Max(Fin(t)), a.sample, a.sweep);
    EstimateOnly(p, w.(maxEventTime := w.maxEventTime.Max(Fin(t))), a.sample, a.sweep);
    RecoveryLeaves(p, Observe(p, w, t, a), a);
    hide UpdateEstimate, AfterRecovery;
  }

  /** The watermark after an update in default mode: from `before` up to the candidate `c`, but no further than the
      rate times the time since the last update, and one window more after a tenth of a second. */
  ghost function Limited(p: Params, before: Ext, c: real, elapsed: real): real {
    var from := if before.Fin? then before.r else c;
    var reach := from + elapsed * p.advanceRate + if elapsed > 0.1 then p.size else 0.0;
    var goal := if from <= c then c else from;
    if goal <= reach then goal else reach
  }

  lemma StepObserves(p: Params, ops: seq<Op>, n: nat)
    requires p.Valid() && n < |ops|
    ensures var w, v := After(p, ops, n).wm, After(p, ops, n + 1).wm;
            if Observed(p, ops, n) then
              v == AfterRecovery(p, Observe(p, w, ops[n].e.time, ops[n].a), ops[n].a)
            else v == w
  {
    AfterNext(p, ops, n);
    StepWatermark(p, After(p, ops, n), ops[n]);
    if ops[n].Arrive? {
      ObservedIff(p, ops, n);
    }
    hide After, Step, Observe, AfterRecovery, Repeats;
  }

  /** The newest event time the engine remembers is that of its history. */
  lemma {:induction false} NewestIs(p: Params, ops: seq<Op>, n: nat)
    requires p.Valid() && n <= |ops|
    ensures After(p, ops, n).wm.maxEventTime == Newest(p, ops, n)
  {
    hide Step, Observe, AfterRecovery, Repeats;
    if n > 0 {
      NewestIs(p, ops, n - 1);
      StepObserves(p, ops, n - 1);
      hide After;
      if Observed(p, ops, n - 1) {
        ObserveIs(p, After(p, ops, n - 1).wm, ops[n - 1].e.time, ops[n - 1].a);
      }
    }
  }

  lemma CandidateIs(p: Params, ops: seq<Op>, n: nat)
    requires p.Valid() && n < |ops| && Observed(p, ops, n)
    ensures Candidate(p, ops, n) == CandidateFrom(p, After(p, ops, n).wm, ops[n].e.time, ops[n].a)
  {
    NewestIs(p, ops, n);
    hide After, UpdateEstimate, Repeats;
  }

  /** What one operation does to the watermark, by history. */
  lemma WatermarkStep(p: Params, ops: seq<Op>, n: nat)
    requires p.Valid() && n < |ops|
    ensures var w, v := After(p, ops, n).wm, After(p, ops, n + 1).wm;
            && (!Updates(p, ops, n) ==> v.wH == w.wH && v.lastUpdate == w.lastUpdate)
            && (Updates(p, ops, n) && ops[n].a.sweep ==>
                  v.wH == w.wH.Max(Fin(Candidate(p, ops, n))) && v.lastUpdate == ops[n].a.now)
            && (Updates(p, ops, n) && !ops[n].a.sweep ==>
                  && v.lastUpdate == ops[n].a.later
                  && v.wH == Fin(Limited(p, w.wH, Candidate(p, ops, n),
                                         ops[n].a.now - if w.lastUpdate > 0.0 then w.lastUpdate else p.startTime)))
  {
    StepObserves(p, ops, n);
    hide After, Observed, Observe, AfterRecovery, Limited, Candidate, CandidateFrom;
    if Observed(p, ops, n) {
      CandidateIs(p, ops, n);
      ObserveIs(p, After(p, ops, n).wm, ops[n].e.time, ops[n].a);
    }
  }

  // ------------------------------------------------------------------
  // Sweep mode: the watermark is the best candidate
  // ------------------------------------------------------------------

  ghost predicate SweepMode(ops: seq<Op>) {
    forall i | 0 <= i < |ops| && ops[i].Arrive? :: ops[i].a.sweep
  }

  /** In sweep mode the watermark is the largest newest-event-minus-estimate over all updates so far. */
  lemma {:induction false} SweepWatermark(p: Params, ops: seq<Op>, n: nat)
    requires p.Valid() && n <= |ops| && SweepMode(ops)
    ensures After(p, ops, n).wm.wH == Best(p, ops, n)
  {
    if n > 0 {
      SweepWatermark(p, ops, n - 1);
      WatermarkStep(p, ops, n - 1);
      hide After, Observed, Candidate, Limited;
    }
  }

  // ------------------------------------------------------------------
  // Default mode: the watermark catches up with its candidate
  // ------------------------------------------------------------------

  /** When the watermark was last updated, by history; zero before. */
  ghost function LastUpdate(p: Params, ops: seq<Op>, n: nat): real
    requires n <= |ops|
  {
    if n == 0 then 0.0
    else if Updates(p, ops, n - 1) then if ops[n - 1].a.sweep then ops[n - 1].a.now else ops[n - 1].a.later
    else LastUpdate(p, ops, n - 1)
  }

  /** The time the limiter measures at update `n`. */
  ghost function ElapsedAt(p: Params, ops: seq<Op>, n: nat): real
    requires n < |ops| && ops[n].Arrive?
  {
    ops[n].a.now - if LastUpdate(p, ops, n) > 0.0 then LastUpdate(p, ops, n) else p.startTime
  }

  lemma {:induction false} LastUpdateIs(p: Params, ops: seq<Op>, n: nat)
    requires p.Valid() && n <= |ops|
    ensures After(p, ops, n).wm.lastUpdate == LastUpdate(p, ops, n)
  {
    if n > 0 {
      LastUpdateIs(p, ops, n - 1);
      WatermarkStep(p, ops, n - 1);
      hide After, Updates, Candidate, Limited;
    }
  }

  /** Every update in default mode, exactly; other operations leave the watermark alone. */
  lemma DefaultWatermark(p: Params, ops: seq<Op>, n: nat)
    requires p.Valid() && n < |ops| && DefaultMode(ops)
    ensures After(p, ops, n + 1).wm.wH ==
            if Updates(p, ops, n)
            then Fin(Limited(p, After(p, ops, n).wm.wH, Candidate(p, ops, n), ElapsedAt(p, ops, n)))
            else After(p, ops, n).wm.wH
  {
    LastUpdateIs(p, ops, n);
    WatermarkStep(p, ops, n);
    hide After, Observed, Candidate, Limited;
  }

  /** In either mode the watermark never passes the largest candidate so far. */
  lemma {:induction false} NeverBeyondBest(p: Params, ops: seq<Op>, n: nat)
    requires p.Valid() && n <= |ops|
    ensures After(p, ops, n).wm.wH.Le(Best(p, ops, n))
  {
    if n > 0 {
      hide After, Observed, Candidate, Limited, Ext.Le, Ext.Max;
      NeverBeyondBest(p, ops, n - 1);
      WatermarkStep(p, ops, n - 1);
      if Updates(p, ops, n - 1) {
        BestRises(After(p, ops, n - 1).wm.wH, Best(p, ops, n - 1), Fin(Candidate(p, ops, n - 1)));
      }
      if Updates(p, ops, n - 1) && !ops[n - 1].a.sweep {
        var w := After(p, ops, n - 1).wm;
        LimitedBelow(p, w.wH, Candidate(p, ops, n - 1),
                     ops[n - 1].a.now - if w.lastUpdate > 0.0 then w.lastUpdate else p.startTime);
      }
    }
  }

  lemma BestRises(w: Ext, best: Ext, c: Ext)
    requires w.Le(best)
    ensures w.Max(c).Le(best.Max(c)) && forall v: Ext :: v.Le(w.Max(c)) ==> v.Le(best.Max(c))
  {
  }

  lemma LimitedBelow(p: Params, before: Ext, c: real, elapsed: real)
    ensures Fin(Limited(p, before, c, elapsed)).Le(before.Max(Fin(c)))
  {
  }

  /** The clock never runs back: the limiter measures no negative time. */
  ghost predicate ClockForward(p: Params, ops: seq<Op>) {
    forall i | 0 <= i < |ops| && Updates(p, ops, i) :: ElapsedAt(p, ops, i) >= 0.0
  }

  /** The time the limiter measures at the updates from `m` to `n`. */
  ghost function Waited(p: Params, ops: seq<Op>, m: nat, n: nat): real
    requires m <= n <= |ops|
  {
    if n == m then 0.0
    else Waited(p, ops, m, n - 1) + if Updates(p, ops, n - 1) then ElapsedAt(p, ops, n - 1) else 0.0
  }

  /** Every candidate from `m` to `n` is at least `c`. */
  ghost predicate CandidatesAbove(p: Params, ops: seq<Op>, m: nat, n: nat, c: real)
    requires p.Valid() && m <= n <= |ops|
  {
    forall i | m <= i < n && Updates(p, ops, i) :: Candidate(p, ops, i) >= c
  }

  /** What the rate allows in a given time. */
  ghost function Gain(p: Params, time: real): real {
    time * p.advanceRate
  }

  lemma GainAdds(p: Params, a: real, b: real)
    ensures Gain(p, a + b) == Gain(p, a) + Gain(p, b)
  {
  }

  lemma LimitedReaches(p: Params, from: real, candidate: real, c: real, elapsed: real)
    requires p.Valid() && p.advanceRate >= 0.0 && elapsed >= 0.0 && c <= candidate
    ensures Smaller(Larger(from, c), from + Gain(p, elapsed)) <= Limited(p, Fin(from), candidate, elapsed)
  {
    ProductNonNegative(elapsed, p.advanceRate);
  }

  /** One update more. */
  lemma ReachesMore(p: Params, start: real, waited: real, elapsed: real, from: real, after: real, c: real)
    requires p.advanceRate >= 0.0
    requires Smaller(c, start + Gain(p, waited)) <= from
    requires Smaller(Larger(from, c), from + Gain(p, elapsed)) <= after && from <= after
    ensures Smaller(c, start + Gain(p, waited + elapsed)) <= after
  {
    GainAdds(p, waited, elapsed);
    hide Gain;
  }

  lemma LimitedRises(p: Params, from: real, candidate: real, elapsed: real)
    requires p.Valid() && p.advanceRate >= 0.0 && elapsed >= 0.0
    ensures from <= Limited(p, Fin(from), candidate, elapsed)
  {
    ProductNonNegative(elapsed, p.advanceRate);
  }

  /** In default mode, while every candidate is at least `c`, the watermark is at least the smaller of `c` and what
      the rate has allowed since `m`. */
  lemma {:induction false} Reaches(p: Params, ops: seq<Op>, m: nat, n: nat, c: real)
    requires p.Valid() && p.advanceRate >= 0.0 && DefaultMode(ops) && ClockForward(p, ops) && m <= n <= |ops|
    requires After(p, ops, m).wm.wH.Fin? && CandidatesAbove(p, ops, m, n, c)
    ensures After(p, ops, n).wm.wH.Fin?
    ensures Smaller(c, After(p, ops, m).wm.wH.r + Gain(p, Waited(p, ops, m, n))) <= After(p, ops, n).wm.wH.r
  {
    hide After, Updates, Gain, Limited, Candidate, DefaultMode, Larger;
    if m == n {
      GainNone(p);
    } else {
      Reaches(p, ops, m, n - 1, c);
      DefaultWatermark(p, ops, n - 1);
      if Updates(p, ops, n - 1) {
        ReachStep(p, ops, m, n - 1, c);
      }
    }
  }

  lemma GainNone(p: Params)
    ensures Gain(p, 0.0) == 0.0
  {
  }

  lemma ReachStep(p: Params, ops: seq<Op>, m: nat, n: nat, c: real)
    requires p.Valid() && p.advanceRate >= 0.0 && ClockForward(p, ops) && m <= n < |ops| && Updates(p, ops, n)
    requires After(p, ops, m).wm.wH.Fin? && After(p, ops, n).wm.wH.Fin? && c <= Candidate(p, ops, n)
    requires After(p, ops, n + 1).wm.wH ==
             Fin(Limited(p, After(p, ops, n).wm.wH, Candidate(p, ops, n), ElapsedAt(p, ops, n)))
    requires Smaller(c, After(p, ops, m).wm.wH.r + Gain(p, Waited(p, ops, m, n))) <= After(p, ops, n).wm.wH.r
    ensures Smaller(c, After(p, ops, m).wm.wH.r + Gain(p, Waited(p, ops, m, n + 1))) <= After(p, ops, n + 1).wm.wH.r
  {
    hide After, Repeats, Gain, Limited, Candidate, Larger, Smaller;
    var start, from, after := After(p, ops, m).wm.wH.r, After(p, ops, n).wm.wH.r, After(p, ops, n + 1).wm.wH.r;
    LimitedReaches(p, from, Candidate(p, ops, n), c, ElapsedAt(p, ops, n));
    LimitedRises(p, from, Candidate(p, ops, n), ElapsedAt(p, ops, n));
    ReachesMore(p, start, Waited(p, ops, m, n), ElapsedAt(p, ops, n), from, after, c);
  }

  lemma GapCloses(p: Params, gap: real, waited: real)
    requires p.advanceRate > 0.0 && waited >= gap / p.advanceRate
    ensures Gain(p, waited) >= gap
  {
    var x := Quotient(gap, p.advanceRate);
    ProductWeaklyMonotone(x, waited, p.advanceRate);
  }

  /** A watermark `gap` behind reaches a candidate that stays above it once the limiter has measured `gap / rate`. */
  lemma ReachesCandidate(p: Params, ops: seq<Op>, m: nat, n: nat, c: real)
    requires p.Valid() && p.advanceRate > 0.0 && DefaultMode(ops) && ClockForward(p, ops) && m <= n <= |ops|
    requires After(p, ops, m).wm.wH.Fin? && CandidatesAbove(p, ops, m, n, c)
    requires Waited(p, ops, m, n) >= (c - After(p, ops, m).wm.wH.r) / p.advanceRate
    ensures After(p, ops, n).wm.wH.Fin? && c <= After(p, ops, n).wm.wH.r
  {
    hide After, Updates, Gain, DefaultMode, ClockForward, CandidatesAbove, Waited;
    GapCloses(p, c - After(p, ops, m).wm.wH.r, Waited(p, ops, m, n));
    Reaches(p, ops, m, n, c);
  }

  /** With a clock that stands still during an update, the limiter measures the time between the first and the
      last update. */
  lemma {:induction false} WaitedIsClock(p: Params, ops: seq<Op>, m: nat, n: nat)
    requires m <= n <= |ops| && DefaultMode(ops) && ClockForward(p, ops) && LastUpdate(p, ops, m) > 0.0
    requires forall i | m <= i < n && Updates(p, ops, i) :: ops[i].a.now == ops[i].a.later
    ensures Waited(p, ops, m, n) == LastUpdate(p, ops, n) - LastUpdate(p, ops, m)
    ensures LastUpdate(p, ops, n) > 0.0
  {
    if m < n {
      WaitedIsClock(p, ops, m, n - 1);
      hide Updates;
    }
  }

  // ------------------------------------------------------------------
  // The lag estimate follows its readings
  // ------------------------------------------------------------------

  /** Near enough not to be updated. */
  ghost predicate Near(p: Params, l: real, q: real) {
    Magnitude(q - l) / Larger(l, 0.001) < p.updateThreshold
  }

  /** What one reading does to the estimate: a prior counts while cold; fewer than ten values, or none new, change
      nothing; a new reading is taken over up to the cap unless it is near. In sweep mode a reading below the
      estimate pulls it down, by at most the decay rate and never below the reading. */
  lemma EstimateFollows(p: Params, w: Watermark, sample: Sample, sweep: bool)
    requires Sane(p) && p.updateThreshold > 0.0 && 0.0 <= w.lEff <= p.lMax
    ensures var l, q := UpdateEstimate(p, w, sample, sweep).lEff, sample.quantile;
            if !sample.warm then l == sample.prior
            else if sample.count < 10 || sample.count == w.sampled then l == w.lEff
            else if sweep && q < w.lEff then
              Larger(q, w.lEff * (1.0 - p.decayRate)) == l
            else l == Smaller(q, p.lMax) || (l == w.lEff && Near(p, l, q))
    ensures UpdateEstimate(p, w, sample, sweep).sampled ==
            if sample.warm && sample.count >= 10 then sample.count else w.sampled
    ensures UpdateEstimate(p, w, sample, sweep).lEffPrev ==
            if sample.warm && (sample.count < 10 || sample.count == w.sampled) then w.lEffPrev else w.lEff
  {
    ProductWeaklyMonotone(1.0 - p.decayRate, 1.0, w.lEff);
  }

  lemma ObserveEstimates(p: Params, w: Watermark, t: real, a: Ambient)
    ensures AfterRecovery(p, Observe(p, w, t, a), a).lEff ==
            match a.recovered
            case Some(q) => Smaller(q, p.lMax)
            case None => if a.boo && !a.phase0 then p.lMax else UpdateEstimate(p, w, a.sample, a.sweep).lEff
  {
    EstimateIgnoresTime(p, w, w.maxEventTime.Max(Fin(t)), a.sample, a.sweep);
    hide UpdateEstimate, Elapsed, Allowance;
  }

  /** Priors used while cold are not above the cap. */
  ghost predicate PriorsCapped(p: Params, ops: seq<Op>) {
    forall i | 0 <= i < |ops| && ops[i].Arrive? && !ops[i].a.sample.warm :: ops[i].a.sample.prior <= p.lMax
  }

  lemma UpdateCapped(p: Params, w: Watermark, sample: Sample, sweep: bool)
    requires w.lEff <= p.lMax && (!sample.warm ==> sample.prior <= p.lMax)
    ensures UpdateEstimate(p, w, sample, sweep).lEff <= p.lMax
  {
    hide RelativeChange;
  }

  /** In every run the lag estimate is the cap until the first observation, and never above it; the quantile read when
      the negative-lag fallback ends is taken over up to the cap. */
  lemma {:induction false} EstimateCapped(p: Params, ops: seq<Op>, n: nat)
    requires p.Valid() && n <= |ops| && PriorsCapped(p, ops)
    ensures After(p, ops, n).wm.lEff <= p.lMax
    ensures (forall i | 0 <= i < n :: !Observed(p, ops, i)) ==> After(p, ops, n).wm.lEff == p.lMax
    ensures n > 0 && Observed(p, ops, n - 1) && ops[n - 1].a.recovered.Some? ==>
              After(p, ops, n).wm.lEff == Smaller(ops[n - 1].a.recovered.value, p.lMax)
  {
    hide Step, Observed, Observe, AfterRecovery, UpdateEstimate;
    if n > 0 {
      EstimateCapped(p, ops, n - 1);
      StepObserves(p, ops, n - 1);
      hide After;
      if Observed(p, ops, n - 1) {
        CappedStep(p, ops, n - 1);
      }
    }
  }

  lemma CappedStep(p: Params, ops: seq<Op>, n: nat)
    requires p.Valid() && n < |ops| && PriorsCapped(p, ops) && Observed(p, ops, n)
    requires After(p, ops, n).wm.lEff <= p.lMax
    ensures var v := AfterRecovery(p, Observe(p, After(p, ops, n).wm, ops[n].e.time, ops[n].a), ops[n].a).lEff;
            v <= p.lMax && (ops[n].a.recovered.Some? ==> v == Smaller(ops[n].a.recovered.value, p.lMax))
  {
    hide After, Repeats, Observe, AfterRecovery, UpdateEstimate;
    ObserveEstimates(p, After(p, ops, n).wm, ops[n].e.time, ops[n].a);
    UpdateCapped(p, After(p, ops, n).wm, ops[n].a.sample, ops[n].a.sweep);
  }
}
