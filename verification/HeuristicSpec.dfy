/** The heuristic watermark engine as a state machine on values (heuristic/engine.py). Clock readings,
    the sketch's quantile, the cold-start phase and the negative-lag verdict enter as inputs. */
module HeuristicSpec {
  import opened Extended
  import opened Outcomes
  import S = StrictSpec
  import Window

  datatype Params = Params(
    size: real, partition: int, lMax: real, advanceRate: real, updateThreshold: real, decayRate: real,
    maxFutureSkew: real, maxLagAccepted: real, startTime: real)
  {
    predicate Valid() {
      size > 0.0
    }

    /** The window arithmetic shared with the strict engine. */
    function Windows(): S.Params {
      S.Params(size, 0.0, 0, partition)
    }
  }

  datatype LateEvent = LateEvent(id: string, time: real, arrival: real, partition: int)

  /** The watermark fields: W_h, its predecessor, the newest event time, the lag estimate. */
  datatype Watermark = Watermark(
    wH: Ext, wHPrev: Ext, maxEventTime: Ext, lEff: real, lEffPrev: real, lastUpdate: real,
    sampled: nat)

  datatype State = State(
    wm: Watermark, wGlobal: Ext,
    open: map<real, S.WindowState>, closed: map<real, S.WindowResult>, pending: seq<S.WindowResult>,
    late: seq<LateEvent>, seen: map<string, real>,
    received: nat, duplicates: nat, lateDropped: nat, onTime: nat, extremeLag: nat)

  /** The cold-start verdict and its prior, and the sketch's number of values and quantile. */
  datatype Sample = Sample(warm: bool, prior: real, count: nat, quantile: real)

  /** What `_update_L_eff` finds: still cold with a prior, nothing new to read, or a warm quantile. */
  datatype Reading = Cold(prior: real) | Unchanged | Warm(quantile: real)

  /** Everything `process` reads from outside the modelled state. `sweep` is the flag
      HEURISTIC_LOCAL_WATERMARK_CLOSE, `boo` the negative-lag fallback, `recovered` the quantile read
      when that fallback ends. */
  datatype Ambient = Ambient(
    purgeNow: real, sample: Sample, phase0: bool, boo: bool, sweep: bool, now: real, later: real,
    recovered: Option<real>)

  function Init(p: Params): State {
    State(Watermark(NegInf, NegInf, NegInf, p.lMax, p.lMax, 0.0, 0), NegInf, map[], map[], [], [], map[], 0, 0, 0, 0, 0)
  }

  function Smaller(a: real, b: real): real {
    if a <= b then a else b
  }

  function Larger(a: real, b: real): real {
    if a >= b then a else b
  }

  // ------------------------------------------------------------------
  // The lag estimate
  // ------------------------------------------------------------------

  /** The relative change of the estimate, guarded against a zero estimate. */
  function RelativeChange(l: real, change: real): real {
    change / Larger(l, 0.001)
  }

  function Magnitude(x: real): real {
    if x >= 0.0 then x else -x
  }

  /** A warm reading in sweep mode rises at once when it moves enough and decays slowly. */
  function SweepEstimate(p: Params, l: real, q: real): real {
    if q >= l then
      if RelativeChange(l, q - l) >= p.updateThreshold then Smaller(q, p.lMax) else l
    else
      Smaller(l, Larger(q, l * (1.0 - p.decayRate)))
  }

  function DefaultEstimate(p: Params, l: real, q: real): real {
    if RelativeChange(l, Magnitude(q - l)) >= p.updateThreshold then Smaller(q, p.lMax) else l
  }

  /** While cold the prior counts; a warm estimator is queried when it has ten values and their number has
      changed since the last query. */
  function Read(sampled: nat, sample: Sample): Reading {
    if !sample.warm then Cold(sample.prior)
    else if sample.count < 10 || sample.count == sampled then Unchanged
    else Warm(sample.quantile)
  }

  function UpdateEstimate(p: Params, s: Watermark, sample: Sample, sweep: bool): Watermark {
    match Read(s.sampled, sample)
    case Cold(prior) => s.(lEffPrev := s.lEff, lEff := prior)
    case Unchanged => s
    case Warm(q) =>
      s.(lEffPrev := s.lEff, sampled := sample.count,
         lEff := if sweep then SweepEstimate(p, s.lEff, q) else DefaultEstimate(p, s.lEff, q))
  }

  // ------------------------------------------------------------------
  // The watermark
  // ------------------------------------------------------------------

  function Elapsed(p: Params, s: Watermark, now: real): real {
    now - if s.lastUpdate > 0.0 then s.lastUpdate else p.startTime
  }

  /** How far the rate limiter lets the watermark move. */
  function Allowance(p: Params, elapsed: real): real {
    elapsed * p.advanceRate + if elapsed > 0.1 then p.size else 0.0
  }

  function ComputeWatermark(p: Params, s0: Watermark, phase0: bool, boo: bool, sweep: bool, now: real, later: real)
    : Watermark
  {
    var s := s0.(wHPrev := s0.wH);
    if s.maxEventTime.NegInf? || phase0 then s else
      var r := if boo then s.(lEff := p.lMax) else s;
      var candidate := s.maxEventTime.r - r.lEff;
      var prev := if s.wH.NegInf? then candidate else s.wH.r;
      var raised := Larger(prev, candidate);
      if sweep then r.(wHPrev := Fin(prev), wH := Fin(raised), lastUpdate := now)
      else r.(wHPrev := Fin(prev),
              wH := Fin(Smaller(raised, prev + Allowance(p, Elapsed(p, s, now)))),
              lastUpdate := later)
  }

  // ------------------------------------------------------------------
  // Windows
  // ------------------------------------------------------------------

  /** Closing moves windows exactly as in the strict engine, with `pending` as the outgoing queue. */
  ghost function Close(p: Params, s: State, ws: set<real>): State
    requires ws <= s.open.Keys
  {
    var c := S.Close(p.Windows(), S.INIT.(open := s.open, closed := s.closed, emitted := s.pending), ws);
    s.(open := c.open, closed := c.closed, pending := c.emitted)
  }

  /** The watermark that closes windows: local in sweep mode, else the global one when there is one. */
  function Limit(s: State, sweep: bool): Ext {
    if sweep then s.wm.wH else if s.wGlobal.Fin? then s.wGlobal else s.wm.wH
  }

  ghost function CloseWindows(p: Params, s: State, phase0: bool, sweep: bool): State {
    if phase0 then s else Close(p, s, S.Closing(p.Windows(), s.open, Limit(s, sweep)))
  }

  ghost function UpdateGlobal(p: Params, s: State, w: Ext, phase0: bool, sweep: bool): State {
    CloseWindows(p, s.(wGlobal := s.wGlobal.Max(w)), phase0, sweep)
  }

  ghost function Flush(p: Params, s: State): State {
    Close(p, s, s.open.Keys)
  }

  // ------------------------------------------------------------------
  // Events
  // ------------------------------------------------------------------

  function ToDlq(p: Params, s: State, e: S.Event, arrival: real): State {
    s.(lateDropped := s.lateDropped + 1, late := s.late + [LateEvent(e.id, e.time, arrival, p.partition)])
  }

  function Route(p: Params, s: State, e: S.Event, arrival: real): State
    requires p.Valid()
  {
    var w := Window.Start(p.size, e.time);
    if arrival - e.time > p.maxLagAccepted then
      ToDlq(p, s.(extremeLag := s.extremeLag + 1), e, arrival)
    else if w in s.closed then ToDlq(p, s, e, arrival)
    else
      var st := if w in s.open then s.open[w] else S.WindowState(0, 0);
      s.(open := s.open[w := S.CountEvent(st, e)], onTime := s.onTime + 1)
  }

  /** The id filter, with its wall-clock purge. */
  function Remember(s: State, id: string, arrival: real, now: real): State {
    var seen := s.seen[id := arrival];
    s.(seen := map k | k in seen && !(seen[k] < now - S.DEDUP_TTL) :: seen[k])
  }

  predicate IsDuplicate(s: State, e: S.Event) {
    e.id in s.seen
  }

  /** The watermark update of one event. */
  function Observe(p: Params, wm: Watermark, t: real, a: Ambient): Watermark {
    var estimated := UpdateEstimate(p, wm.(maxEventTime := wm.maxEventTime.Max(Fin(t))), a.sample, a.sweep);
    ComputeWatermark(p, estimated, a.phase0, a.boo, a.sweep, a.now, a.later)
  }

  /** When the negative-lag fallback ends, the estimate is read afresh. */
  function AfterRecovery(p: Params, wm: Watermark, a: Ambient): Watermark {
    if a.recovered.Some? then wm.(lEff := Smaller(a.recovered.value, p.lMax)) else wm
  }

  /** Everything after the duplicate and future-skew filters. */
  ghost function Handle(p: Params, s: State, e: S.Event, arrival: real, a: Ambient): State
    requires p.Valid()
  {
    var c := CloseWindows(p, s.(wm := Observe(p, s.wm, e.time, a)), a.phase0, a.sweep);
    Route(p, c.(wm := AfterRecovery(p, c.wm, a)), e, arrival)
  }

  ghost function Process(p: Params, s0: State, e: S.Event, arrival: real, a: Ambient): State
    requires p.Valid()
  {
    var s1 := s0.(received := s0.received + 1);
    if IsDuplicate(s1, e) then s1.(duplicates := s1.duplicates + 1) else
      var s2 := Remember(s1, e.id, arrival, a.purgeNow);
      if e.time - arrival > p.maxFutureSkew then
        ToDlq(p, s2.(extremeLag := s2.extremeLag + 1), e, arrival)
      else Handle(p, s2, e, arrival, a)
  }
}
