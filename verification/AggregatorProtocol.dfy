/** Heuristic engines and the aggregator together: every interleaving of engine steps, of delayed, lost,
    reordered and repeated reports, and of delayed, lost, reordered and repeated broadcasts. */
module AggregatorProtocol {
  import opened AggregatorSpec
  import opened Extended
  import opened GuardedMin
  import opened HeuristicSpec
  import opened HeuristicWatermark
  import S = StrictSpec
  import Sorting

  /** `flushed` records the partitions whose engine was flushed. */
  datatype World = World(
    agg: Agg, engines: map<int, State>, reports: set<Report>, broadcasts: set<Ext>, counted: Tracking,
    flushed: set<int>)

  datatype Action =
    | EngineStep(p: int, op: Op)
    | Send(worker: string, p: int)
    | Deliver(r: Report, now: real, later: real)
    | Broadcast

  function At(params: Params, p: int): Params {
    params.(partition := p)
  }

  ghost function Start(params: Params, pids: set<int>): World {
    World(AGG_INIT, map p | p in pids :: Init(At(params, p)), {}, {}, Never, {})
  }

  /** Engines read a clock that does not run back, and hear only of broadcast global watermarks. */
  ghost predicate Enabled(params: Params, w: World, a: Action)
    requires params.Valid()
  {
    match a
    case EngineStep(p, op) =>
      && p in w.engines
      && ClockOk(At(params, p), w.engines[p], op) && (op.Arrive? ==> ReadingOk(op.a))
      && (op.Global? ==> op.w in w.broadcasts)
    case Send(_, p) => p in w.engines
    case Deliver(r, _, _) => r in w.reports
    case Broadcast => true
  }

  ghost function Next(params: Params, w: World, a: Action): World
    requires params.Valid() && Enabled(params, w, a)
  {
    match a
    case EngineStep(p, op) =>
      w.(engines := w.engines[p := Step(At(params, p), w.engines[p], op)],
         flushed := FlushedAfter(w, p, op))
    case Send(worker, p) => w.(reports := w.reports + {Report(worker, p, w.engines[p].wm.wH)})
    case Deliver(r, now, later) =>
      var g := ReceiveReport(w.agg, r, now, later);
      w.(agg := g, counted := StillCounted(w.counted, Live(g.parts)))
    case Broadcast => w.(broadcasts := w.broadcasts + {w.agg.wGlobal})
  }

  ghost predicate IsRun(params: Params, pids: set<int>, actions: seq<Action>, w: World)
    requires params.Valid()
  {
    if actions == [] then w == Start(params, pids) else
      var n := |actions| - 1;
      exists v ::
        IsRun(params, pids, actions[..n], v) && Enabled(params, v, actions[n]) && w == Next(params, v, actions[n])
  }

  // ------------------------------------------------------------------
  // The invariant
  // ------------------------------------------------------------------

  ghost predicate BelowEngines(w: World, locals: LocalWatermarks) {
    forall p :: p in locals ==> p in w.engines && locals[p].Le(w.engines[p].wm.wH)
  }

  ghost predicate ReportsBelow(w: World) {
    forall r :: r in w.reports ==> r.partition in w.engines && r.wH.Le(w.engines[r.partition].wm.wH)
  }

  /** What was broadcast, and what engines heard, is not ahead of the aggregator. */
  ghost predicate HeardBelow(w: World) {
    && (forall g :: g in w.broadcasts ==> g.Le(w.agg.wGlobal))
    && (forall p :: p in w.engines ==> w.engines[p].wGlobal.Le(w.agg.wGlobal))
  }

  /** The partition was counted in every recomputation so far. */
  ghost predicate EverCounted(w: World, p: int) {
    w.counted.Never? || w.counted.Holds(p)
  }

  /** Every closed window ends at or before the watermark. */
  ghost predicate ClosedBehind(params: Params, s: State) {
    forall v :: v in s.closed ==> Fin(v + params.size).Le(s.wm.wH)
  }

  ghost predicate EnginesOk(params: Params, w: World) {
    && (forall p :: p in w.engines ==> Bounded(At(params, p), w.engines[p].wm))
    && (forall p :: p in w.engines && EverCounted(w, p) && p !in w.flushed ==> ClosedBehind(params, w.engines[p]))
  }

  ghost predicate Inv(params: Params, w: World) {
    && w.agg.wPrev == w.agg.wGlobal
    && ReportsBelow(w) && BelowEngines(w, WatermarksOf(w.agg.parts)) && HeardBelow(w)
    && Below(w.agg.wGlobal, w.counted, WatermarksOf(w.agg.parts))
    && EnginesOk(params, w)
  }

  /** The global watermark is not ahead of an engine that was counted every time. */
  lemma GlobalBelow(params: Params, w: World, p: int)
    requires Inv(params, w) && p in w.engines && EverCounted(w, p)
    ensures w.agg.wGlobal.Le(w.engines[p].wm.wH) && w.engines[p].wGlobal.Le(w.engines[p].wm.wH)
  {
    if w.counted.Holds(p) {
      assert p in WatermarksOf(w.agg.parts);
    }
  }

  // ------------------------------------------------------------------
  // Engine steps
  // ------------------------------------------------------------------

  /** Closing is behind the watermark when the limit is. */
  lemma CloseWindowsBehind(p: Params, s: State, phase0: bool, sweep: bool)
    requires ClosedBehind(p, s) && s.wGlobal.Le(s.wm.wH)
    ensures var t := CloseWindows(p, s, phase0, sweep); ClosedBehind(p, t) && t.wm == s.wm && t.wGlobal == s.wGlobal
  {
    if !phase0 {
      var ws := S.Closing(p.Windows(), s.open, Limit(s, sweep));
      ClosingBehind(p, s, sweep);
      hide S.Closing, Limit;
      CloseBehind(p, s, ws);
    }
  }

  lemma ClosingBehind(p: Params, s: State, sweep: bool)
    requires s.wGlobal.Le(s.wm.wH)
    ensures var ws := S.Closing(p.Windows(), s.open, Limit(s, sweep));
            ws <= s.open.Keys && forall v :: v in ws ==> Fin(v + p.size).Le(s.wm.wH)
  {
  }

  lemma CloseBehind(p: Params, s: State, ws: set<real>)
    requires ClosedBehind(p, s) && ws <= s.open.Keys && forall v :: v in ws ==> Fin(v + p.size).Le(s.wm.wH)
    ensures var t := Close(p, s, ws); ClosedBehind(p, t) && t.wm == s.wm && t.wGlobal == s.wGlobal
  {
    hide S.Results, Sorting.Sorted, S.ResultOf;
    var t := Close(p, s, ws);
    forall v | v in t.closed ensures Fin(v + p.size).Le(t.wm.wH) {
      assert v in s.closed || v in ws;
    }
  }

  lemma RouteBehind(p: Params, s: State, e: S.Event, arrival: real)
    requires p.Valid()
    ensures var t := Route(p, s, e, arrival); t.closed == s.closed && t.wm == s.wm && t.wGlobal == s.wGlobal
  {
  }

  lemma HandleBehind(p: Params, s: State, e: S.Event, arrival: real, a: Ambient)
    requires p.Valid() && ClosedBehind(p, s) && s.wGlobal.Le(s.wm.wH)
    requires s.wm.wH.Le(Observe(p, s.wm, e.time, a).wH)
    ensures var t := Handle(p, s, e, arrival, a); ClosedBehind(p, t) && t.wGlobal == s.wGlobal
  {
    var observed := s.(wm := Observe(p, s.wm, e.time, a));
    hide Observe, CloseWindows, Route;
    CloseWindowsBehind(p, observed, a.phase0, a.sweep);
    var c := CloseWindows(p, observed, a.phase0, a.sweep);
    RouteBehind(p, c.(wm := AfterRecovery(p, c.wm, a)), e, arrival);
  }

  lemma RecoveryKeepsWatermark(p: Params, wm: Watermark, a: Ambient)
    ensures AfterRecovery(p, wm, a).wH == wm.wH
  {
  }

  /** What the filters before `Handle` leave alone. */
  ghost predicate SameBut(s: State, t: State) {
    t.closed == s.closed && t.wm == s.wm && t.wGlobal == s.wGlobal
  }

  lemma FiltersKeep(p: Params, s: State, e: S.Event, arrival: real, a: Ambient)
    requires p.Valid()
    ensures var u := Remember(s.(received := s.received + 1), e.id, arrival, a.purgeNow);
            && SameBut(s, u)
            && (Ignored(p, s, e, arrival) ==> SameBut(s, Process(p, s, e, arrival, a)))
            && (!Ignored(p, s, e, arrival) ==> Process(p, s, e, arrival, a) == Handle(p, u, e, arrival, a))
  {
    hide Handle;
  }

  lemma ProcessBehind(p: Params, s: State, e: S.Event, arrival: real, a: Ambient)
    requires HeuristicWatermark.Sane(p) && Bounded(p, s.wm) && ReadingOk(a)
    requires Larger(s.wm.lastUpdate, p.startTime) <= a.now <= a.later
    requires ClosedBehind(p, s) && s.wGlobal.Le(s.wm.wH)
    ensures var t := Process(p, s, e, arrival, a); ClosedBehind(p, t) && t.wGlobal == s.wGlobal
  {
    ObserveIsMonotone(p, s.wm, e.time, a);
    RecoveryKeepsWatermark(p, Observe(p, s.wm, e.time, a), a);
    FiltersKeep(p, s, e, arrival, a);
    hide Observe, Handle, Process, AfterRecovery, Larger, Remember, Ignored, Bounded, ReadingOk;
    if !Ignored(p, s, e, arrival) {
      HandleBehind(p, Remember(s.(received := s.received + 1), e.id, arrival, a.purgeNow), e, arrival, a);
    }
  }

  lemma GlobalStepBehind(p: Params, s: State, g: Ext, phase0: bool, sweep: bool)
    requires ClosedBehind(p, s) && s.wGlobal.Le(s.wm.wH) && g.Le(s.wm.wH)
    ensures ClosedBehind(p, UpdateGlobal(p, s, g, phase0, sweep))
  {
    hide CloseWindows;
    CloseWindowsBehind(p, s.(wGlobal := s.wGlobal.Max(g)), phase0, sweep);
  }

  /** Only a delivered broadcast moves the global watermark an engine knows. */
  lemma StepGlobal(p: Params, s: State, op: Op)
    requires p.Valid()
    ensures Step(p, s, op).wGlobal == if op.Global? then s.wGlobal.Max(op.w) else s.wGlobal
  {
    hide Observe, AfterRecovery, S.Close;
  }

  lemma StepBehind(p: Params, s: State, op: Op)
    requires HeuristicWatermark.Sane(p) && Bounded(p, s.wm) && ClockOk(p, s, op) && (op.Arrive? ==> ReadingOk(op.a))
    requires !op.FlushAll? && ClosedBehind(p, s) && s.wGlobal.Le(s.wm.wH) && (op.Global? ==> op.w.Le(s.wm.wH))
    ensures ClosedBehind(p, Step(p, s, op))
  {
    hide Process, UpdateGlobal, ClosedBehind;
    match op
    case Arrive(e, arrival, a) => ProcessBehind(p, s, e, arrival, a);
    case Global(g, phase0, sweep) => GlobalStepBehind(p, s, g, phase0, sweep);
  }

  /** One step of an engine that knows no global watermark ahead of `g`. When `g` is not ahead of the engine
      either, closing stays behind the engine's watermark. */
  lemma StepFacts(q: Params, s: State, op: Op, g: Ext)
    requires HeuristicWatermark.Sane(q) && Bounded(q, s.wm) && ClockOk(q, s, op) && (op.Arrive? ==> ReadingOk(op.a))
    requires s.wGlobal.Le(g) && (op.Global? ==> op.w.Le(g))
    ensures var t := Step(q, s, op);
            && s.wm.wH.Le(t.wm.wH) && t.wGlobal.Le(g) && Bounded(q, t.wm)
            && (g.Le(s.wm.wH) && ClosedBehind(q, s) && !op.FlushAll? ==> ClosedBehind(q, t))
  {
    hide Step, Bounded, ClockOk, ReadingOk, ClosedBehind;
    StepIsMonotone(q, s, op);
    StepGlobal(q, s, op);
    if g.Le(s.wm.wH) && ClosedBehind(q, s) && !op.FlushAll? {
      StepBehind(q, s, op);
    }
  }

  /** What the invariant says of one engine. */
  lemma EngineBefore(params: Params, w: World, p: int)
    requires Inv(params, w) && p in w.engines
    ensures Bounded(At(params, p), w.engines[p].wm) && w.engines[p].wGlobal.Le(w.agg.wGlobal)
    ensures EverCounted(w, p) ==> w.agg.wGlobal.Le(w.engines[p].wm.wH)
    ensures EverCounted(w, p) && p !in w.flushed ==> ClosedBehind(At(params, p), w.engines[p])
    ensures forall g :: g in w.broadcasts ==> g.Le(w.agg.wGlobal)
  {
    if EverCounted(w, p) {
      GlobalBelow(params, w, p);
    }
    hide Bounded, Below, BelowEngines, WatermarksOf;
  }

  ghost function FlushedAfter(w: World, p: int, op: Op): set<int> {
    if op.FlushAll? then w.flushed + {p} else w.flushed
  }

  lemma EngineStepFacts(params: Params, w: World, p: int, op: Op)
    requires HeuristicWatermark.Sane(params) && Inv(params, w) && Enabled(params, w, EngineStep(p, op))
    ensures var s, t := w.engines[p], Step(At(params, p), w.engines[p], op);
            && s.wm.wH.Le(t.wm.wH) && t.wGlobal.Le(w.agg.wGlobal) && Bounded(At(params, p), t.wm)
            && (EverCounted(w, p) && p !in FlushedAfter(w, p, op) ==> ClosedBehind(At(params, p), t))
  {
    EngineBefore(params, w, p);
    hide Inv, Bounded, ReadingOk, ClosedBehind, EverCounted, Step, ClockOk;
    StepFacts(At(params, p), w.engines[p], op, w.agg.wGlobal);
  }

  lemma EngineKeepsInv(params: Params, w: World, p: int, op: Op)
    requires HeuristicWatermark.Sane(params) && Inv(params, w) && Enabled(params, w, EngineStep(p, op))
    ensures Inv(params, Next(params, w, EngineStep(p, op)))
  {
    EngineStepFacts(params, w, p, op);
    var t, flushed := Step(At(params, p), w.engines[p], op), FlushedAfter(w, p, op);
    assert Next(params, w, EngineStep(p, op)) == w.(engines := w.engines[p := t], flushed := flushed) by {
      hide Step, Inv, ClosedBehind, Bounded;
    }
    assert w.flushed <= flushed && p in w.engines;
    hide *;
    EngineMoved(params, w, p, t, flushed);
  }

  /** An engine whose watermark moved forward keeps everything in order. */
  lemma EngineMoved(params: Params, w: World, p: int, t: State, flushed: set<int>)
    requires Inv(params, w) && p in w.engines && w.flushed <= flushed
    requires w.engines[p].wm.wH.Le(t.wm.wH) && t.wGlobal.Le(w.agg.wGlobal)
    requires Bounded(At(params, p), t.wm)
    requires EverCounted(w, p) && p !in flushed ==> ClosedBehind(At(params, p), t)
    ensures Inv(params, w.(engines := w.engines[p := t], flushed := flushed))
  {
    var v := w.(engines := w.engines[p := t], flushed := flushed);
    assert ClosedBehind(At(params, p), t) ==> ClosedBehind(params, t);
    hide Bounded, ClosedBehind, WatermarksOf, Below;
    assert BelowEngines(v, WatermarksOf(v.agg.parts));
  }

  // ------------------------------------------------------------------
  // Reports and broadcasts
  // ------------------------------------------------------------------

  lemma ReportCatchesUp(w: World, r: Report, now: real, later: real)
    requires ReportsBelow(w) && r in w.reports && BelowEngines(w, WatermarksOf(w.agg.parts))
    ensures var before, locals := WatermarksOf(w.agg.parts), WatermarksOf(Aged(Recorded(w.agg.parts, r, now), later));
            BelowEngines(w, locals) && forall p :: p in before ==> p in locals && before[p].Le(locals[p])
  {
    var before, locals := WatermarksOf(w.agg.parts), WatermarksOf(Aged(Recorded(w.agg.parts, r, now), later));
    forall p | p in locals ensures p in w.engines && locals[p].Le(w.engines[p].wm.wH) {
      assert p in before ==> before[p].Le(w.engines[p].wm.wH);
    }
  }

  lemma DeliverKeepsInv(params: Params, w: World, r: Report, now: real, later: real)
    requires params.Valid() && Inv(params, w) && r in w.reports
    ensures Inv(params, Next(params, w, Deliver(r, now, later)))
  {
    var parts := Aged(Recorded(w.agg.parts, r, now), later);
    ReportCatchesUp(w, r, now, later);
    GuardKeepsBelow(w.agg.wPrev, w.counted, WatermarksOf(w.agg.parts), WatermarksOf(parts), Live(parts));
    var v := Next(params, w, Deliver(r, now, later));
    hide Bounded, ClosedBehind, Recorded, Aged, WatermarksOf, Below, BelowEngines, Live;
    AggregatorMoved(params, w, v.agg, Live(parts));
    assert v == w.(agg := v.agg, counted := StillCounted(w.counted, Live(parts)));
  }

  /** The aggregator moved forward and counts no partition it had stopped counting. */
  lemma AggregatorMoved(params: Params, w: World, agg: Agg, counted: set<int>)
    requires Inv(params, w) && w.agg.wGlobal.Le(agg.wGlobal) && agg.wPrev == agg.wGlobal
    requires BelowEngines(w, WatermarksOf(agg.parts))
    requires Below(agg.wGlobal, StillCounted(w.counted, counted), WatermarksOf(agg.parts))
    ensures Inv(params, w.(agg := agg, counted := StillCounted(w.counted, counted)))
  {
    hide Bounded, ClosedBehind, WatermarksOf, Below;
    var v := w.(agg := agg, counted := StillCounted(w.counted, counted));
    forall p | EverCounted(v, p) ensures EverCounted(w, p) {
    }
  }

  lemma NextKeepsInv(params: Params, w: World, a: Action)
    requires HeuristicWatermark.Sane(params) && Inv(params, w) && Enabled(params, w, a)
    ensures Inv(params, Next(params, w, a))
  {
    hide Bounded, ClosedBehind, WatermarksOf, Below;
    match a
    case EngineStep(p, op) => EngineKeepsInv(params, w, p, op);
    case Send(worker, p) =>
    case Deliver(r, now, later) => DeliverKeepsInv(params, w, r, now, later);
    case Broadcast =>
  }

  lemma {:induction false} RunKeepsInv(params: Params, pids: set<int>, actions: seq<Action>, w: World)
    requires HeuristicWatermark.Sane(params) && IsRun(params, pids, actions, w)
    ensures Inv(params, w)
    decreases |actions|
  {
    if actions != [] {
      var n := |actions| - 1;
      var v :|
        IsRun(params, pids, actions[..n], v) && Enabled(params, v, actions[n]) && w == Next(params, v, actions[n]);
      RunKeepsInv(params, pids, actions[..n], v);
      NextKeepsInv(params, v, actions[n]);
    }
  }

  /** Safety of the heuristic global watermark. For a partition counted in every recomputation, neither
      the aggregator's watermark nor the one the engine was last told is ahead of the engine's own, and
      an engine that was not flushed never closed a window before its own watermark had passed it. */
  lemma HeuristicGlobalSafe(params: Params, pids: set<int>, actions: seq<Action>, w: World, p: int)
    requires HeuristicWatermark.Sane(params) && IsRun(params, pids, actions, w) && p in w.engines && EverCounted(w, p)
    ensures w.agg.wGlobal.Le(w.engines[p].wm.wH)
    ensures w.engines[p].wGlobal.Le(w.agg.wGlobal)
    ensures p !in w.flushed ==> forall v :: v in w.engines[p].closed ==> Fin(v + params.size).Le(w.engines[p].wm.wH)
  {
    RunKeepsInv(params, pids, actions, w);
    hide *;
    InvIsSafe(params, w, p);
  }

  lemma InvIsSafe(params: Params, w: World, p: int)
    requires Inv(params, w) && p in w.engines && EverCounted(w, p)
    ensures w.agg.wGlobal.Le(w.engines[p].wm.wH)
    ensures w.engines[p].wGlobal.Le(w.agg.wGlobal)
    ensures p !in w.flushed ==> forall v :: v in w.engines[p].closed ==> Fin(v + params.size).Le(w.engines[p].wm.wH)
  {
    GlobalBelow(params, w, p);
    hide Below, BelowEngines, ReportsBelow, Bounded, WatermarksOf;
  }
}
