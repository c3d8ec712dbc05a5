/** Engines, heartbeats, the coordinator and its broadcasts together: every interleaving of engine steps with
    delayed, lost, reordered and repeated messages in both directions, in one coordinator lifetime. */
module WatermarkProtocol {
  import opened CoordinatorSpec
  import opened Extended
  import opened GuardedMin
  import opened StrictRuns
  import S = StrictSpec
  import Window

  /** `sent` and `broadcasts` never shrink: a message may be delivered any number of times, or never. */
  datatype World = World(
    coord: Coord, engines: map<int, S.State>, sent: set<Heartbeat>, broadcasts: set<Ext>, counted: Tracking)

  datatype Action =
    | EngineStep(p: int, op: S.Op)
    | Send(hb: Heartbeat)
    | Deliver(hb: Heartbeat, now: real, later: real)
    | Broadcast

  ghost function Start(pids: set<int>): World {
    World(COORD_INIT, map p | p in pids :: S.INIT, {}, {}, Never)
  }

  /** An action the world allows: engines exist and hear only what was broadcast, a heartbeat carries the local
      watermarks of its moment, and only sent heartbeats arrive. */
  ghost predicate Enabled(w: World, a: Action) {
    match a
    case EngineStep(p, op) => p in w.engines && (op.Hear? ==> op.g in w.broadcasts)
    case Send(hb) =>
      forall p :: p in hb.partitions ==> p in w.engines && hb.partitions[p] == w.engines[p].localWatermark
    case Deliver(hb, _, _) => hb in w.sent
    case Broadcast => true
  }

  ghost function Next(params: S.Params, w: World, a: Action): World
    requires params.Valid() && Enabled(w, a)
  {
    match a
    case EngineStep(p, op) =>
      w.(engines := w.engines[p := S.Step(params.(partition := p), w.engines[p], op)])
    case Send(hb) => w.(sent := w.sent + {hb})
    case Deliver(hb, now, later) =>
      var c := Receive(w.coord, hb, now, later);
      w.(coord := c,
         counted := if Fresh(w.coord, hb) then StillCounted(w.counted, Counted(c.parts)) else w.counted)
    case Broadcast => w.(broadcasts := w.broadcasts + {w.coord.wGlobal})
  }

  ghost predicate IsRun(params: S.Params, pids: set<int>, actions: seq<Action>, w: World)
    requires params.Valid()
  {
    if actions == [] then w == Start(pids) else
      var n := |actions| - 1;
      exists v :: IsRun(params, pids, actions[..n], v) && Enabled(v, actions[n]) && w == Next(params, v, actions[n])
  }

  // ------------------------------------------------------------------
  // Safety
  // ------------------------------------------------------------------

  ghost predicate AtMostEngines(w: World, locals: LocalWatermarks) {
    forall p :: p in locals ==> p in w.engines && locals[p].Le(w.engines[p].localWatermark)
  }

  /** The partition was counted in every recomputation so far. */
  ghost predicate EverCounted(w: World, p: int) {
    w.counted.Never? || w.counted.Holds(p)
  }

  /** Every engine keeps its local watermark in order; those counted every time have no other. */
  ghost predicate EnginesOk(params: S.Params, w: World)
    requires params.Valid()
  {
    && (forall p :: p in w.engines ==> Led(params.(partition := p), w.engines[p]))
    && (forall p :: p in w.engines && EverCounted(w, p) ==> Synchronised(params.(partition := p), w.engines[p]))
  }

  /** No message is ahead of its source. */
  ghost predicate MessagesBehind(w: World) {
    && (forall hb :: hb in w.sent ==> AtMostEngines(w, hb.partitions))
    && (forall g :: g in w.broadcasts ==> g.Le(w.coord.wGlobal))
  }

  ghost predicate CoordinatorBehind(w: World) {
    && AtMostEngines(w, Locals(w.coord.parts))
    && w.coord.wPrev == w.coord.wGlobal
    && Below(w.coord.wGlobal, w.counted, Locals(w.coord.parts))
  }

  ghost predicate Inv(params: S.Params, w: World)
    requires params.Valid()
  {
    EnginesOk(params, w) && MessagesBehind(w) && CoordinatorBehind(w)
  }

  /** The global watermark is not ahead of an engine that was counted every time, so hearing it changes nothing
      there. */
  lemma CountedIsAhead(w: World, p: int)
    requires CoordinatorBehind(w) && p in w.engines && EverCounted(w, p)
    ensures w.coord.wGlobal.Le(w.engines[p].localWatermark)
  {
    if w.counted.Holds(p) {
      assert p in Locals(w.coord.parts);
    }
  }

  lemma ReportsCatchUp(w: World, hb: Heartbeat, now: real, later: real)
    requires CoordinatorBehind(w) && AtMostEngines(w, hb.partitions)
    ensures var locals := Locals(WithStatuses(Reported(w.coord.parts, hb, now), later));
            && AtMostEngines(w, locals)
            && forall p :: p in Locals(w.coord.parts) ==> p in locals && Locals(w.coord.parts)[p].Le(locals[p])
  {
    var before, locals := Locals(w.coord.parts), Locals(WithStatuses(Reported(w.coord.parts, hb, now), later));
    forall p | p in locals ensures p in w.engines && locals[p].Le(w.engines[p].localWatermark) {
      assert p in before ==> before[p].Le(w.engines[p].localWatermark);
    }
  }

  lemma ReceiveKeepsInv(params: S.Params, w: World, hb: Heartbeat, now: real, later: real)
    requires params.Valid() && Inv(params, w) && hb in w.sent
    ensures Inv(params, Next(params, w, Deliver(hb, now, later)))
  {
    if Fresh(w.coord, hb) {
      var reported := WithStatuses(Reported(w.coord.parts, hb, now), later);
      hide Synchronised, Led;
      assert AtMostEngines(w, hb.partitions);
      ReportsCatchUp(w, hb, now, later);
      GuardKeepsBelow(w.coord.wPrev, w.counted, Locals(w.coord.parts), Locals(reported), Counted(reported));
      hide AtMostEngines, Reported, WithStatuses, Locals, Below;
      KeepsBehind(params, w, Next(params, w, Deliver(hb, now, later)));
    }
  }

  /** The coordinator moved forward and counts no partition it had stopped counting. */
  lemma KeepsBehind(params: S.Params, w: World, v: World)
    requires params.Valid() && EnginesOk(params, w) && MessagesBehind(w)
    requires v.engines == w.engines && v.sent == w.sent && v.broadcasts == w.broadcasts
    requires w.coord.wGlobal.Le(v.coord.wGlobal)
    requires exists counted :: v.counted == StillCounted(w.counted, counted)
    ensures EnginesOk(params, v) && MessagesBehind(v)
  {
    hide Led, Synchronised;
    forall hb | hb in v.sent ensures AtMostEngines(v, hb.partitions) {
      assert AtMostEngines(w, hb.partitions);
    }
  }

  lemma EngineKeepsInv(params: S.Params, w: World, p: int, op: S.Op)
    requires params.Valid() && Inv(params, w) && Enabled(w, EngineStep(p, op))
    ensures Inv(params, Next(params, w, EngineStep(p, op)))
  {
    var q, s := params.(partition := p), w.engines[p];
    StepLed(q, s, op);
    if EverCounted(w, p) {
      CountedIsAhead(w, p);
      StepSynchronised(q, s, op);
    }
    hide S.Step, Synchronised, Led, Locals, Below;
    LocalsCatchUp(params, w, p, S.Step(q, s, op));
  }

  /** An engine whose local watermark moved forward is still ahead of every message and of the coordinator. */
  lemma LocalsCatchUp(params: S.Params, w: World, p: int, t: S.State)
    requires params.Valid() && Inv(params, w) && p in w.engines && w.engines[p].localWatermark.Le(t.localWatermark)
    requires Led(params.(partition := p), t) && (EverCounted(w, p) ==> Synchronised(params.(partition := p), t))
    ensures Inv(params, w.(engines := w.engines[p := t]))
  {
    var v := w.(engines := w.engines[p := t]);
    hide Led, Synchronised, Locals, Below;
    forall locals | AtMostEngines(w, locals) ensures AtMostEngines(v, locals) {
    }
  }

  lemma NextKeepsInv(params: S.Params, w: World, a: Action)
    requires params.Valid() && Inv(params, w) && Enabled(w, a)
    ensures Inv(params, Next(params, w, a))
  {
    hide Led, Synchronised, Locals, Below;
    match a
    case EngineStep(p, op) => EngineKeepsInv(params, w, p, op);
    case Send(hb) =>
      forall locals | AtMostEngines(w, locals) ensures AtMostEngines(Next(params, w, a), locals) {
      }
    case Deliver(hb, now, later) => ReceiveKeepsInv(params, w, hb, now, later);
    case Broadcast =>
      forall locals | AtMostEngines(w, locals) ensures AtMostEngines(Next(params, w, a), locals) {
      }
  }

  lemma {:induction false} RunKeepsInv(params: S.Params, pids: set<int>, actions: seq<Action>, w: World)
    requires params.Valid() && IsRun(params, pids, actions, w)
    ensures Inv(params, w)
    decreases |actions|
  {
    if actions != [] {
      var n := |actions| - 1;
      var v :| IsRun(params, pids, actions[..n], v) && Enabled(v, actions[n]) && w == Next(params, v, actions[n]);
      RunKeepsInv(params, pids, actions[..n], v);
      NextKeepsInv(params, v, actions[n]);
    }
  }

  /** Global watermark safety. For a partition counted in every recomputation, the global watermark is
      not ahead of its engine: no window that ends at or before it is open there, and no event of such
      a window is accepted there any more. */
  lemma GlobalWatermarkSafe(params: S.Params, pids: set<int>, actions: seq<Action>, w: World, p: int)
    requires params.Valid() && IsRun(params, pids, actions, w) && w.counted.Holds(p)
    ensures p in w.engines && w.coord.wGlobal.Le(w.engines[p].watermark)
    ensures forall s :: s in w.engines[p].open ==> w.coord.wGlobal.Lt(Fin(s + params.size))
    ensures forall e: S.Event, queueLen: int ::
              Fin(Window.Start(params.size, e.time) + params.size).Le(w.coord.wGlobal) ==>
                S.Classify(params.(partition := p), w.engines[p], e, queueLen) != S.Accepted
  {
    hide *;
    RunKeepsInv(params, pids, actions, w);
    InvIsSafe(params, w, p);
  }

  lemma InvIsSafe(params: S.Params, w: World, p: int)
    requires params.Valid() && Inv(params, w) && w.counted.Holds(p)
    ensures p in w.engines && w.coord.wGlobal.Le(w.engines[p].watermark)
    ensures forall s :: s in w.engines[p].open ==> w.coord.wGlobal.Lt(Fin(s + params.size))
    ensures forall e: S.Event, queueLen: int ::
              Fin(Window.Start(params.size, e.time) + params.size).Le(w.coord.wGlobal) ==>
                S.Classify(params.(partition := p), w.engines[p], e, queueLen) != S.Accepted
  {
    CountedIsSynchronised(params, w, p);
    hide Inv, Tracking.Holds;
    SynchronisedIs(params.(partition := p), w.engines[p]);
    hide Synchronised, S.Classify, Window.Start, Ext.Le, Ext.Lt;
    EngineHonours(params.(partition := p), w.engines[p], w.coord.wGlobal);
  }

  lemma CountedIsSynchronised(params: S.Params, w: World, p: int)
    requires params.Valid() && Inv(params, w) && w.counted.Holds(p)
    ensures p in w.engines && w.coord.wGlobal.Le(w.engines[p].localWatermark)
    ensures Synchronised(params.(partition := p), w.engines[p])
  {
    assert p in Locals(w.coord.parts);
    CountedIsAhead(w, p);
    hide Below, Locals, Led, Synchronised;
  }

  lemma SynchronisedIs(q: S.Params, s: S.State)
    requires q.Valid() && Synchronised(q, s)
    ensures s.watermark == s.localWatermark
  {
  }

  /** The way back closes the loop for such a partition without effect: whatever broadcast its engine hears, and
      however late, its watermark stays the local one, and the world does not change. */
  lemma HearingIsIdle(params: S.Params, pids: set<int>, actions: seq<Action>, w: World, p: int, g: Ext)
    requires params.Valid() && IsRun(params, pids, actions, w) && p in w.engines && EverCounted(w, p)
    requires g in w.broadcasts
    ensures w.engines[p].watermark == w.engines[p].localWatermark
    ensures Next(params, w, EngineStep(p, S.Hear(g))) == w
  {
    RunKeepsInv(params, pids, actions, w);
    hide IsRun;
    InvHearsIdly(params, w, p, g);
  }

  lemma InvHearsIdly(params: S.Params, w: World, p: int, g: Ext)
    requires params.Valid() && Inv(params, w) && p in w.engines && EverCounted(w, p) && g in w.broadcasts
    ensures w.engines[p].watermark == w.engines[p].localWatermark
    ensures Next(params, w, EngineStep(p, S.Hear(g))) == w
  {
    CountedIsAhead(w, p);
    SynchronisedIs(params.(partition := p), w.engines[p]);
    assert g.Le(w.engines[p].watermark);
    hide Inv, Led, Synchronised;
    assert w.engines[p := w.engines[p]] == w.engines;
  }

  /** An engine whose local watermark has reached `g` holds no open window ending at or before `g` and
      accepts no event of one. */
  lemma EngineHonours(q: S.Params, s: S.State, g: Ext)
    requires q.Valid() && Led(q, s) && g.Le(s.localWatermark)
    ensures forall v :: v in s.open ==> g.Lt(Fin(v + q.size))
    ensures forall e: S.Event, queueLen: int ::
              Fin(Window.Start(q.size, e.time) + q.size).Le(g) ==> S.Classify(q, s, e, queueLen) != S.Accepted
  {
  }

  /** Before anyone was counted there is no global watermark. */
  lemma {:induction false} NoWatermarkBeforeCounting(params: S.Params, pids: set<int>, actions: seq<Action>, w: World)
    requires params.Valid() && IsRun(params, pids, actions, w) && w.counted.Never?
    ensures w.coord.wGlobal == NegInf
  {
    RunKeepsInv(params, pids, actions, w);
    hide IsRun;
  }

  // ------------------------------------------------------------------
  // Monotonicity and fencing
  // ------------------------------------------------------------------

  /** Nothing the coordinator remembers about watermarks and tokens ever moves back. */
  ghost predicate MovesForward(c: Coord, d: Coord) {
    && c.wGlobal.Le(d.wGlobal)
    && c.term <= d.term && c.violations <= d.violations
    && (forall k :: k in c.tokens ==> k in d.tokens && c.tokens[k] <= d.tokens[k])
    && (forall p :: p in c.parts ==> p in d.parts && c.parts[p].watermark.Le(d.parts[p].watermark))
  }

  lemma ReceiveAdvances(c: Coord, hb: Heartbeat, now: real, later: real)
    requires c.wPrev == c.wGlobal
    ensures MovesForward(c, Receive(c, hb, now, later))
  {
  }

  /** A later state of the same run. */
  ghost predicate Extends(params: S.Params, v: World, actions: seq<Action>, w: World)
    requires params.Valid()
    decreases |actions|
  {
    if actions == [] then w == v else
      Enabled(v, actions[0]) && Extends(params, Next(params, v, actions[0]), actions[1..], w)
  }

  lemma {:induction false} ExtensionAdvances(params: S.Params, v: World, actions: seq<Action>, w: World)
    requires params.Valid() && Inv(params, v) && Extends(params, v, actions, w)
    ensures MovesForward(v.coord, w.coord)
    decreases |actions|
  {
    if actions != [] {
      var u := Next(params, v, actions[0]);
      ExtensionOf(params, v, actions, w);
      NextKeepsInv(params, v, actions[0]);
      hide *;
      ActionAdvances(params, v, actions[0]);
      ExtensionAdvances(params, u, actions[1..], w);
      MovesForwardTransitive(v.coord, u.coord, w.coord);
    } else {
      MovesForwardReflexive(v.coord);
    }
  }

  lemma MovesForwardReflexive(c: Coord)
    ensures MovesForward(c, c)
  {
  }

  lemma MovesForwardTransitive(c: Coord, d: Coord, e: Coord)
    requires MovesForward(c, d) && MovesForward(d, e)
    ensures MovesForward(c, e)
  {
  }

  lemma ActionAdvances(params: S.Params, v: World, a: Action)
    requires params.Valid() && Inv(params, v) && Enabled(v, a)
    ensures MovesForward(v.coord, Next(params, v, a).coord)
  {
    if a.Deliver? {
      ReceiveAdvances(v.coord, a.hb, a.now, a.later);
    } else {
      MovesForwardReflexive(v.coord);
    }
  }

  lemma ExtensionOf(params: S.Params, v: World, actions: seq<Action>, w: World)
    requires params.Valid() && actions != [] && Extends(params, v, actions, w)
    ensures Enabled(v, actions[0]) && Extends(params, Next(params, v, actions[0]), actions[1..], w)
  {
  }

  /** Fencing: once a heartbeat of a worker with some token has been accepted, at every later moment a
      heartbeat of that worker with a smaller token changes the violation counter and nothing else. */
  lemma FencedForGood(params: S.Params, pids: set<int>, before: seq<Action>, v: World, hb: Heartbeat, now: real,
                      later: real, actions: seq<Action>, w: World, stale: Heartbeat, now': real, later': real)
    requires params.Valid() && IsRun(params, pids, before, v)
    requires hb in v.sent && Fresh(v.coord, hb)
    requires Extends(params, Next(params, v, Deliver(hb, now, later)), actions, w)
    requires stale.worker == hb.worker && stale.token < hb.token
    ensures Receive(w.coord, stale, now', later') == w.coord.(violations := w.coord.violations + 1)
  {
    RunKeepsInv(params, pids, before, v);
    NextKeepsInv(params, v, Deliver(hb, now, later));
    var u := Next(params, v, Deliver(hb, now, later));
    TokenTaken(v.coord, hb, now, later);
    assert u.coord == Receive(v.coord, hb, now, later);
    hide IsRun, Inv, Next, Receive;
    ExtensionAdvances(params, u, actions, w);
    StaleRejected(u.coord, w.coord, hb, stale, now', later');
  }

  lemma TokenTaken(c: Coord, hb: Heartbeat, now: real, later: real)
    requires Fresh(c, hb)
    ensures var d := Receive(c, hb, now, later); hb.worker in d.tokens && d.tokens[hb.worker] >= hb.token
  {
    hide Reported, WithStatuses, Guard, Locals;
  }

  lemma StaleRejected(c: Coord, d: Coord, hb: Heartbeat, stale: Heartbeat, now: real, later: real)
    requires MovesForward(c, d) && hb.worker in c.tokens && c.tokens[hb.worker] >= hb.token
    requires stale.worker == hb.worker && stale.token < hb.token
    ensures Receive(d, stale, now, later) == d.(violations := d.violations + 1)
  {
    hide Reported, WithStatuses, ComputeGlobal;
  }
}
