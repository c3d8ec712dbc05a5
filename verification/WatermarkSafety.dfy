/** Safety of the strict global watermark, with premises read off the heartbeats delivered. */
module WatermarkSafety {
  import opened CoordinatorHistory
  import opened CoordinatorSpec
  import opened Extended
  import opened ReportHistory
  import opened StrictRuns
  import opened WatermarkProtocol
  import S = StrictSpec
  import Window

  ghost function Deliveries(actions: seq<Action>): seq<Delivery> {
    if actions == [] then [] else
      var n := |actions| - 1;
      var a := actions[n];
      Deliveries(actions[..n]) + if a.Deliver? then [Delivery(a.hb, a.now, a.later)] else []
  }

  lemma DeliveriesMore(ds: seq<Delivery>, d: Delivery)
    ensures var more := ds + [d];
            && After(more, |ds|) == After(ds, |ds|) && Tracked(more, |ds|) == Tracked(ds, |ds|)
            && After(more, |more|) == Receive(After(ds, |ds|), d.hb, d.now, d.later)
            && (Fresh(After(ds, |ds|), d.hb) <==> Accepted(more, |ds|))
  {
    var more := ds + [d];
    assert more[..|ds|] == ds;
    AfterPrefix(more, |ds|, |ds|);
    TokensByHistory(more, |ds|);
    FreshIff(more, |ds|, After(more, |ds|));
    hide Receive, Fresh, Accepted, TokensAre, Tracked;
  }

  /** The coordinator of a run is that of the heartbeats the run delivers. */
  lemma {:induction false} CoordByDeliveries(params: S.Params, pids: set<int>, actions: seq<Action>, w: World)
    requires params.Valid() && IsRun(params, pids, actions, w)
    ensures var ds := Deliveries(actions); w.coord == After(ds, |ds|) && w.counted == Tracked(ds, |ds|)
    decreases |actions|
  {
    if actions != [] {
      var n := |actions| - 1;
      var v :| IsRun(params, pids, actions[..n], v) && Enabled(v, actions[n]) && w == Next(params, v, actions[n]);
      CoordByDeliveries(params, pids, actions[..n], v);
      hide IsRun;
      DeliveryStep(params, v, actions[n], Deliveries(actions[..n]), Deliveries(actions));
    }
  }

  lemma DeliveryStep(params: S.Params, v: World, a: Action, ds: seq<Delivery>, more: seq<Delivery>)
    requires params.Valid() && Enabled(v, a) && v.coord == After(ds, |ds|) && v.counted == Tracked(ds, |ds|)
    requires more == ds + if a.Deliver? then [Delivery(a.hb, a.now, a.later)] else []
    ensures var w := Next(params, v, a); w.coord == After(more, |more|) && w.counted == Tracked(more, |more|)
  {
    hide Receive, Fresh, Accepted, After, S.Step;
    if a.Deliver? {
      DeliveriesMore(ds, Delivery(a.hb, a.now, a.later));
    } else {
      assert more == ds;
    }
  }

  /** Global watermark safety by deliveries. If `p` was reported, was not behind when it first was, and ever since met
      the test at every accepted heartbeat (its last report at most 30 s old and not marking it idle), then the
      global watermark is not ahead of its engine: no window that ends at or before it is open there, and no event
      of such a window is accepted there. */
  lemma SafeByHeartbeats(params: S.Params, pids: set<int>, actions: seq<Action>, w: World, p: int)
    requires params.Valid() && IsRun(params, pids, actions, w)
    requires var ds := Deliveries(actions);
             LastReport(ds, |ds|, p) >= 0 && NeverLeftOut(ds, 30.0, |ds|, p) && JoinsInTime(ds, Globals(ds), |ds|, p)
    ensures p in w.engines && w.coord.wGlobal.Le(w.engines[p].localWatermark)
    ensures forall s :: s in w.engines[p].open ==> w.coord.wGlobal.Lt(Fin(s + params.size))
    ensures forall e: S.Event, queueLen: int ::
              Fin(Window.Start(params.size, e.time) + params.size).Le(w.coord.wGlobal) ==>
                S.Classify(params.(partition := p), w.engines[p], e, queueLen) != S.Accepted
  {
    hide *;
    var ds := Deliveries(actions);
    RunKeepsInv(params, pids, actions, w);
    CoordByDeliveries(params, pids, actions, w);
    GlobalsMove(ds);
    NeverOvertaken(ds, 30.0, Globals(ds), |ds|, p);
    GlobalsAre(ds);
    PartByHistory(ds, |ds|, p);
    ReportedIsAhead(params, w, ds, p);
    EngineHonours(params.(partition := p), w.engines[p], w.coord.wGlobal);
  }

  lemma GlobalsAre(ds: seq<Delivery>)
    ensures |Globals(ds)| == |ds| + 1 && Globals(ds)[|ds|] == After(ds, |ds|).wGlobal
  {
  }

  lemma ReportedIsAhead(params: S.Params, w: World, ds: seq<Delivery>, p: int)
    requires params.Valid() && Inv(params, w) && PartIs(ds, |ds|, w.coord.parts, p) && LastReport(ds, |ds|, p) >= 0
    requires w.coord.wGlobal.Le(Highest(ds, |ds|, p))
    ensures p in w.engines && w.coord.wGlobal.Le(w.engines[p].localWatermark)
    ensures params.(partition := p).Valid() && Led(params.(partition := p), w.engines[p])
  {
    hide Led, Synchronised, Highest, LastReport;
    assert p in Locals(w.coord.parts);
  }

  /** The partitions that `GlobalWatermarkSafe` and `HearingIsIdle` speak of, by deliveries: those that met the test
      at every accepted heartbeat at which any partition did. */
  lemma EverCountedIff(params: S.Params, pids: set<int>, actions: seq<Action>, w: World, p: int)
    requires params.Valid() && IsRun(params, pids, actions, w)
    ensures var ds := Deliveries(actions); EverCounted(w, p) <==> AlwaysMeets(ds, 30.0, |ds|, p)
  {
    hide IsRun, AlwaysMeets, Tracked, NobodyMet;
    var ds := Deliveries(actions);
    CoordByDeliveries(params, pids, actions, w);
    TrackedIff(ds, |ds|, p);
  }

  /** For such a partition the broadcasts that come back change nothing. */
  lemma IdleByHeartbeats(params: S.Params, pids: set<int>, actions: seq<Action>, w: World, p: int, g: Ext)
    requires params.Valid() && IsRun(params, pids, actions, w) && p in w.engines && g in w.broadcasts
    requires var ds := Deliveries(actions); AlwaysMeets(ds, 30.0, |ds|, p)
    ensures w.engines[p].watermark == w.engines[p].localWatermark
    ensures Next(params, w, EngineStep(p, S.Hear(g))) == w
  {
    EverCountedIff(params, pids, actions, w, p);
    hide IsRun, AlwaysMeets, EverCounted;
    HearingIsIdle(params, pids, actions, w, p, g);
  }
}
