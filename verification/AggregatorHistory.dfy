/** The heuristic aggregator read off the reports delivered to it. A report is a heartbeat that names one partition,
    carries no fencing token and never marks a partition idle; it counts for two seconds. */
module AggregatorHistory {
  import opened AggregatorProtocol
  import opened AggregatorSpec
  import opened CoordinatorSpec
  import opened Extended
  import opened GuardedMin
  import opened HeuristicSpec
  import opened HeuristicWatermark
  import opened ReportHistory

  /** A report and the two readings of the clock while it is received. */
  datatype Received = Received(r: Report, now: real, later: real)

  ghost function Gathered(rs: seq<Received>, n: nat): Agg
    requires n <= |rs|
  {
    if n == 0 then AGG_INIT else ReceiveReport(Gathered(rs, n - 1), rs[n - 1].r, rs[n - 1].now, rs[n - 1].later)
  }

  function AsDelivery(d: Received): Delivery {
    Delivery(Heartbeat(d.r.worker, map[d.r.partition := d.r.wH], 0, {}), d.now, d.later)
  }

  function AsDeliveries(rs: seq<Received>): (ds: seq<Delivery>)
    ensures |ds| == |rs| && forall i :: 0 <= i < |rs| ==> ds[i] == AsDelivery(rs[i])
  {
    seq(|rs|, i requires 0 <= i < |rs| => AsDelivery(rs[i]))
  }

  lemma AllAccepted(rs: seq<Received>, n: nat)
    requires n < |rs|
    ensures Accepted(AsDeliveries(rs), n)
  {
  }

  // ------------------------------------------------------------------
  // Partitions
  // ------------------------------------------------------------------

  /** What the aggregator knows of partition `p`. */
  ghost predicate Knows(ds: seq<Delivery>, n: nat, parts: map<int, PartitionWatermark>, p: int)
    requires n <= |ds|
  {
    var l := LastReport(ds, n, p);
    && (p in parts <==> l >= 0)
    && (l < 0 ==> Highest(ds, n, p) == NegInf)
    && (l >= 0 ==>
          parts[p].worker == ds[l].hb.worker && parts[p].lastUpdate == ds[l].now && parts[p].wH == Highest(ds, n, p))
  }

  lemma ReceiveParts(g: Agg, r: Report, now: real, later: real)
    ensures ReceiveReport(g, r, now, later).parts == Aged(Recorded(g.parts, r, now), later)
  {
    hide Recorded, Aged, Guard, Live, WatermarksOf;
  }

  lemma KnowsStep(rs: seq<Received>, n: nat, parts: map<int, PartitionWatermark>, p: int)
    requires n < |rs| && Knows(AsDeliveries(rs), n, parts, p)
    ensures Knows(AsDeliveries(rs), n + 1, Aged(Recorded(parts, rs[n].r, rs[n].now), rs[n].later), p)
  {
    AllAccepted(rs, n);
    hide Accepted;
  }

  lemma KnowsStart(ds: seq<Delivery>, p: int)
    ensures Knows(ds, 0, AGG_INIT.parts, p)
  {
  }

  lemma {:induction false} KnownByHistory(rs: seq<Received>, n: nat, p: int)
    requires n <= |rs|
    ensures Knows(AsDeliveries(rs), n, Gathered(rs, n).parts, p)
  {
    hide Knows, ReceiveReport, Aged, Recorded;
    if n == 0 {
      KnowsStart(AsDeliveries(rs), p);
    } else {
      KnownByHistory(rs, n - 1, p);
      ReceiveParts(Gathered(rs, n - 1), rs[n - 1].r, rs[n - 1].now, rs[n - 1].later);
      KnowsStep(rs, n - 1, Gathered(rs, n - 1).parts, p);
    }
  }

  /** The partitions the minimum ranges over are those whose last report is at most two seconds old. */
  lemma LiveIsMeeting(rs: seq<Received>, n: nat)
    requires n < |rs|
    ensures CountsMeeting(AsDeliveries(rs), 2.0, n, Live(Gathered(rs, n + 1).parts))
  {
    hide ReceiveReport, Accepted, Highest, LastReport, Recorded, Aged, Live;
    var ds, g := AsDeliveries(rs), Gathered(rs, n + 1);
    ReceiveParts(Gathered(rs, n), rs[n].r, rs[n].now, rs[n].later);
    forall p ensures p in Live(g.parts) <==> Meets(ds, 2.0, n, p) {
      KnownByHistory(rs, n + 1, p);
      LiveAges(Recorded(Gathered(rs, n).parts, rs[n].r, rs[n].now), rs[n].later, p);
    }
  }

  lemma LiveAges(parts: map<int, PartitionWatermark>, now: real, p: int)
    ensures var aged := Aged(parts, now);
            p in Live(aged) <==> p in aged && now - aged[p].lastUpdate <= 2.0
  {
  }

  lemma WatermarksByHistory(rs: seq<Received>, n: nat)
    requires n < |rs|
    ensures LocalsAre(AsDeliveries(rs), n, WatermarksOf(Gathered(rs, n + 1).parts))
  {
    var parts := Gathered(rs, n + 1).parts;
    hide Gathered, Accepted, Highest;
    forall p | p in parts ensures WatermarksOf(parts)[p] == Highest(AsDeliveries(rs), n + 1, p) {
      KnownByHistory(rs, n + 1, p);
    }
  }

  // ------------------------------------------------------------------
  // The global watermark
  // ------------------------------------------------------------------

  lemma ReceiveGlobal(g: Agg, r: Report, now: real, later: real)
    requires g.wPrev == g.wGlobal
    ensures var h := ReceiveReport(g, r, now, later);
            h.wGlobal == Guard(g.wGlobal, WatermarksOf(h.parts), Live(h.parts)) && h.wPrev == h.wGlobal
  {
    hide Recorded, Aged, Live, WatermarksOf;
  }

  lemma {:induction false} PrevIsGlobal(rs: seq<Received>, n: nat)
    requires n <= |rs|
    ensures Gathered(rs, n).wPrev == Gathered(rs, n).wGlobal
  {
    if n > 0 {
      PrevIsGlobal(rs, n - 1);
      hide ReceiveReport;
      ReceiveGlobal(Gathered(rs, n - 1), rs[n - 1].r, rs[n - 1].now, rs[n - 1].later);
    }
  }

  /** A report raises the global watermark to the least watermark reported by the partitions whose last report is at
      most two seconds old, if that is larger, and leaves it alone when there are none. */
  lemma ReportMeaning(rs: seq<Received>, n: nat)
    requires n < |rs|
    ensures Moves(AsDeliveries(rs), 2.0, n, Gathered(rs, n).wGlobal, Gathered(rs, n + 1).wGlobal)
  {
    var g, h := Gathered(rs, n), Gathered(rs, n + 1);
    assert h == ReceiveReport(g, rs[n].r, rs[n].now, rs[n].later);
    hide *;
    AllAccepted(rs, n);
    PrevIsGlobal(rs, n);
    ReceiveGlobal(g, rs[n].r, rs[n].now, rs[n].later);
    LiveIsMeeting(rs, n);
    WatermarksByHistory(rs, n);
    GuardMoves(AsDeliveries(rs), 2.0, n, WatermarksOf(h.parts), Live(h.parts), g.wGlobal);
  }

  ghost function Globals(rs: seq<Received>): seq<Ext> {
    seq(|rs| + 1, i requires 0 <= i <= |rs| => Gathered(rs, i).wGlobal)
  }

  lemma GlobalsMove(rs: seq<Received>)
    ensures MovesAll(AsDeliveries(rs), 2.0, Globals(rs))
  {
    hide Gathered, Accepted, Moves;
    forall i | 0 <= i < |rs| ensures Moves(AsDeliveries(rs), 2.0, i, Globals(rs)[i], Globals(rs)[i + 1]) {
      ReportMeaning(rs, i);
    }
  }

  // ------------------------------------------------------------------
  // Runs of the protocol
  // ------------------------------------------------------------------

  /** The bookkeeping of the protocol, over reports. */
  ghost function Tracked(rs: seq<Received>, n: nat): Tracking
    requires n <= |rs|
  {
    if n == 0 then Never else StillCounted(Tracked(rs, n - 1), Live(Gathered(rs, n).parts))
  }

  lemma {:induction false} TrackedIff(rs: seq<Received>, n: nat, p: int)
    requires n <= |rs|
    ensures TrackedOk(AsDeliveries(rs), 2.0, n, Tracked(rs, n), p)
  {
    hide Gathered, Accepted, MeetsIfAny, NobodyMeets, Live, StillCounted, CountsMeeting;
    if n > 0 {
      TrackedIff(rs, n - 1, p);
      AllAccepted(rs, n - 1);
      LiveIsMeeting(rs, n - 1);
      TrackedStep(AsDeliveries(rs), 2.0, n - 1, Tracked(rs, n - 1), Live(Gathered(rs, n).parts), p);
    }
  }

  lemma {:induction false} GatheredPrefix(rs: seq<Received>, m: nat, n: nat)
    requires n <= m <= |rs|
    ensures Gathered(rs[..m], n) == Gathered(rs, n) && Tracked(rs[..m], n) == Tracked(rs, n)
  {
    hide ReceiveReport, Live, StillCounted;
    if n > 0 {
      GatheredPrefix(rs, m, n - 1);
      assert rs[..m][n - 1] == rs[n - 1];
    }
  }

  ghost function ReportsOf(actions: seq<Action>): seq<Received> {
    if actions == [] then [] else
      var n := |actions| - 1;
      var a := actions[n];
      ReportsOf(actions[..n]) + if a.Deliver? then [Received(a.r, a.now, a.later)] else []
  }

  lemma ReportStep(params: Params, v: World, a: Action, rs: seq<Received>, more: seq<Received>)
    requires params.Valid() && Enabled(params, v, a) && v.agg == Gathered(rs, |rs|) && v.counted == Tracked(rs, |rs|)
    requires more == rs + if a.Deliver? then [Received(a.r, a.now, a.later)] else []
    ensures var w := Next(params, v, a); w.agg == Gathered(more, |more|) && w.counted == Tracked(more, |more|)
  {
    if a.Deliver? {
      assert more[..|rs|] == rs;
      GatheredPrefix(more, |rs|, |rs|);
    } else {
      assert more == rs;
    }
    hide ReceiveReport, Step, StillCounted, Live;
  }

  /** The aggregator of a run is that of the reports the run delivers. */
  lemma {:induction false} AggByReports(params: Params, pids: set<int>, actions: seq<Action>, w: World)
    requires params.Valid() && IsRun(params, pids, actions, w)
    ensures var rs := ReportsOf(actions); w.agg == Gathered(rs, |rs|) && w.counted == Tracked(rs, |rs|)
    decreases |actions|
  {
    if actions != [] {
      var n := |actions| - 1;
      var v :|
        IsRun(params, pids, actions[..n], v) && Enabled(params, v, actions[n]) && w == Next(params, v, actions[n]);
      AggByReports(params, pids, actions[..n], v);
      hide IsRun, Enabled, Next;
      ReportStep(params, v, actions[n], ReportsOf(actions[..n]), ReportsOf(actions));
    }
  }

  /** Safety of the heuristic global watermark by reports. If `p` was reported, was not behind when it first was, and
      ever since had a last report at most two seconds old at every report received, then the global watermark is
      not ahead of its engine's. */
  lemma SafeByReports(params: Params, pids: set<int>, actions: seq<Action>, w: World, p: int)
    requires HeuristicWatermark.Sane(params) && IsRun(params, pids, actions, w)
    requires var rs := ReportsOf(actions); var ds := AsDeliveries(rs);
             LastReport(ds, |ds|, p) >= 0 && NeverLeftOut(ds, 2.0, |ds|, p) && JoinsInTime(ds, Globals(rs), |ds|, p)
    ensures p in w.engines && w.agg.wGlobal.Le(w.engines[p].wm.wH)
  {
    hide *;
    var rs := ReportsOf(actions);
    var ds := AsDeliveries(rs);
    SaneIsValid(params);
    RunKeepsInv(params, pids, actions, w);
    AggByReports(params, pids, actions, w);
    GlobalsMove(rs);
    NeverOvertaken(ds, 2.0, Globals(rs), |ds|, p);
    GlobalsAre(rs);
    KnownByHistory(rs, |rs|, p);
    ReportedIsAhead(params, w, ds, p);
  }

  lemma SaneIsValid(params: Params)
    requires HeuristicWatermark.Sane(params)
    ensures params.Valid()
  {
  }

  lemma GlobalsAre(rs: seq<Received>)
    ensures |Globals(rs)| == |rs| + 1 && Globals(rs)[|rs|] == Gathered(rs, |rs|).wGlobal
  {
  }

  lemma ReportedIsAhead(params: Params, w: World, ds: seq<Delivery>, p: int)
    requires params.Valid() && Inv(params, w) && Knows(ds, |ds|, w.agg.parts, p) && LastReport(ds, |ds|, p) >= 0
    requires w.agg.wGlobal.Le(Highest(ds, |ds|, p))
    ensures p in w.engines && w.agg.wGlobal.Le(w.engines[p].wm.wH)
  {
    hide Bounded, ClosedBehind, Highest, LastReport;
    assert p in WatermarksOf(w.agg.parts);
  }

  /** The partitions that `HeuristicGlobalSafe` speaks of, by reports: those whose last report was at most two seconds
      old at every report at which that was so of any partition. */
  lemma EverCountedIff(params: Params, pids: set<int>, actions: seq<Action>, w: World, p: int)
    requires params.Valid() && IsRun(params, pids, actions, w)
    ensures var ds := AsDeliveries(ReportsOf(actions)); EverCounted(w, p) <==> AlwaysMeets(ds, 2.0, |ds|, p)
  {
    hide IsRun, AlwaysMeets, Tracked, NobodyMet;
    var rs := ReportsOf(actions);
    AggByReports(params, pids, actions, w);
    TrackedIff(rs, |rs|, p);
  }
}
