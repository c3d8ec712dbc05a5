/** The heuristic engine object (heuristic/engine.py). */
module HeuristicEngine {
  import opened Extended
  import opened HeuristicSpec
  import opened Sorting
  import opened StrictClosing
  import S = StrictSpec
  import Window

  class HeuristicWatermarkEngine {
    const p: Params
    var wH: Ext
    var wHPrev: Ext
    var wGlobalH: Ext
    var maxEventTime: Ext
    var lEff: real
    var lEffPrev: real
    var lastWmUpdate: real
    var cachedSketchCount: nat
    var openWindows: map<real, S.WindowState>
    var closedWindows: map<real, S.WindowResult>
    var pendingResults: seq<S.WindowResult>
    var lateEvents: seq<LateEvent>
    var seenIds: map<string, real>
    var totalReceived: nat
    var duplicates: nat
    var lateDropped: nat
    var onTime: nat
    var extremeLagCount: nat

    ghost function Wm(): Watermark
      reads this
    {
      Watermark(wH, wHPrev, maxEventTime, lEff, lEffPrev, lastWmUpdate, cachedSketchCount)
    }

    ghost function Abs(): State
      reads this
    {
      State(Wm(), wGlobalH, openWindows, closedWindows, pendingResults, lateEvents, seenIds,
            totalReceived, duplicates, lateDropped, onTime, extremeLagCount)
    }

    /** The window fields, seen as the strict state whose closing they share. */
    ghost function Win(): S.State
      reads this
    {
      S.INIT.(open := openWindows, closed := closedWindows, emitted := pendingResults)
    }

    constructor (p: Params)
      requires p.Valid()
      ensures this.p == p && Abs() == Init(p)
    {
      this.p := p;
      wH, wHPrev, wGlobalH, maxEventTime := NegInf, NegInf, NegInf, NegInf;
      lEff, lEffPrev, lastWmUpdate, cachedSketchCount := p.lMax, p.lMax, 0.0, 0;
      openWindows, closedWindows, pendingResults, lateEvents, seenIds := map[], map[], [], [], map[];
      totalReceived, duplicates, lateDropped, onTime, extremeLagCount := 0, 0, 0, 0, 0;
    }

    method UpdateLEff(sample: Sample, sweep: bool)
      modifies this`lEff, this`lEffPrev, this`cachedSketchCount
      ensures Wm() == UpdateEstimate(p, old(Wm()), sample, sweep)
    {
      if !sample.warm {
        lEffPrev := lEff;
        lEff := sample.prior;
        return;
      }
      if sample.count < 10 {
        return;
      }
      if sample.count > 0 && sample.count == cachedSketchCount {
        return;
      }
      lEffPrev := lEff;
      var q := sample.quantile;
      cachedSketchCount := sample.count;
      if sweep {
        if q >= lEff {
          if RelativeChange(lEff, q - lEff) >= p.updateThreshold {
            lEff := Smaller(q, p.lMax);
          }
        } else {
          var floor := lEff * (1.0 - p.decayRate);
          lEff := Smaller(lEff, Larger(q, floor));
        }
      } else if RelativeChange(lEff, Magnitude(q - lEff)) >= p.updateThreshold {
        lEff := Smaller(q, p.lMax);
      }
    }

    method ComputeWatermarkNow(phase0: bool, boo: bool, sweep: bool, now: real, later: real)
      modifies this`wH, this`wHPrev, this`lEff, this`lastWmUpdate
      ensures Wm() == ComputeWatermark(p, old(Wm()), phase0, boo, sweep, now, later)
    {
      wHPrev := wH;
      if maxEventTime.NegInf? || phase0 {
        return;
      }
      if boo {
        lEff := p.lMax;
      }
      var candidate := maxEventTime.r - lEff;
      if wHPrev.NegInf? {
        wHPrev := Fin(candidate);
      }
      wH := Fin(Larger(wHPrev.r, candidate));
      if sweep {
        lastWmUpdate := now;
        return;
      }
      var elapsed := now - if lastWmUpdate > 0.0 then lastWmUpdate else p.startTime;
      var maxAdvance := elapsed * p.advanceRate;
      var addedSize := if elapsed > 0.1 then p.size else 0.0;
      assert maxAdvance + addedSize == Allowance(p, elapsed);
      wH := Fin(Smaller(wH.r, wHPrev.r + (maxAdvance + addedSize)));
      lastWmUpdate := later;
    }

    /** The body of the closing loops. */
    method EmitClosed(w: real, st: S.WindowState)
      modifies this`closedWindows, this`pendingResults
      ensures closedWindows == old(closedWindows)[w := S.ResultOf(p.Windows(), w, st)]
      ensures pendingResults == old(pendingResults) + [S.ResultOf(p.Windows(), w, st)]
    {
      var result := S.ResultOf(p.Windows(), w, st);
      closedWindows := closedWindows[w := result];
      pendingResults := pendingResults + [result];
    }

    method CloseReached(phase0: bool, sweep: bool)
      modifies this`openWindows, this`closedWindows, this`pendingResults
      ensures Abs() == CloseWindows(p, old(Abs()), phase0, sweep)
    {
      if phase0 {
        return;
      }
      var limit := if sweep then wH else if wGlobalH.Fin? then wGlobalH else wH;
      CloseUpTo(limit);
    }

    method CloseUpTo(limit: Ext)
      modifies this`openWindows, this`closedWindows, this`pendingResults
      ensures Win() == S.Close(p.Windows(), old(Win()), S.Closing(p.Windows(), old(openWindows), limit))
    {
      hide S.Close;
      ghost var start := Win();
      var toClose := S.Closing(p.Windows(), openWindows, limit);
      var todo := toClose;
      CloseNone(p.Windows(), start);
      assert toClose <= start.open.Keys && toClose - todo == {};
      hide S.Closing;
      while todo != {}
        invariant todo <= toClose
        invariant forall x, y :: x in toClose - todo && y in todo ==> x < y
        invariant Win() == S.Close(p.Windows(), start, toClose - todo)
        decreases todo
      {
        var w := Sorting.Least(todo);
        CloseOne(start, toClose - todo, w);
        assert toClose - todo + {w} == toClose - (todo - {w});
        todo := todo - {w};
      }
      assert toClose - todo == toClose;
    }

    /** One turn of the loop, after the windows `done`. */
    method CloseOne(ghost start: S.State, ghost done: set<real>, w: real)
      requires done <= start.open.Keys && w in start.open && w !in done && forall x :: x in done ==> x < w
      requires Win() == S.Close(p.Windows(), start, done)
      modifies this`openWindows, this`closedWindows, this`pendingResults
      ensures Win() == S.Close(p.Windows(), start, done + {w})
    {
      CloseOneMore(p.Windows(), start, done, w);
      hide S.Close, S.ResultOf;
      var st := openWindows[w];
      openWindows := openWindows - {w};
      EmitClosed(w, st);
    }

    method UpdateGlobalWatermark(w: Ext, phase0: bool, sweep: bool)
      modifies this`wGlobalH, this`openWindows, this`closedWindows, this`pendingResults
      ensures Abs() == UpdateGlobal(p, old(Abs()), w, phase0, sweep)
    {
      wGlobalH := wGlobalH.Max(w);
      CloseReached(phase0, sweep);
    }

    method FlushWindows()
      modifies this`openWindows, this`closedWindows, this`pendingResults
      ensures Abs() == Flush(p, old(Abs()))
    {
      EmitAllOpen();
    }

    method EmitAllOpen()
      modifies this`openWindows, this`closedWindows, this`pendingResults
      ensures Win() == S.Close(p.Windows(), old(Win()), old(openWindows).Keys)
    {
      var todo := openWindows.Keys;
      ghost var start, done := Win(), {};
      CloseNone(p.Windows(), start);
      hide S.Close;
      while todo != {}
        invariant done + todo == start.open.Keys && done !! todo && openWindows == start.open
        invariant forall x, y :: x in done && y in todo ==> x < y
        invariant Win() == S.Close(p.Windows(), start, done).(open := start.open)
        modifies this`closedWindows, this`pendingResults
        decreases todo
      {
        var w := Sorting.Least(todo);
        CloseOneMore(p.Windows(), start, done, w);
        EmitClosed(w, openWindows[w]);
        done, todo := done + {w}, todo - {w};
      }
      assert done == start.open.Keys;
      CloseAllOpen(p.Windows(), start);
      openWindows := map[];
    }

    /** `drain_results`: the queued results, once. */
    method DrainResults() returns (results: seq<S.WindowResult>)
      modifies this`pendingResults
      ensures results == old(pendingResults) && pendingResults == []
    {
      results := pendingResults;
      pendingResults := [];
    }

    /** The pump of the worker takes all late events (run.py). */
    method DrainLate() returns (events: seq<LateEvent>)
      modifies this`lateEvents
      ensures events == old(lateEvents) && lateEvents == []
    {
      events := lateEvents;
      lateEvents := [];
    }

    method SendToDlq(e: S.Event, arrival: real)
      modifies this`lateDropped, this`lateEvents
      ensures Abs() == ToDlq(p, old(Abs()), e, arrival)
    {
      lateDropped := lateDropped + 1;
      lateEvents := lateEvents + [LateEvent(e.id, e.time, arrival, p.partition)];
    }

    method RouteEvent(e: S.Event, arrival: real)
      requires p.Valid()
      modifies this
      ensures Abs() == Route(p, old(Abs()), e, arrival)
    {
      var w := Window.Start(p.size, e.time);
      if arrival - e.time > p.maxLagAccepted {
        SendExtremeLag(e, arrival);
      } else if w in closedWindows {
        SendToDlq(e, arrival);
      } else if w in openWindows {
        openWindows := openWindows[w := S.CountEvent(openWindows[w], e)];
        onTime := onTime + 1;
      } else {
        openWindows := openWindows[w := S.WindowState(1, if e.status == 500 then 1 else 0)];
        onTime := onTime + 1;
      }
    }

    method Recover(a: Ambient)
      modifies this`lEff
      ensures Wm() == AfterRecovery(p, old(Wm()), a)
    {
      if a.recovered.Some? {
        lEff := Smaller(a.recovered.value, p.lMax);
      }
    }

    /** The watermark part of `process`. */
    method ObserveEvent(t: real, a: Ambient)
      modifies this`wH, this`wHPrev, this`maxEventTime, this`lEff, this`lEffPrev, this`lastWmUpdate
      modifies this`cachedSketchCount
      ensures Wm() == Observe(p, old(Wm()), t, a)
    {
      hide ComputeWatermark, UpdateEstimate;
      maxEventTime := maxEventTime.Max(Fin(t));
      UpdateLEff(a.sample, a.sweep);
      ComputeWatermarkNow(a.phase0, a.boo, a.sweep, a.now, a.later);
    }

    method HandleEvent(e: S.Event, arrival: real, a: Ambient)
      requires p.Valid()
      modifies this
      ensures Abs() == Handle(p, old(Abs()), e, arrival, a)
    {
      hide Observe, CloseWindows, Route, AfterRecovery;
      ghost var s := Abs();
      ObserveEvent(e.time, a);
      assert Abs() == s.(wm := Observe(p, s.wm, e.time, a));
      CloseReached(a.phase0, a.sweep);
      Recover(a);
      RouteEvent(e, arrival);
    }

    /** The id joins the filter, and ids older than a minute leave it. */
    method RememberId(id: string, arrival: real, now: real)
      modifies this`seenIds
      ensures Abs() == Remember(old(Abs()), id, arrival, now)
    {
      seenIds := seenIds[id := arrival];
      var cutoff := now - S.DEDUP_TTL;
      seenIds := map k | k in seenIds && !(seenIds[k] < cutoff) :: seenIds[k];
    }

    method ProcessEvent(e: S.Event, arrival: real, a: Ambient)
      requires p.Valid()
      modifies this
      ensures Abs() == Process(p, old(Abs()), e, arrival, a)
    {
      hide Handle, Remember, ToDlq, Params.Valid;
      totalReceived := totalReceived + 1;
      if e.id in seenIds {
        duplicates := duplicates + 1;
        return;
      }
      RememberId(e.id, arrival, a.purgeNow);
      if e.time - arrival > p.maxFutureSkew {
        SendExtremeLag(e, arrival);
        return;
      }
      HandleEvent(e, arrival, a);
    }

    method SendExtremeLag(e: S.Event, arrival: real)
      modifies this`extremeLagCount, this`lateDropped, this`lateEvents
      ensures var s := old(Abs()); Abs() == ToDlq(p, s.(extremeLag := s.extremeLag + 1), e, arrival)
    {
      hide ToDlq;
      extremeLagCount := extremeLagCount + 1;
      SendToDlq(e, arrival);
    }
  }
}
