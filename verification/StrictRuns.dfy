/** What every run of the strict engine keeps. */
module StrictRuns {
  import opened Extended
  import opened Sorting
  import opened StrictSpec
  import Window

  ghost function Starts(rs: seq<WindowResult>): (xs: seq<real>)
    ensures |xs| == |rs| && forall i :: 0 <= i < |rs| ==> xs[i] == rs[i].start
  {
    seq(|rs|, i requires 0 <= i < |rs| => rs[i].start)
  }

  ghost predicate Distinct(xs: seq<real>) {
    forall i, j :: 0 <= i < j < |xs| ==> xs[i] != xs[j]
  }

  // ------------------------------------------------------------------
  // Watermark and open windows
  // ------------------------------------------------------------------

  /** The local watermark trails the last accepted punctuation by delta; the watermark is not behind it; open
      windows end after it. */
  ghost predicate Led(p: Params, s: State)
    requires p.Valid()
  {
    && s.localWatermark == s.lastCommit.Minus(p.delta) && s.localWatermark.Le(s.watermark)
    && (forall w :: w in s.open ==> Window.Aligned(p.size, w) && s.localWatermark.Lt(Fin(w + p.size)))
  }

  /** The watermark is the local one. */
  ghost predicate Synchronised(p: Params, s: State)
    requires p.Valid()
  {
    Led(p, s) && s.watermark == s.localWatermark
  }

  lemma {:induction false} LocalFollowsCommit(p: Params, ops: seq<Op>)
    requires p.Valid()
    ensures Led(p, Run(p, ops))
  {
    if ops != [] {
      var n := |ops| - 1;
      LocalFollowsCommit(p, ops[..n]);
      hide Step, Led;
      StepLed(p, Run(p, ops[..n]), ops[n]);
    }
  }

  lemma NextAlignedStart(p: Params, e: Event)
    requires p.Valid()
    ensures Window.Aligned(p.size, StartOf(p, e))
  {
  }

  /** Advancing takes over the local watermark, and every window that is left ends after it. */
  lemma AdvanceLed(p: Params, s: State)
    requires p.Valid() && s.localWatermark == s.lastCommit.Minus(p.delta)
    requires forall w :: w in s.open ==> Window.Aligned(p.size, w)
    ensures Synchronised(p, Advance(p, s)) && Advance(p, s).localWatermark == s.localWatermark
  {
    hide Results, Sorted;
  }

  /** The operation ends with `_advance_watermark`. */
  ghost predicate Advances(p: Params, s: State, op: Op)
    requires p.Valid()
  {
    || (op.Arrive? && Classify(p, s, op.e, op.queueLen) == Accepted)
    || (op.Punctuation? && s.lastCommit.Lt(Fin(op.commit)))
  }

  lemma AdvancingStepLed(p: Params, s: State, op: Op)
    requires p.Valid() && Led(p, s) && Advances(p, s, op)
    ensures Synchronised(p, Step(p, s, op)) && s.localWatermark.Le(Step(p, s, op).localWatermark)
  {
    hide Advance, Window.Start, CountEvent, Expired;
    match op
    case Arrive(e, queueLen, due) =>
      var r := s.(metrics := s.metrics.(totalReceived := s.metrics.totalReceived + 1));
      NextAlignedStart(p, e);
      AdvanceLed(p, Accept(p, r, e));
    case Punctuation(commit) =>
      AdvanceLed(p, s.(metrics := s.metrics.(punctuationTotal := s.metrics.punctuationTotal + 1),
                       lastCommit := Fin(commit), localWatermark := Fin(commit - p.delta)));
  }

  /** No other operation touches the local watermark or opens a window; only hearing raises the watermark. */
  lemma OtherStep(p: Params, s: State, op: Op)
    requires p.Valid() && !Advances(p, s, op)
    ensures var t := Step(p, s, op);
            && t.lastCommit == s.lastCommit && t.localWatermark == s.localWatermark
            && t.watermark == (if op.Hear? then s.watermark.Max(op.g) else s.watermark)
            && t.open.Keys <= s.open.Keys
  {
    hide Results, Sorted, Expired;
  }

  lemma StepLed(p: Params, s: State, op: Op)
    requires p.Valid() && Led(p, s)
    ensures Led(p, Step(p, s, op)) && s.localWatermark.Le(Step(p, s, op).localWatermark)
  {
    hide Step, Advances;
    if Advances(p, s, op) {
      AdvancingStepLed(p, s, op);
    } else {
      OtherStep(p, s, op);
    }
  }

  /** When an operation moves the watermark back: exactly when it advances while the watermark was raised
      above the new local one by a global watermark heard before. */
  lemma WatermarkFallsIff(p: Params, s: State, op: Op)
    requires p.Valid() && Led(p, s)
    ensures !s.watermark.Le(Step(p, s, op).watermark) <==>
            Advances(p, s, op) && Step(p, s, op).localWatermark.Lt(s.watermark)
  {
    hide Step, Advances;
    if Advances(p, s, op) {
      AdvancingStepLed(p, s, op);
    } else {
      OtherStep(p, s, op);
    }
  }

  /** While the watermark is the local one no operation moves it back. */
  lemma StepWatermarkMonotone(p: Params, s: State, op: Op)
    requires p.Valid() && Synchronised(p, s)
    ensures s.watermark.Le(Step(p, s, op).watermark)
  {
    hide Step, Advances;
    WatermarkFallsIff(p, s, op);
    if Advances(p, s, op) {
      AdvancingStepLed(p, s, op);
    }
  }

  /** The engine hears no global watermark ahead of its local one. */
  ghost predicate Paced(p: Params, ops: seq<Op>) {
    forall i | 0 <= i < |ops| && ops[i].Hear? :: ops[i].g.Le(MaxCommit(ops[..i]).Minus(p.delta))
  }

  lemma PacedPrefix(p: Params, ops: seq<Op>, n: nat)
    requires Paced(p, ops) && n <= |ops|
    ensures Paced(p, ops[..n])
  {
    forall i | 0 <= i < n && ops[..n][i].Hear? ensures ops[..n][i].g.Le(MaxCommit(ops[..n][..i]).Minus(p.delta)) {
      assert ops[..n][..i] == ops[..i];
    }
  }

  lemma StepSynchronised(p: Params, s: State, op: Op)
    requires p.Valid() && Synchronised(p, s) && (op.Hear? ==> op.g.Le(s.watermark))
    ensures Synchronised(p, Step(p, s, op))
  {
    hide Step, Advances;
    StepLed(p, s, op);
    if Advances(p, s, op) {
      AdvancingStepLed(p, s, op);
    } else {
      OtherStep(p, s, op);
    }
  }

  lemma {:induction false} WatermarkFollowsCommit(p: Params, ops: seq<Op>)
    requires p.Valid() && Paced(p, ops)
    ensures Synchronised(p, Run(p, ops))
  {
    if ops != [] {
      var n := |ops| - 1;
      PacedPrefix(p, ops, n);
      WatermarkFollowsCommit(p, ops[..n]);
      LastCommitIsMax(p, ops[..n]);
      hide Step;
      StepSynchronised(p, Run(p, ops[..n]), ops[n]);
    }
  }

  /** The largest punctuation so far. */
  ghost function MaxCommit(ops: seq<Op>): Ext {
    if ops == [] then NegInf else
      var rest := MaxCommit(ops[..|ops| - 1]);
      var op := ops[|ops| - 1];
      if op.Punctuation? then rest.Max(Fin(op.commit)) else rest
  }

  lemma StepLastCommit(p: Params, s: State, op: Op)
    requires p.Valid()
    ensures Step(p, s, op).lastCommit == if op.Punctuation? then s.lastCommit.Max(Fin(op.commit)) else s.lastCommit
  {
    hide Expired, Results, Closing;
  }

  lemma {:induction false} LastCommitIsMax(p: Params, ops: seq<Op>)
    requires p.Valid()
    ensures Run(p, ops).lastCommit == MaxCommit(ops)
  {
    if ops != [] {
      var n := |ops| - 1;
      LastCommitIsMax(p, ops[..n]);
      hide Step;
      StepLastCommit(p, Run(p, ops[..n]), ops[n]);
    }
  }

  // ------------------------------------------------------------------
  // A shut window never takes events again
  // ------------------------------------------------------------------

  /** Window `w` is closed, or the local watermark has passed it. */
  ghost predicate Shut(p: Params, s: State, w: real) {
    Fin(w + p.size).Le(s.localWatermark) || w in s.closed
  }

  /** Events of shut windows are late; while the watermark is the local one, only those are. */
  lemma ShutIsLate(p: Params, s: State, t: real)
    requires p.Valid() && Led(p, s)
    ensures Shut(p, s, Window.Start(p.size, t)) ==> IsLate(p, s, t)
    ensures Synchronised(p, s) && IsLate(p, s, t) ==> Shut(p, s, Window.Start(p.size, t))
  {
    hide Window.Start;
  }

  lemma AdvanceWindows(p: Params, s: State)
    ensures var t := Advance(p, s);
            && t.watermark == t.localWatermark == s.localWatermark
            && (forall w :: w in t.open ==> w in s.open)
            && (forall w :: w in s.closed ==> w in t.closed)
            && (forall w :: w in s.open ==> w in t.open || w in t.closed)
            && (forall w :: w in t.closed ==> w in s.closed || Fin(w + p.size).Le(t.watermark))
  {
    hide Results, Sorted;
  }

  /** Where the windows of a step come from. */
  lemma StepWindows(p: Params, s: State, op: Op)
    requires p.Valid()
    ensures var t := Step(p, s, op);
            && (forall w :: w in s.closed ==> w in t.closed)
            && (forall w :: w in s.open ==> w in t.open || w in t.closed)
            && (forall w :: w in t.closed ==>
                  w in s.closed || Fin(w + p.size).Le(t.localWatermark) || (op.FlushAll? && w in s.open))
            && (forall w :: w in t.open ==>
                  w in s.open || (op.Arrive? && Classify(p, s, op.e, op.queueLen) == Accepted && w == StartOf(p, op.e)))
  {
    hide Results, Sorted, CountEvent, Expired, Advance, Window.Start;
    match op
    case Arrive(e, queueLen, due) =>
      var r := s.(metrics := s.metrics.(totalReceived := s.metrics.totalReceived + 1));
      AdvanceWindows(p, Accept(p, r, e));
    case Punctuation(commit) =>
      AdvanceWindows(p, s.(metrics := s.metrics.(punctuationTotal := s.metrics.punctuationTotal + 1),
                           lastCommit := Fin(commit), localWatermark := Fin(commit - p.delta)));
    case Checkpoint =>
    case FlushAll =>
    case Hear(_) =>
  }

  lemma ShutForGood(p: Params, s: State, op: Op, w: real)
    requires p.Valid() && Led(p, s) && Shut(p, s, w)
    ensures Shut(p, Step(p, s, op), w)
  {
    hide Step, Led;
    StepWindows(p, s, op);
    StepLed(p, s, op);
  }

  // ------------------------------------------------------------------
  // Emission: every closed window once, in order
  // ------------------------------------------------------------------

  /** Open and closed windows are disjoint; the emitted results are the closed windows, each once. */
  ghost predicate EmittedOnce(s: State) {
    && (forall w :: w in s.open ==> w !in s.closed)
    && Distinct(Starts(s.emitted))
    && (forall w :: w in Starts(s.emitted) <==> w in s.closed)
    && (forall i :: 0 <= i < |s.emitted| ==>
          s.emitted[i].start in s.closed && s.closed[s.emitted[i].start] == s.emitted[i])
  }

  lemma {:induction false} EmissionOnce(p: Params, ops: seq<Op>)
    requires p.Valid()
    ensures EmittedOnce(Run(p, ops))
  {
    if ops != [] {
      var n := |ops| - 1;
      EmissionOnce(p, ops[..n]);
      StepEmittedOnce(p, Run(p, ops[..n]), ops[n]);
    }
  }

  lemma CloseStarts(p: Params, s: State, ws: set<real>)
    requires ws <= s.open.Keys
    ensures Starts(Close(p, s, ws).emitted) == Starts(s.emitted) + Sorted(ws)
  {
    hide Sorted;
    StartsOfResults(p, s.open, Sorted(ws));
    StartsConcat(s.emitted, Results(p, s.open, Sorted(ws)));
  }

  lemma StartsOfResults(p: Params, open: map<real, WindowState>, ws: seq<real>)
    requires forall w :: w in ws ==> w in open
    ensures Starts(Results(p, open, ws)) == ws
  {
  }

  lemma StartsConcat(a: seq<WindowResult>, b: seq<WindowResult>)
    ensures Starts(a + b) == Starts(a) + Starts(b)
  {
  }

  lemma CloseEmittedOnce(p: Params, s: State, ws: set<real>)
    requires ws <= s.open.Keys && EmittedOnce(s)
    ensures EmittedOnce(Close(p, s, ws))
  {
    var c := Close(p, s, ws);
    CloseStarts(p, s, ws);
    var earlier, later := Starts(s.emitted), Sorted(ws);
    forall i, j | 0 <= i < j < |earlier + later| ensures (earlier + later)[i] != (earlier + later)[j] {
      assert i < |earlier| ==> earlier[i] in earlier;
      assert j >= |earlier| ==> later[j - |earlier|] in later;
    }
    forall i | 0 <= i < |c.emitted|
      ensures c.emitted[i].start in c.closed && c.closed[c.emitted[i].start] == c.emitted[i]
    {
      if i < |earlier| {
        assert earlier[i] in earlier;
      } else {
        assert later[i - |earlier|] in later;
      }
    }
  }

  lemma AdvanceEmittedOnce(p: Params, s: State)
    requires EmittedOnce(s)
    ensures EmittedOnce(Advance(p, s))
  {
    hide Close, Distinct, Starts;
    CloseEmittedOnce(p, s.(watermark := s.localWatermark), Closing(p, s.open, s.localWatermark));
  }

  lemma ArriveEmittedOnce(p: Params, s: State, e: Event, queueLen: int, due: bool)
    requires p.Valid() && EmittedOnce(s)
    ensures EmittedOnce(Process(p, s, e, queueLen, due))
  {
    hide Classify, CountEvent, Distinct, Starts, Advance, Expired, Window.Start;
    var r := s.(metrics := s.metrics.(totalReceived := s.metrics.totalReceived + 1));
    if Classify(p, r, e, queueLen) == Accepted {
      NotClosed(p, r, e, queueLen);
      AdvanceEmittedOnce(p, Accept(p, r, e));
    }
  }

  lemma NotClosed(p: Params, s: State, e: Event, queueLen: int)
    requires p.Valid() && Classify(p, s, e, queueLen) == Accepted
    ensures StartOf(p, e) !in s.closed
  {
  }

  lemma PunctuateEmittedOnce(p: Params, s: State, commit: real)
    requires EmittedOnce(s)
    ensures EmittedOnce(Punctuate(p, s, commit))
  {
    hide Distinct, Starts, Advance;
    if s.lastCommit.Lt(Fin(commit)) {
      AdvanceEmittedOnce(p, s.(metrics := s.metrics.(punctuationTotal := s.metrics.punctuationTotal + 1),
                               lastCommit := Fin(commit), localWatermark := Fin(commit - p.delta)));
    }
  }

  lemma StepEmittedOnce(p: Params, s: State, op: Op)
    requires p.Valid() && EmittedOnce(s)
    ensures EmittedOnce(Step(p, s, op))
  {
    hide Process, Punctuate, Close, Distinct, Starts, Expired;
    match op
    case Arrive(e, queueLen, due) => ArriveEmittedOnce(p, s, e, queueLen, due);
    case Punctuation(commit) => PunctuateEmittedOnce(p, s, commit);
    case Checkpoint =>
    case Hear(_) =>
    case FlushAll => CloseEmittedOnce(p, s, s.open.Keys);
  }

  /** Before any flush: closed windows have been passed by the local watermark and left in increasing order. */
  ghost predicate EmittedInOrder(p: Params, s: State)
    requires p.Valid()
  {
    && Increasing(Starts(s.emitted))
    && (forall w :: w in Starts(s.emitted) ==> Fin(w + p.size).Le(s.localWatermark))
  }

  lemma {:induction false} EmissionOrder(p: Params, ops: seq<Op>)
    requires p.Valid() && NoFlush(ops)
    ensures EmittedInOrder(p, Run(p, ops))
  {
    if ops != [] {
      var n := |ops| - 1;
      EmissionOrder(p, ops[..n]);
      LocalFollowsCommit(p, ops[..n]);
      hide Step, Led;
      StepEmittedInOrder(p, Run(p, ops[..n]), ops[n]);
    }
  }

  lemma CloseKeepsWatermark(p: Params, s: State, ws: set<real>)
    requires ws <= s.open.Keys
    ensures Close(p, s, ws).localWatermark == s.localWatermark
  {
  }

  lemma CloseInOrder(p: Params, s: State, before: Ext)
    requires p.Valid() && Increasing(Starts(s.emitted)) && before.Le(s.localWatermark)
    requires forall w :: w in Starts(s.emitted) ==> Fin(w + p.size).Le(before)
    requires forall w :: w in s.open ==> before.Lt(Fin(w + p.size))
    ensures EmittedInOrder(p, Close(p, s, Closing(p, s.open, s.localWatermark)))
  {
    hide Close, Increasing, Sorted;
    var ws := Closing(p, s.open, s.localWatermark);
    CloseKeepsWatermark(p, s, ws);
    CloseStarts(p, s, ws);
    IncreasingConcat(Starts(s.emitted), Sorted(ws));
  }

  lemma AdvanceInOrder(p: Params, s: State, before: Ext)
    requires p.Valid() && Increasing(Starts(s.emitted)) && before.Le(s.localWatermark)
    requires forall w :: w in Starts(s.emitted) ==> Fin(w + p.size).Le(before)
    requires forall w :: w in s.open ==> before.Lt(Fin(w + p.size))
    ensures EmittedInOrder(p, Advance(p, s))
  {
    hide Close, Increasing, Starts, Closing;
    CloseInOrder(p, s.(watermark := s.localWatermark), before);
  }

  lemma StepEmittedInOrder(p: Params, s: State, op: Op)
    requires p.Valid() && Led(p, s) && EmittedInOrder(p, s) && !op.FlushAll?
    ensures EmittedInOrder(p, Step(p, s, op))
  {
    hide Close, CountEvent, Increasing, Starts, Advance, Expired;
    match op
    case Arrive(e, queueLen, due) =>
      var r := s.(metrics := s.metrics.(totalReceived := s.metrics.totalReceived + 1));
      if Classify(p, r, e, queueLen) == Accepted {
        var a := Accept(p, r, e);
        AdvanceInOrder(p, a, s.localWatermark);
      }
    case Punctuation(commit) =>
      if s.lastCommit.Lt(Fin(commit)) {
        var r := s.(metrics := s.metrics.(punctuationTotal := s.metrics.punctuationTotal + 1),
                    lastCommit := Fin(commit), localWatermark := Fin(commit - p.delta));
        AdvanceInOrder(p, r, s.localWatermark);
      }
    case Checkpoint =>
    case Hear(_) =>
  }

  // ------------------------------------------------------------------
  // Conservation
  // ------------------------------------------------------------------

  ghost function CountArrivals(ops: seq<Op>): nat {
    if ops == [] then 0 else CountArrivals(ops[..|ops| - 1]) + if ops[|ops| - 1].Arrive? then 1 else 0
  }

  ghost function CountPunctuations(ops: seq<Op>): nat {
    if ops == [] then 0 else CountPunctuations(ops[..|ops| - 1]) + if ops[|ops| - 1].Punctuation? then 1 else 0
  }

  lemma StepMetrics(p: Params, s: State, op: Op)
    requires p.Valid()
    ensures var m, m' := s.metrics, Step(p, s, op).metrics;
            match op
            case Arrive(e, queueLen, due) =>
              (match Classify(p, s, e, queueLen)
               case Accepted => m' == m.(totalReceived := m.totalReceived + 1, onTime := m.onTime + 1)
               case Late => m' == m.(totalReceived := m.totalReceived + 1, lateDropped := m.lateDropped + 1)
               case Duplicate => m' == m.(totalReceived := m.totalReceived + 1, duplicates := m.duplicates + 1)
               case QueueFull =>
                 m' == m.(totalReceived := m.totalReceived + 1, backpressureDrops := m.backpressureDrops + 1))
            case Punctuation(commit) =>
              m' == m.(punctuationTotal := m.punctuationTotal + 1,
                       nonMonotonicPunctuation :=
                         m.nonMonotonicPunctuation + if s.lastCommit.Lt(Fin(commit)) then 0 else 1)
            case _ => m' == m
  {
    hide Results, Closing, Expired, Window.Start;
  }

  /** Every received event is counted once: on time, late, duplicate or dropped by the queue guard. */
  lemma {:induction false} Accounting(p: Params, ops: seq<Op>)
    requires p.Valid()
    ensures var m := Run(p, ops).metrics;
            && m.totalReceived == CountArrivals(ops)
            && m.totalReceived == m.onTime + m.lateDropped + m.duplicates + m.backpressureDrops
            && m.onTime == CountOutcomes(p, ops, Accepted) == |AcceptedEvents(p, ops)|
            && m.lateDropped == CountOutcomes(p, ops, Late)
            && m.duplicates == CountOutcomes(p, ops, Duplicate)
            && m.backpressureDrops == CountOutcomes(p, ops, QueueFull)
            && m.punctuationTotal == CountPunctuations(ops)
  {
    if ops != [] {
      var n := |ops| - 1;
      hide Step, Classify;
      Accounting(p, ops[..n]);
      StepMetrics(p, Run(p, ops[..n]), ops[n]);
    }
  }

  /** The counters of every window, open or closed, are those of its accepted events; a window that is
      neither has none. */
  ghost predicate Exact(p: Params, s: State, es: seq<Event>)
    requires p.Valid()
  {
    forall w {:trigger Tally(p, es, w)} ::
      && (w in s.open ==> s.open[w] == Tally(p, es, w))
      && (w in s.closed ==> s.closed[w] == ResultOf(p, w, Tally(p, es, w)))
      && (w !in s.open && w !in s.closed ==> Tally(p, es, w) == WindowState(0, 0))
  }

  lemma {:induction false} WindowsExact(p: Params, ops: seq<Op>)
    requires p.Valid()
    ensures Exact(p, Run(p, ops), AcceptedEvents(p, ops))
  {
    if ops != [] {
      var n := |ops| - 1;
      WindowsExact(p, ops[..n]);
      EmissionOnce(p, ops[..n]);
      StepExact(p, Run(p, ops[..n]), AcceptedEvents(p, ops[..n]), ops[n]);
    }
  }

  lemma CloseExact(p: Params, s: State, es: seq<Event>, ws: set<real>)
    requires p.Valid() && ws <= s.open.Keys && Exact(p, s, es)
    requires forall w :: w in s.open ==> w !in s.closed
    ensures Exact(p, Close(p, s, ws), es)
  {
    var c := Close(p, s, ws);
    forall w {:trigger Tally(p, es, w)}
      ensures w in c.open ==> c.open[w] == Tally(p, es, w)
      ensures w in c.closed ==> c.closed[w] == ResultOf(p, w, Tally(p, es, w))
      ensures w !in c.open && w !in c.closed ==> Tally(p, es, w) == WindowState(0, 0)
    {
      assert w in s.open ==> s.open[w] == Tally(p, es, w);
    }
  }

  lemma AcceptExact(p: Params, s: State, es: seq<Event>, e: Event)
    requires p.Valid() && Exact(p, s, es) && StartOf(p, e) !in s.closed
    ensures Exact(p, Accept(p, s, e), es + [e])
  {
    var a := Accept(p, s, e);
    assert (es + [e])[..|es|] == es;
    forall w {:trigger Tally(p, es + [e], w)}
      ensures w in a.open ==> a.open[w] == Tally(p, es + [e], w)
      ensures w in a.closed ==> a.closed[w] == ResultOf(p, w, Tally(p, es + [e], w))
      ensures w !in a.open && w !in a.closed ==> Tally(p, es + [e], w) == WindowState(0, 0)
    {
      assert w in s.open ==> s.open[w] == Tally(p, es, w);
    }
  }

  lemma AdvanceExact(p: Params, s: State, es: seq<Event>)
    requires p.Valid() && Exact(p, s, es) && forall w :: w in s.open ==> w !in s.closed
    ensures Exact(p, Advance(p, s), es)
  {
    hide Close, Tally;
    CloseExact(p, s.(watermark := s.localWatermark), es, Closing(p, s.open, s.localWatermark));
  }

  lemma StepExact(p: Params, s: State, es: seq<Event>, op: Op)
    requires p.Valid() && Exact(p, s, es) && forall w :: w in s.open ==> w !in s.closed
    ensures Exact(p, Step(p, s, op),
                  if op.Arrive? && Classify(p, s, op.e, op.queueLen) == Accepted then es + [op.e] else es)
  {
    hide Close, CountEvent, Tally, Advance, Expired, Window.Start;
    match op
    case Arrive(e, queueLen, due) =>
      var r := s.(metrics := s.metrics.(totalReceived := s.metrics.totalReceived + 1));
      if Classify(p, r, e, queueLen) == Accepted {
        var a := Accept(p, r, e);
        AcceptExact(p, r, es, e);
        AdvanceExact(p, a, es + [e]);
      }
    case Punctuation(commit) =>
      if s.lastCommit.Lt(Fin(commit)) {
        var r := s.(metrics := s.metrics.(punctuationTotal := s.metrics.punctuationTotal + 1),
                    lastCommit := Fin(commit), localWatermark := Fin(commit - p.delta));
        AdvanceExact(p, r, es);
      }
    case Checkpoint =>
    case Hear(_) =>
    case FlushAll => CloseExact(p, s, es, s.open.Keys);
  }

  // ------------------------------------------------------------------
  // Nothing is lost while the punctuation keeps its promise
  // ------------------------------------------------------------------

  /** Every event arrives no more than delta behind the largest punctuation before it. */
  ghost predicate PunctuationHonest(p: Params, ops: seq<Op>) {
    forall i | 0 <= i < |ops| && ops[i].Arrive? :: MaxCommit(ops[..i]).Minus(p.delta).Le(Fin(ops[i].e.time))
  }

  lemma HonestPrefix(p: Params, ops: seq<Op>, n: nat)
    requires PunctuationHonest(p, ops) && n <= |ops|
    ensures PunctuationHonest(p, ops[..n])
  {
    forall i | 0 <= i < n && ops[..n][i].Arrive?
      ensures MaxCommit(ops[..n][..i]).Minus(p.delta).Le(Fin(ops[..n][i].e.time))
    {
      assert ops[..n][..i] == ops[..i];
    }
  }

  lemma {:induction false} ZeroLoss(p: Params, ops: seq<Op>)
    requires p.Valid() && NoFlush(ops) && Paced(p, ops) && PunctuationHonest(p, ops)
    ensures Run(p, ops).metrics.lateDropped == 0
  {
    if ops != [] {
      var n := |ops| - 1;
      HonestPrefix(p, ops, n);
      PacedPrefix(p, ops, n);
      ZeroLoss(p, ops[..n]);
      if ops[n].Arrive? {
        NotLate(p, ops[..n], ops[n].e);
      }
      hide Step, IsLate, Paced, PunctuationHonest;
      StepMetrics(p, Run(p, ops[..n]), ops[n]);
    }
  }

  /** Before any flush an event is late exactly when its window ends at or before the watermark, which is the
      largest punctuation minus delta as long as no global watermark ahead of that was heard. */
  lemma LateIffPassed(p: Params, ops: seq<Op>, t: real)
    requires p.Valid() && NoFlush(ops)
    ensures IsLate(p, Run(p, ops), t) <==> Fin(Window.Start(p.size, t) + p.size).Le(Run(p, ops).watermark)
    ensures Paced(p, ops) ==> Run(p, ops).watermark == MaxCommit(ops).Minus(p.delta)
  {
    hide Run;
    LocalFollowsCommit(p, ops);
    LastCommitIsMax(p, ops);
    EmissionOnce(p, ops);
    EmissionOrder(p, ops);
    if Paced(p, ops) {
      WatermarkFollowsCommit(p, ops);
    }
  }

  lemma NotLate(p: Params, ops: seq<Op>, e: Event)
    requires p.Valid() && NoFlush(ops) && Paced(p, ops) && MaxCommit(ops).Minus(p.delta).Le(Fin(e.time))
    ensures !IsLate(p, Run(p, ops), e.time)
  {
    LateIffPassed(p, ops, e.time);
  }
}
