/** The same trace under two values of delta: a larger delta never loses more. */
module StrictDelta {
  import opened Extended
  import opened Sets
  import opened StrictRuns
  import opened StrictSpec
  import opened StrictTwoRuns
  import Window

  /** Window `w` is open or shut: some event of it was accepted, or none will be. */
  ghost predicate Known(p: Params, s: State, w: real) {
    w in s.open || Shut(p, s, w)
  }

  lemma KnownForGood(p: Params, s: State, op: Op, w: real)
    requires p.Valid() && Led(p, s) && Known(p, s, w)
    ensures Known(p, Step(p, s, op), w)
  {
    hide Step, Led;
    StepWindows(p, s, op);
    if Shut(p, s, w) {
      ShutForGood(p, s, op, w);
    }
  }

  lemma KnownAfterAccept(p: Params, s: State, op: Op)
    requires p.Valid() && op.Arrive? && Classify(p, s, op.e, op.queueLen) == Accepted
    ensures Known(p, Step(p, s, op), StartOf(p, op.e))
  {
    hide Results, CountEvent, Expired;
  }

  /** `s` under the smaller delta has shut every window that `t` has closed, and knows every window open in `t`. */
  ghost predicate WindowsAhead(p: Params, s: State, t: State) {
    && (forall w :: w in t.closed ==> Shut(p, s, w))
    && (forall w :: w in t.open ==> Known(p, s, w))
  }

  /** Besides, every id `s` remembers belongs to a window it knows. */
  ghost predicate Ahead(p: Params, timeOf: string -> real, s: State, t: State)
    requires p.Valid()
  {
    && WindowsAhead(p, s, t)
    && (forall id :: id in s.seen ==> s.seen[id] == timeOf(id) && Known(p, s, Window.Start(p.size, timeOf(id))))
  }

  lemma SeenIsNew(p: Params, s: State, op: Op)
    requires p.Valid()
    ensures forall id :: id in Step(p, s, op).seen ==>
              || (id in s.seen && Step(p, s, op).seen[id] == s.seen[id])
              || (op.Arrive? && Classify(p, s, op.e, op.queueLen) == Accepted && id == op.e.id
                  && Step(p, s, op).seen[id] == op.e.time)
  {
    if op.Checkpoint? {
    } else if MayPurge(op) {
      PurgeLast(p, s, op);
      StepSeenExactly(p, s, op.(checkpointDue := false));
      hide Step, Classify;
    } else {
      StepSeenExactly(p, s, op);
      hide Step, Classify;
    }
  }

  lemma SeenAhead(p: Params, timeOf: string -> real, s: State, t: State, op: Op)
    requires p.Valid() && Synchronised(p, s) && Ahead(p, timeOf, s, t)
    requires op.Arrive? ==> op.e.time == timeOf(op.e.id)
    ensures var s' := Step(p, s, op);
            forall id :: id in s'.seen ==> s'.seen[id] == timeOf(id) && Known(p, s', Window.Start(p.size, timeOf(id)))
  {
    SeenIsNew(p, s, op);
    hide Step, Synchronised, Classify, Window.Start, Known;
    var s' := Step(p, s, op);
    forall id | id in s'.seen ensures s'.seen[id] == timeOf(id) && Known(p, s', Window.Start(p.size, timeOf(id))) {
      if id in s.seen && s'.seen[id] == s.seen[id] {
        KnownForGood(p, s, op, Window.Start(p.size, timeOf(id)));
      } else {
        KnownAfterAccept(p, s, op);
      }
    }
  }

  lemma FlushOpensNothing(p: Params, s: State)
    requires p.Valid()
    ensures Step(p, s, FlushAll).open == map[]
  {
  }

  lemma ClosedAhead(p: Params, q: Params, s: State, t: State, op: Op)
    requires p.Valid() && q == p.(delta := q.delta) && Led(p, s) && WindowsAhead(p, s, t)
    requires Step(q, t, op).localWatermark.Le(Step(p, s, op).localWatermark)
    ensures forall w :: w in Step(q, t, op).closed ==> Shut(p, Step(p, s, op), w)
  {
    hide Step, Led, Classify, Window.Start;
    StepWindows(q, t, op);
    var s', t' := Step(p, s, op), Step(q, t, op);
    if op.FlushAll? {
      FlushOpensNothing(p, s);
    }
    forall w | w in t'.closed ensures Shut(p, s', w) {
      if w in t.closed {
        ShutForGood(p, s, op, w);
      } else if op.FlushAll? && w in t.open {
        KnownForGood(p, s, op, w);
      }
    }
  }

  /** An event that the larger delta accepts belongs to a window the smaller one knows or comes to know. */
  lemma AcceptedAhead(p: Params, q: Params, timeOf: string -> real, s: State, t: State, op: Op)
    requires p.Valid() && q == p.(delta := q.delta) && Synchronised(p, s) && Ahead(p, timeOf, s, t)
    requires op.Arrive? && op.e.time == timeOf(op.e.id) && Classify(q, t, op.e, op.queueLen) == Accepted
    ensures Known(p, s, StartOf(p, op.e)) || Classify(p, s, op.e, op.queueLen) == Accepted
  {
    ShutIsLate(p, s, op.e.time);
    hide Led, Shut;
  }

  lemma OpenAhead(p: Params, q: Params, s: State, t: State, op: Op)
    requires p.Valid() && q == p.(delta := q.delta) && Led(p, s) && WindowsAhead(p, s, t)
    requires op.Arrive? && Classify(q, t, op.e, op.queueLen) == Accepted ==>
               Known(p, s, StartOf(p, op.e)) || Classify(p, s, op.e, op.queueLen) == Accepted
    ensures forall w :: w in Step(q, t, op).open ==> Known(p, Step(p, s, op), w)
  {
    StepWindows(q, t, op);
    hide Step, Led, Classify, Window.Start, Known;
    forall w | w in Step(q, t, op).open ensures Known(p, Step(p, s, op), w) {
      if w in t.open || Known(p, s, w) {
        KnownForGood(p, s, op, w);
      } else {
        KnownAfterAccept(p, s, op);
      }
    }
  }

  lemma {:induction false} RunsAhead(p: Params, q: Params, timeOf: string -> real, ops: seq<Op>)
    requires p.Valid() && q == p.(delta := q.delta) && p.delta <= q.delta && TimesFixed(timeOf, ops)
    requires Paced(p, ops)
    ensures Ahead(p, timeOf, Run(p, ops), Run(q, ops))
  {
    LocalsOrdered(p, q, ops);
    if ops != [] {
      var n := |ops| - 1;
      TimesFixedPrefix(timeOf, ops, n);
      PacedPrefix(p, ops, n);
      RunsAhead(p, q, timeOf, ops[..n]);
      WatermarkFollowsCommit(p, ops[..n]);
      hide Step, Synchronised;
      SeenAhead(p, timeOf, Run(p, ops[..n]), Run(q, ops[..n]), ops[n]);
      ClosedAhead(p, q, Run(p, ops[..n]), Run(q, ops[..n]), ops[n]);
      if ops[n].Arrive? && Classify(q, Run(q, ops[..n]), ops[n].e, ops[n].queueLen) == Accepted {
        AcceptedAhead(p, q, timeOf, Run(p, ops[..n]), Run(q, ops[..n]), ops[n]);
      }
      OpenAhead(p, q, Run(p, ops[..n]), Run(q, ops[..n]), ops[n]);
    }
  }

  lemma LocalsOrdered(p: Params, q: Params, ops: seq<Op>)
    requires p.Valid() && q == p.(delta := q.delta) && p.delta <= q.delta
    ensures Run(q, ops).localWatermark.Le(Run(p, ops).localWatermark)
  {
    LocalFollowsCommit(p, ops);
    LocalFollowsCommit(q, ops);
    LastCommitIsMax(p, ops);
    LastCommitIsMax(q, ops);
  }

  /** What is behind the local watermark under the larger delta is behind it under the smaller one. */
  lemma PacedShrinks(p: Params, q: Params, ops: seq<Op>)
    requires p.delta <= q.delta && Paced(q, ops)
    ensures Paced(p, ops)
  {
    hide MaxCommit;
  }

  /** Whatever is late with the larger delta is late with the smaller one. */
  lemma LateShrinks(p: Params, q: Params, timeOf: string -> real, ops: seq<Op>, t: real)
    requires p.Valid() && q == p.(delta := q.delta) && p.delta <= q.delta
    requires Paced(q, ops) && (NoFlush(ops) || TimesFixed(timeOf, ops))
    requires IsLate(q, Run(q, ops), t)
    ensures IsLate(p, Run(p, ops), t)
  {
    hide Run;
    PacedShrinks(p, q, ops);
    LocalsOrdered(p, q, ops);
    WatermarkFollowsCommit(p, ops);
    WatermarkFollowsCommit(q, ops);
    if NoFlush(ops) {
      LateIffPassed(p, ops, t);
      LateIffPassed(q, ops, t);
    } else {
      RunsAhead(p, q, timeOf, ops);
    }
  }

  /** Ids accepted with delta are accepted with every larger delta, and late drops never grow: over every
      trace without a flush, and with flushes when an id always comes with the same event time, as long as no
      engine hears a global watermark ahead of its local one. */
  lemma {:induction false} CompletenessMonotone(p: Params, q: Params, timeOf: string -> real, ops: seq<Op>)
    requires p.Valid() && q == p.(delta := q.delta) && p.delta <= q.delta
    requires Paced(q, ops) && (NoFlush(ops) || TimesFixed(timeOf, ops))
    ensures AcceptedIds(p, ops) <= AcceptedIds(q, ops)
    ensures CountOutcomes(q, ops, Late) <= CountOutcomes(p, ops, Late)
  {
    if ops != [] {
      var n := |ops| - 1;
      TracePrefix(timeOf, ops, n);
      PacedPrefix(q, ops, n);
      CompletenessMonotone(p, q, timeOf, ops[..n]);
      if ops[n].Arrive? {
        var e := ops[n].e;
        SeenWereAccepted(q, ops[..n]);
        if IsLate(q, Run(q, ops[..n]), e.time) {
          LateShrinks(p, q, timeOf, ops[..n], e.time);
        }
      }
    }
  }

  lemma TracePrefix(timeOf: string -> real, ops: seq<Op>, n: nat)
    requires n <= |ops| && (NoFlush(ops) || TimesFixed(timeOf, ops))
    ensures NoFlush(ops[..n]) || TimesFixed(timeOf, ops[..n])
  {
  }

  // ------------------------------------------------------------------
  // Whatever is heard: engines that never forget an id
  // ------------------------------------------------------------------

  /** `s` is not behind `t`; while a global watermark holds `s` above its local one, it holds `t` as well. */
  ghost predicate WatermarksAhead(s: State, t: State) {
    && s.lastCommit == t.lastCommit && t.localWatermark.Le(s.localWatermark) && t.watermark.Le(s.watermark)
    && (s.watermark == s.localWatermark || t.watermark == s.watermark)
  }

  /** What is open or was flushed in `s` is so in `t`. */
  ghost predicate WindowsBehind(p: Params, s: State, t: State) {
    && s.open.Keys <= t.open.Keys
    && (forall w :: w in s.closed ==> Fin(w + p.size).Le(s.localWatermark) || w in t.closed)
  }

  /** `t` remembers more, and what only `t` remembers belongs to windows shut in `s`. */
  ghost predicate IdsAhead(p: Params, timeOf: string -> real, s: State, t: State)
    requires p.Valid()
  {
    && s.seen.Keys <= t.seen.Keys
    && forall id :: id in t.seen && id !in s.seen ==> Shut(p, s, Window.Start(p.size, timeOf(id)))
  }

  ghost predicate Tighter(p: Params, q: Params, timeOf: string -> real, s: State, t: State)
    requires p.Valid() && q == p.(delta := q.delta)
  {
    && Led(p, s) && Led(q, t)
    && WatermarksAhead(s, t) && WindowsAhead(p, s, t) && WindowsBehind(p, s, t) && IdsAhead(p, timeOf, s, t)
  }

  ghost predicate Accepts(p: Params, s: State, op: Op)
    requires p.Valid()
  {
    op.Arrive? && Classify(p, s, op.e, op.queueLen) == Accepted
  }

  lemma LateFollows(p: Params, q: Params, timeOf: string -> real, s: State, t: State, e: Event)
    requires p.Valid() && q == p.(delta := q.delta) && Tighter(p, q, timeOf, s, t)
    ensures IsLate(q, t, e.time) ==> IsLate(p, s, e.time)
    ensures IsLate(p, s, e.time) && !IsLate(q, t, e.time) ==>
              s.watermark == s.localWatermark && Shut(p, s, StartOf(p, e))
  {
    hide Window.Start, IdsAhead;
    if s.watermark != s.localWatermark && StartOf(p, e) in s.closed {
      assert Fin(StartOf(p, e) + p.size).Le(s.localWatermark) || StartOf(p, e) in t.closed;
    }
  }

  /** What `s` accepts `t` accepts; what only `t` accepts is shut in `s`, and then `s` is under its local
      watermark. */
  lemma AcceptedFollows(p: Params, q: Params, timeOf: string -> real, s: State, t: State, op: Op)
    requires p.Valid() && q == p.(delta := q.delta) && Tighter(p, q, timeOf, s, t)
    requires op.Arrive? && op.e.time == timeOf(op.e.id)
    ensures Accepts(p, s, op) ==> Accepts(q, t, op)
    ensures Accepts(q, t, op) && !Accepts(p, s, op) ==>
              s.watermark == s.localWatermark && Shut(p, s, StartOf(p, op.e))
  {
    LateFollows(p, q, timeOf, s, t, op.e);
    ShutIsLate(p, s, op.e.time);
    hide IsLate, Shut, Led, WindowsAhead, WindowsBehind, WatermarksAhead, Window.Start;
  }

  lemma WatermarksStep(p: Params, q: Params, timeOf: string -> real, s: State, t: State, op: Op)
    requires p.Valid() && q == p.(delta := q.delta) && p.delta <= q.delta && Tighter(p, q, timeOf, s, t)
    requires op.Arrive? ==> op.e.time == timeOf(op.e.id)
    ensures Led(p, Step(p, s, op)) && Led(q, Step(q, t, op)) && WatermarksAhead(Step(p, s, op), Step(q, t, op))
  {
    hide Step, IdsAhead, WindowsAhead, WindowsBehind, Classify, Window.Start;
    StepLed(p, s, op);
    StepLed(q, t, op);
    StepLastCommit(p, s, op);
    StepLastCommit(q, t, op);
    if op.Arrive? {
      AcceptedFollows(p, q, timeOf, s, t, op);
    }
    if Advances(p, s, op) {
      AdvancingStepLed(p, s, op);
      AdvancingStepLed(q, t, op);
    } else {
      OtherStep(p, s, op);
      if Advances(q, t, op) {
        AdvancingStepLed(q, t, op);
      } else {
        OtherStep(q, t, op);
      }
    }
  }

  /** A window that the local watermark has not passed stays open. */
  lemma StaysOpen(p: Params, s: State, op: Op, w: real)
    requires p.Valid() && !op.FlushAll? && Step(p, s, op).localWatermark.Lt(Fin(w + p.size))
    requires w in s.open || (Accepts(p, s, op) && w == StartOf(p, op.e))
    ensures w in Step(p, s, op).open
  {
    hide Advance, Expired, Window.Start, CountEvent;
    match op
    case Arrive(e, queueLen, due) =>
      var r := s.(metrics := s.metrics.(totalReceived := s.metrics.totalReceived + 1));
      AdvanceKeepsOpen(p, Accept(p, r, e), w);
    case Punctuation(commit) =>
      AdvanceKeepsOpen(p, s.(metrics := s.metrics.(punctuationTotal := s.metrics.punctuationTotal + 1),
                             lastCommit := Fin(commit), localWatermark := Fin(commit - p.delta)), w);
    case Checkpoint =>
    case Hear(_) =>
  }

  lemma AdvanceKeepsOpen(p: Params, s: State, w: real)
    requires w in s.open
    ensures Advance(p, s).localWatermark == s.localWatermark
    ensures s.localWatermark.Lt(Fin(w + p.size)) ==> w in Advance(p, s).open
  {
    hide Close, Closing;
    NotClosing(p, s.open, s.localWatermark, w);
    CloseKeepsOpen(p, s.(watermark := s.localWatermark), Closing(p, s.open, s.localWatermark));
  }

  lemma NotClosing(p: Params, open: map<real, WindowState>, wm: Ext, w: real)
    ensures Closing(p, open, wm) <= open.Keys
    ensures wm.Lt(Fin(w + p.size)) ==> w !in Closing(p, open, wm)
  {
  }

  lemma CloseKeepsOpen(p: Params, s: State, ws: set<real>)
    requires ws <= s.open.Keys
    ensures Close(p, s, ws).localWatermark == s.localWatermark && Close(p, s, ws).open == s.open - ws
  {
  }

  lemma WindowsStep(p: Params, q: Params, timeOf: string -> real, s: State, t: State, op: Op)
    requires p.Valid() && q == p.(delta := q.delta) && p.delta <= q.delta && Tighter(p, q, timeOf, s, t)
    requires op.Arrive? ==> op.e.time == timeOf(op.e.id)
    requires Step(q, t, op).localWatermark.Le(Step(p, s, op).localWatermark)
    ensures WindowsAhead(p, Step(p, s, op), Step(q, t, op))
  {
    hide Step, Led, Classify, Window.Start, IdsAhead, WindowsAhead, WindowsBehind, WatermarksAhead, Shut;
    if op.Arrive? {
      AcceptedFollows(p, q, timeOf, s, t, op);
    }
    ClosedAhead(p, q, s, t, op);
    OpenAhead(p, q, s, t, op);
    BothAhead(p, Step(p, s, op), Step(q, t, op));
  }

  lemma BothAhead(p: Params, s: State, t: State)
    requires forall w :: w in t.closed ==> Shut(p, s, w)
    requires forall w :: w in t.open ==> Known(p, s, w)
    ensures WindowsAhead(p, s, t)
  {
  }

  lemma OpenFollows(p: Params, q: Params, timeOf: string -> real, s: State, t: State, op: Op)
    requires p.Valid() && q == p.(delta := q.delta) && p.delta <= q.delta && Tighter(p, q, timeOf, s, t)
    requires op.Arrive? ==> op.e.time == timeOf(op.e.id)
    requires Led(p, Step(p, s, op)) && Step(q, t, op).localWatermark.Le(Step(p, s, op).localWatermark)
    ensures Step(p, s, op).open.Keys <= Step(q, t, op).open.Keys
  {
    hide Step, Classify, Window.Start, IdsAhead, WindowsAhead, WatermarksAhead, Shut;
    if op.Arrive? {
      AcceptedFollows(p, q, timeOf, s, t, op);
    }
    if op.FlushAll? {
      FlushOpensNothing(p, s);
    } else {
      StepWindows(p, s, op);
      forall w | w in Step(p, s, op).open ensures w in Step(q, t, op).open {
        StaysOpen(q, t, op, w);
      }
    }
  }

  lemma ClosedFollows(p: Params, q: Params, timeOf: string -> real, s: State, t: State, op: Op)
    requires p.Valid() && q == p.(delta := q.delta) && p.delta <= q.delta && Tighter(p, q, timeOf, s, t)
    ensures forall w :: w in Step(p, s, op).closed ==>
              Fin(w + p.size).Le(Step(p, s, op).localWatermark) || w in Step(q, t, op).closed
  {
    hide Step, Led, Classify, Window.Start, IdsAhead, WindowsAhead, WatermarksAhead;
    StepLed(p, s, op);
    StepWindows(p, s, op);
    StepWindows(q, t, op);
    if op.FlushAll? {
      FlushOpensNothing(q, t);
    }
    var s', t' := Step(p, s, op), Step(q, t, op);
    forall w | w in s'.closed ensures Fin(w + p.size).Le(s'.localWatermark) || w in t'.closed {
      if w in s.closed {
        assert Fin(w + p.size).Le(s.localWatermark) || w in t.closed;
      }
    }
  }

  lemma IdsStep(p: Params, q: Params, timeOf: string -> real, s: State, t: State, op: Op)
    requires p.Valid() && q == p.(delta := q.delta) && Tighter(p, q, timeOf, s, t) && !MayPurge(op)
    requires op.Arrive? ==> op.e.time == timeOf(op.e.id)
    ensures IdsAhead(p, timeOf, Step(p, s, op), Step(q, t, op))
  {
    hide Step, Led, Classify, Window.Start, WindowsAhead, WindowsBehind, WatermarksAhead, Shut;
    if op.Arrive? {
      AcceptedFollows(p, q, timeOf, s, t, op);
    }
    StepSeenExactly(p, s, op);
    StepSeenExactly(q, t, op);
    var s', t' := Step(p, s, op), Step(q, t, op);
    forall id | id in t'.seen && id !in s'.seen ensures Shut(p, s', Window.Start(p.size, timeOf(id))) {
      ShutForGood(p, s, op, Window.Start(p.size, timeOf(id)));
    }
  }

  lemma TighterStep(p: Params, q: Params, timeOf: string -> real, s: State, t: State, op: Op)
    requires p.Valid() && q == p.(delta := q.delta) && p.delta <= q.delta && Tighter(p, q, timeOf, s, t)
    requires !MayPurge(op) && (op.Arrive? ==> op.e.time == timeOf(op.e.id))
    ensures Tighter(p, q, timeOf, Step(p, s, op), Step(q, t, op))
  {
    hide Step, Led, IdsAhead, WindowsAhead;
    WatermarksStep(p, q, timeOf, s, t, op);
    WindowsStep(p, q, timeOf, s, t, op);
    OpenFollows(p, q, timeOf, s, t, op);
    ClosedFollows(p, q, timeOf, s, t, op);
    IdsStep(p, q, timeOf, s, t, op);
  }

  /** The step of an engine that never forgets is a step that does not purge, or none. */
  function Quiet(op: Op): Op {
    match op
    case Arrive(e, queueLen, _) => Arrive(e, queueLen, false)
    case _ => op
  }

  lemma KeepingIsQuiet(p: Params, s: State, op: Op)
    requires p.Valid()
    ensures StepKeeping(p, s, op) == if op.Checkpoint? then s else Step(p, s, Quiet(op))
    ensures !op.Checkpoint? ==> !MayPurge(Quiet(op))
  {
    hide Process, Punctuate, Flush;
  }

  lemma TighterStart(p: Params, q: Params, timeOf: string -> real)
    requires p.Valid() && q == p.(delta := q.delta)
    ensures Tighter(p, q, timeOf, INIT, INIT)
  {
  }

  lemma {:induction false} RunsTighter(p: Params, q: Params, timeOf: string -> real, ops: seq<Op>)
    requires p.Valid() && q == p.(delta := q.delta) && p.delta <= q.delta && TimesFixed(timeOf, ops)
    ensures Tighter(p, q, timeOf, RunKeeping(p, ops), RunKeeping(q, ops))
  {
    if ops == [] {
      TighterStart(p, q, timeOf);
    } else {
      var n := |ops| - 1;
      TimesFixedPrefix(timeOf, ops, n);
      RunsTighter(p, q, timeOf, ops[..n]);
      hide Step, StepKeeping, Tighter;
      var s, t := RunKeeping(p, ops[..n]), RunKeeping(q, ops[..n]);
      KeepingIsQuiet(p, s, ops[n]);
      KeepingIsQuiet(q, t, ops[n]);
      if !ops[n].Checkpoint? {
        TighterStep(p, q, timeOf, s, t, Quiet(ops[n]));
      }
    }
  }

  /** The same with whatever global watermarks are heard, and flushes, for engines whose id filter is exact. */
  lemma {:induction false} HeardMonotone(p: Params, q: Params, timeOf: string -> real, ops: seq<Op>)
    requires p.Valid() && q == p.(delta := q.delta) && p.delta <= q.delta
    requires p.size <= DEDUP_TTL && TimesFixed(timeOf, ops) && PurgesAfterPunctuation(ops)
    requires PurgesLocally(p, ops) && PurgesLocally(q, ops)
    ensures AcceptedIds(p, ops) <= AcceptedIds(q, ops)
    ensures CountOutcomes(q, ops, Late) <= CountOutcomes(p, ops, Late)
  {
    RunsTighter(p, q, timeOf, ops);
    OnTimeCountsIds(p, timeOf, ops);
    OnTimeCountsIds(q, timeOf, ops);
    if ops != [] {
      var n := |ops| - 1;
      TimesFixedPrefix(timeOf, ops, n);
      PurgesPrefix(ops, n);
      LocallyPrefix(p, ops, n);
      LocallyPrefix(q, ops, n);
      HeardMonotone(p, q, timeOf, ops[..n]);
      if ops[n].Arrive? {
        LateOrdered(p, q, timeOf, ops[..n], ops[n].e, ops[n].queueLen);
      }
    }
  }

  lemma LateOrdered(p: Params, q: Params, timeOf: string -> real, ops: seq<Op>, e: Event, queueLen: int)
    requires p.Valid() && q == p.(delta := q.delta) && p.delta <= q.delta
    requires p.size <= DEDUP_TTL && TimesFixed(timeOf, ops) && PurgesAfterPunctuation(ops)
    requires PurgesLocally(p, ops) && PurgesLocally(q, ops) && e.time == timeOf(e.id)
    ensures Classify(q, Run(q, ops), e, queueLen) == Late ==> Classify(p, Run(p, ops), e, queueLen) == Late
  {
    RunsTighter(p, q, timeOf, ops);
    hide Tighter, IsLate;
    LateFollows(p, q, timeOf, RunKeeping(p, ops), RunKeeping(q, ops), e);
    BoundedDedupIsExact(p, timeOf, ops, e, queueLen);
    BoundedDedupIsExact(q, timeOf, ops, e, queueLen);
  }

  /** The counters: with a larger delta `on_time` never falls and `late_dropped` never rises, flushes
      included and whatever is heard. */
  lemma CountersMonotone(p: Params, q: Params, timeOf: string -> real, ops: seq<Op>)
    requires p.Valid() && q == p.(delta := q.delta) && p.delta <= q.delta
    requires p.size <= DEDUP_TTL && TimesFixed(timeOf, ops) && PurgesAfterPunctuation(ops)
    requires PurgesLocally(p, ops) && PurgesLocally(q, ops)
    ensures Run(p, ops).metrics.onTime <= Run(q, ops).metrics.onTime
    ensures Run(q, ops).metrics.lateDropped <= Run(p, ops).metrics.lateDropped
  {
    HeardMonotone(p, q, timeOf, ops);
    OnTimeCountsIds(p, timeOf, ops);
    OnTimeCountsIds(q, timeOf, ops);
    Accounting(p, ops);
    Accounting(q, ops);
    CardinalityMonotone(AcceptedIds(p, ops), AcceptedIds(q, ops));
  }
}
