/** Where the events of a heuristic engine go and what its windows and results then say, read off the events'
    own fields. */
module HeuristicWindows {
  import opened Extended
  import opened HeuristicHistory
  import opened HeuristicProgress
  import opened HeuristicSpec
  import opened HeuristicTotals
  import opened HeuristicWatermark
  import S = StrictSpec
  import Window

  // ------------------------------------------------------------------
  // Routing
  // ------------------------------------------------------------------

  /** An event too far in the future or too old, or one whose window is closed once its own watermark update has
      closed windows, is late. */
  ghost predicate GoesLate(p: Params, op: Op, t: State)
    requires p.Valid() && op.Arrive?
  {
    OutOfRange(p, op) || Window.Start(p.size, op.e.time) in t.closed
  }

  ghost predicate SameStates(s: State, t: State) {
    forall w :: HeldState(t, w) == HeldState(s, w)
  }

  /** One event of status `status` in the window that starts at `start`. */
  function OneIn(st: S.WindowState, w: real, start: real, status: int): S.WindowState {
    if w != start then st else S.WindowState(st.count + 1, st.status500 + if status == 500 then 1 else 0)
  }

  ghost predicate OneMoreIn(p: Params, s: State, t: State, e: S.Event)
    requires p.Valid()
  {
    forall w :: HeldState(t, w) == OneIn(HeldState(s, w), w, Window.Start(p.size, e.time), e.status)
  }

  /** An event that is dropped for its own time, whatever the windows. */
  predicate OutOfRange(p: Params, op: Op)
    requires op.Arrive?
  {
    op.e.time - op.arrival > p.maxFutureSkew || op.arrival - op.e.time > p.maxLagAccepted
  }

  /** What the caller sees of an event that repeats no other. */
  ghost predicate Routed(p: Params, s: State, t: State, op: Op)
    requires p.Valid() && op.Arrive?
  {
    && t.duplicates == s.duplicates
    && t.extremeLag == (if OutOfRange(p, op) then s.extremeLag + 1 else s.extremeLag)
    && if GoesLate(p, op, t) then
      && t.late == s.late + [LateEvent(op.e.id, op.e.time, op.arrival, p.partition)]
      && t.lateDropped == s.lateDropped + 1 && t.onTime == s.onTime && SameStates(s, t)
    else
      && t.late == s.late && t.lateDropped == s.lateDropped && t.onTime == s.onTime + 1 && OneMoreIn(p, s, t, op.e)
  }

  lemma RouteRoutes(p: Params, s: State, op: Op)
    requires p.Valid() && op.Arrive? && Sound(p, s) && op.e.time - op.arrival <= p.maxFutureSkew
    ensures Routed(p, s, Route(p, s, op.e, op.arrival), op)
  {
    hide Window.Start;
  }

  lemma DlqRoutes(p: Params, s: State, op: Op)
    requires p.Valid() && op.Arrive? && op.e.time - op.arrival > p.maxFutureSkew
    ensures Routed(p, s, ToDlq(p, s.(extremeLag := s.extremeLag + 1), op.e, op.arrival), op)
  {
    hide Window.Start;
  }

  /** States with the same events in the same places. */
  ghost predicate Alike(s: State, t: State) {
    && SameStates(s, t) && t.late == s.late && t.lateDropped == s.lateDropped && t.onTime == s.onTime
    && t.extremeLag == s.extremeLag && t.duplicates == s.duplicates
  }

  lemma AlikeRouted(p: Params, s: State, u: State, t: State, op: Op)
    requires p.Valid() && op.Arrive? && Alike(s, u) && Routed(p, u, t, op)
    ensures Routed(p, s, t, op)
  {
    hide Window.Start, HeldState;
  }

  lemma CloseWindowsAlike(p: Params, s: State, phase0: bool, sweep: bool)
    requires Sound(p, s)
    ensures Sound(p, CloseWindows(p, s, phase0, sweep)) && Alike(s, CloseWindows(p, s, phase0, sweep))
  {
    CloseWindowsKeeps(p, s, phase0, sweep, map[]);
    hide HeldState, Sound, Reported, S.Close, S.Closing;
  }

  lemma HandleRoutes(p: Params, s: State, op: Op)
    requires p.Valid() && op.Arrive? && Sound(p, s) && op.e.time - op.arrival <= p.maxFutureSkew
    ensures Routed(p, s, Handle(p, s, op.e, op.arrival, op.a), op)
  {
    hide Observe, AfterRecovery, CloseWindows, Route, Routed, Sound, HeldState;
    var observed := s.(wm := Observe(p, s.wm, op.e.time, op.a));
    var c := CloseWindows(p, observed, op.a.phase0, op.a.sweep);
    var u := c.(wm := AfterRecovery(p, c.wm, op.a));
    NothingMoved(p, s, observed, map[]);
    CloseWindowsAlike(p, observed, op.a.phase0, op.a.sweep);
    NothingMoved(p, c, u, map[]);
    RouteRoutes(p, u, op);
    AlikeRouted(p, s, u, Route(p, u, op.e, op.arrival), op);
  }

  lemma ArriveRoutes(p: Params, s: State, op: Op)
    requires p.Valid() && op.Arrive? && Sound(p, s) && op.e.id !in s.seen
    ensures Routed(p, s, Step(p, s, op), op)
  {
    hide Handle, Remember, ToDlq, Routed, Sound, HeldState;
    var u := Remember(s.(received := s.received + 1), op.e.id, op.arrival, op.a.purgeNow);
    RememberKeeps(s.(received := s.received + 1), op.e.id, op.arrival, op.a.purgeNow);
    NothingMoved(p, s, u, map[]);
    if op.e.time - op.arrival > p.maxFutureSkew {
      DlqRoutes(p, u, op);
    } else {
      HandleRoutes(p, u, op);
    }
    AlikeRouted(p, s, u, Step(p, s, op), op);
  }

  /** An event that repeats no other goes to the late events exactly when it is from too far in the future, too
      old, or for a closed window; otherwise it is counted in its own window and no other, and as an error exactly
      when its status is 500. */
  lemma RoutedByTest(p: Params, ops: seq<Op>, n: nat)
    requires p.Valid() && n < |ops| && ops[n].Arrive? && !Repeats(ops, n)
    ensures Routed(p, After(p, ops, n), After(p, ops, n + 1), ops[n])
  {
    AfterNext(p, ops, n);
    RunIsSound(p, ops[..n]);
    SeenByHistory(p, ops, n);
    RepeatsIff(ops, n, After(p, ops, n).seen);
    assert Sound(p, After(p, ops, n));
    hide *;
    ArriveRoutes(p, After(p, ops, n), ops[n]);
  }

  // ------------------------------------------------------------------
  // What the windows say
  // ------------------------------------------------------------------

  /** Arrival `n` was counted in a window. */
  ghost predicate OnTime(p: Params, ops: seq<Op>, n: nat)
    requires p.Valid() && n < |ops|
  {
    ops[n].Arrive? && !Repeats(ops, n) && !GoesLate(p, ops[n], After(p, ops, n + 1))
  }

  /** How many of the first `n` operations were counted with a time from `from` up to `to`, or of those only the
      ones with status 500. */
  ghost function CountOnTime(p: Params, ops: seq<Op>, n: nat, from: real, to: real, errors: bool): nat
    requires p.Valid() && n <= |ops|
  {
    if n == 0 then 0 else
      CountOnTime(p, ops, n - 1, from, to, errors) +
      if OnTime(p, ops, n - 1) && from <= ops[n - 1].e.time < to &&
         (!errors || ops[n - 1].e.status == 500) then 1 else 0
  }

  /** Operations that route no event keep every counter. */
  lemma QuietStep(p: Params, ops: seq<Op>, n: nat)
    requires p.Valid() && n < |ops| && (ops[n].Arrive? ==> Repeats(ops, n))
    ensures SameStates(After(p, ops, n), After(p, ops, n + 1))
  {
    var s, op := After(p, ops, n), ops[n];
    AfterNext(p, ops, n);
    RunIsSound(p, ops[..n]);
    if op.Arrive? {
      DuplicateByHistory(p, ops, n);
    } else if op.Global? {
      hide CloseWindows, HeldState, Sound, Repeats, Run;
      UpdateGlobalKeeps(p, s, op.w, op.phase0, op.sweep, map[]);
    } else {
      hide Flush, HeldState, Sound, Repeats, Run;
      FlushKeeps(p, s, map[]);
    }
  }

  /** One operation more, for one window. */
  lemma CountersStep(p: Params, ops: seq<Op>, n: nat, w: real)
    requires p.Valid() && n < |ops|
    ensures HeldState(After(p, ops, n + 1), w) ==
            if OnTime(p, ops, n)
            then OneIn(HeldState(After(p, ops, n), w), w, Window.Start(p.size, ops[n].e.time), ops[n].e.status)
            else HeldState(After(p, ops, n), w)
  {
    hide After, Repeats, GoesLate, HeldState, Window.Start;
    if ops[n].Arrive? && !Repeats(ops, n) {
      RoutedByTest(p, ops, n);
    } else {
      QuietStep(p, ops, n);
    }
  }

  lemma NoCounters(p: Params, ops: seq<Op>, w: real)
    requires p.Valid()
    ensures HeldState(After(p, ops, 0), w) == S.WindowState(0, 0)
  {
  }

  /** In every run the counters of every window, open or closed, are the number of events counted with a time in it,
      and the number of those with status 500. */
  lemma {:induction false} WindowsCountEvents(p: Params, ops: seq<Op>, n: nat, w: real)
    requires p.Valid() && n <= |ops| && Window.Aligned(p.size, w)
    ensures HeldState(After(p, ops, n), w) ==
            S.WindowState(CountOnTime(p, ops, n, w, w + p.size, false), CountOnTime(p, ops, n, w, w + p.size, true))
  {
    hide After, Repeats, GoesLate, HeldState, Window.Start, Window.Aligned, OnTime;
    if n == 0 {
      NoCounters(p, ops, w);
    } else {
      WindowsCountEvents(p, ops, n - 1, w);
      CountersStep(p, ops, n - 1, w);
      if OnTime(p, ops, n - 1) {
        OnTimeArrives(p, ops, n - 1);
        Window.StartIff(p.size, ops[n - 1].e.time, w);
      }
    }
  }

  lemma OnTimeArrives(p: Params, ops: seq<Op>, n: nat)
    requires p.Valid() && n < |ops| && OnTime(p, ops, n)
    ensures ops[n].Arrive?
  {
  }

  // ------------------------------------------------------------------
  // What the results say
  // ------------------------------------------------------------------

  /** Windows are aligned, and closed ones carry their own bounds and partition. */
  ghost predicate Labelled(p: Params, s: State) {
    && (forall w :: w in s.open ==> Window.Aligned(p.size, w))
    && (forall w :: w in s.closed ==>
          Window.Aligned(p.size, w) && s.closed[w].partition == p.partition && s.closed[w].end == w + p.size)
  }

  lemma CloseLabels(p: Params, s: State, ws: set<real>)
    requires Labelled(p, s) && ws <= s.open.Keys
    ensures Labelled(p, Close(p, s, ws))
  {
    CloseMoves(p, s, ws);
    hide Window.Aligned, Close;
  }

  lemma CloseWindowsLabels(p: Params, s: State, phase0: bool, sweep: bool)
    requires Labelled(p, s)
    ensures Labelled(p, CloseWindows(p, s, phase0, sweep))
  {
    hide Labelled, Close, Limit;
    if !phase0 {
      CloseLabels(p, s, S.Closing(p.Windows(), s.open, Limit(s, sweep)));
    }
  }

  lemma RouteLabels(p: Params, s: State, e: S.Event, arrival: real)
    requires p.Valid() && Labelled(p, s)
    ensures Labelled(p, Route(p, s, e, arrival))
  {
    StartAligned(p.size, e.time);
    hide Window.Start, Window.Aligned;
  }

  lemma StartAligned(size: real, t: real)
    requires size > 0.0
    ensures Window.Aligned(size, Window.Start(size, t))
  {
  }

  lemma SameLabels(p: Params, s: State, t: State)
    requires Labelled(p, s) && t.open == s.open && t.closed == s.closed
    ensures Labelled(p, t)
  {
  }

  lemma HandleLabels(p: Params, s: State, op: Op)
    requires p.Valid() && op.Arrive? && Labelled(p, s)
    ensures Labelled(p, Handle(p, s, op.e, op.arrival, op.a))
  {
    hide Observe, AfterRecovery, CloseWindows, Route, Labelled;
    var observed := s.(wm := Observe(p, s.wm, op.e.time, op.a));
    var c := CloseWindows(p, observed, op.a.phase0, op.a.sweep);
    var u := c.(wm := AfterRecovery(p, c.wm, op.a));
    SameLabels(p, s, observed);
    CloseWindowsLabels(p, observed, op.a.phase0, op.a.sweep);
    SameLabels(p, c, u);
    RouteLabels(p, u, op.e, op.arrival);
  }

  lemma StepLabels(p: Params, s: State, op: Op)
    requires p.Valid() && Labelled(p, s)
    ensures Labelled(p, Step(p, s, op))
  {
    hide Handle, CloseWindows, Remember, Close, Labelled;
    match op
    case Arrive(e, arrival, a) =>
      var r := s.(received := s.received + 1);
      var u := Remember(r, e.id, arrival, a.purgeNow);
      RememberKeeps(r, e.id, arrival, a.purgeNow);
      SameLabels(p, s, u);
      HandleLabels(p, u, op);
      SameLabels(p, s, ToDlq(p, u.(extremeLag := u.extremeLag + 1), e, arrival));
      SameLabels(p, s, r.(duplicates := r.duplicates + 1));
    case Global(w, phase0, sweep) =>
      SameLabels(p, s, s.(wGlobal := s.wGlobal.Max(w)));
      CloseWindowsLabels(p, s.(wGlobal := s.wGlobal.Max(w)), phase0, sweep);
    case FlushAll => CloseLabels(p, s, s.open.Keys);
  }

  lemma {:induction false} RunLabels(p: Params, ops: seq<Op>, n: nat)
    requires p.Valid() && n <= |ops|
    ensures Labelled(p, After(p, ops, n))
  {
    if n > 0 {
      RunLabels(p, ops, n - 1);
      AfterNext(p, ops, n - 1);
      hide After, Step, Labelled;
      StepLabels(p, After(p, ops, n - 1), ops[n - 1]);
    }
  }

  /** In every run each queued result carries the bounds of its window, the engine's partition, and the number of
      events counted with a time between those bounds, and of those with status 500. */
  lemma ResultsCountEvents(p: Params, ops: seq<Op>, n: nat, r: S.WindowResult)
    requires p.Valid() && n <= |ops| && r in After(p, ops, n).pending
    ensures Window.Aligned(p.size, r.start) && r.end == r.start + p.size && r.partition == p.partition
    ensures r.count == CountOnTime(p, ops, n, r.start, r.end, false)
    ensures r.status500 == CountOnTime(p, ops, n, r.start, r.end, true)
  {
    hide *;
    AfterIsSound(p, ops, n);
    RunLabels(p, ops, n);
    QueuedIsHeld(p, After(p, ops, n), r);
    WindowsCountEvents(p, ops, n, r.start);
  }

  lemma AfterIsSound(p: Params, ops: seq<Op>, n: nat)
    requires p.Valid() && n <= |ops|
    ensures Sound(p, After(p, ops, n))
  {
    RunIsSound(p, ops[..n]);
  }

  lemma QueuedIsHeld(p: Params, s: State, r: S.WindowResult)
    requires Sound(p, s) && Labelled(p, s) && r in s.pending
    ensures Window.Aligned(p.size, r.start) && r.end == r.start + p.size && r.partition == p.partition
    ensures HeldState(s, r.start) == S.WindowState(r.count, r.status500)
  {
    hide Window.Aligned;
  }

  // ------------------------------------------------------------------
  // The engine's counters
  // ------------------------------------------------------------------

  /** What an operation can be to the counters. */
  datatype Kind = Arrived | Repeated | Counted | TooLate | Extreme

  ghost predicate Is(p: Params, ops: seq<Op>, n: nat, kind: Kind)
    requires p.Valid() && n < |ops|
  {
    && ops[n].Arrive?
    && match kind
       case Arrived => true
       case Repeated => Repeats(ops, n)
       case Counted => OnTime(p, ops, n)
       case TooLate => !Repeats(ops, n) && !OnTime(p, ops, n)
       case Extreme => !Repeats(ops, n) && OutOfRange(p, ops[n])
  }

  ghost function CountKind(p: Params, ops: seq<Op>, n: nat, kind: Kind): nat
    requires p.Valid() && n <= |ops|
  {
    if n == 0 then 0 else CountKind(p, ops, n - 1, kind) + if Is(p, ops, n - 1, kind) then 1 else 0
  }

  lemma StepReceives(p: Params, s: State, op: Op)
    requires p.Valid()
    ensures Step(p, s, op).received == if op.Arrive? then s.received + 1 else s.received
  {
    hide S.Close, S.Closing, Observe, AfterRecovery;
  }

  lemma QuietCounters(p: Params, s: State, op: Op)
    requires p.Valid() && !op.Arrive?
    ensures var t := Step(p, s, op);
            && t.duplicates == s.duplicates && t.onTime == s.onTime
            && t.lateDropped == s.lateDropped && t.extremeLag == s.extremeLag
  {
    hide S.Close, S.Closing;
  }

  /** What operation `n` adds to the counters. */
  lemma CountersByKind(p: Params, ops: seq<Op>, n: nat)
    requires p.Valid() && n < |ops|
    ensures var s, t := After(p, ops, n), After(p, ops, n + 1);
            && t.received == s.received + (if Is(p, ops, n, Arrived) then 1 else 0)
            && t.duplicates == s.duplicates + (if Is(p, ops, n, Repeated) then 1 else 0)
            && t.onTime == s.onTime + (if Is(p, ops, n, Counted) then 1 else 0)
            && t.lateDropped == s.lateDropped + (if Is(p, ops, n, TooLate) then 1 else 0)
            && t.extremeLag == s.extremeLag + (if Is(p, ops, n, Extreme) then 1 else 0)
  {
    hide Run, Repeats, Step, SameStates, OneMoreIn, OutOfRange, OneMoreAt, Window.Start;
    AfterNext(p, ops, n);
    StepReceives(p, After(p, ops, n), ops[n]);
    if !ops[n].Arrive? {
      QuietCounters(p, After(p, ops, n), ops[n]);
    } else if Repeats(ops, n) {
      DuplicateByHistory(p, ops, n);
    } else {
      RoutedByTest(p, ops, n);
    }
  }

  /** The counters of every run are those of its history: arrivals, repetitions, events counted in a window, late
      ones, and those out of range. */
  lemma {:induction false} CountersByHistory(p: Params, ops: seq<Op>, n: nat)
    requires p.Valid() && n <= |ops|
    ensures var s := After(p, ops, n);
            && s.received == CountKind(p, ops, n, Arrived) && s.duplicates == CountKind(p, ops, n, Repeated)
            && s.onTime == CountKind(p, ops, n, Counted) && s.lateDropped == CountKind(p, ops, n, TooLate)
            && s.extremeLag == CountKind(p, ops, n, Extreme)
  {
    hide After, Is;
    if n == 0 {
      NoCounts(p, ops);
    } else {
      CountersByHistory(p, ops, n - 1);
      CountersByKind(p, ops, n - 1);
    }
  }

  lemma NoCounts(p: Params, ops: seq<Op>)
    requires p.Valid()
    ensures var s := After(p, ops, 0);
            s.received == s.duplicates == s.onTime == s.lateDropped == s.extremeLag == 0
  {
  }

  // ------------------------------------------------------------------
  // When windows close
  // ------------------------------------------------------------------

  /** The largest global watermark delivered among the first `n` operations. */
  ghost function Heard(ops: seq<Op>, n: nat): Ext
    requires n <= |ops|
  {
    if n == 0 then NegInf
    else if ops[n - 1].Global? then Heard(ops, n - 1).Max(ops[n - 1].w)
    else Heard(ops, n - 1)
  }

  /** The watermark that decides: the engine's own in sweep mode, or while no global one is known. */
  ghost function Deciding(p: Params, ops: seq<Op>, n: nat, sweep: bool): Ext
    requires p.Valid() && n <= |ops|
  {
    if sweep || Heard(ops, n).NegInf? then After(p, ops, n).wm.wH else Heard(ops, n)
  }

  lemma StepHeard(p: Params, s: State, op: Op)
    requires p.Valid()
    ensures Step(p, s, op).wGlobal == if op.Global? then s.wGlobal.Max(op.w) else s.wGlobal
  {
    hide Observe, AfterRecovery, S.Close, S.Closing;
  }

  lemma AfterNothing(p: Params, ops: seq<Op>)
    requires p.Valid()
    ensures After(p, ops, 0).wGlobal == NegInf
  {
  }

  lemma {:induction false} HeardIs(p: Params, ops: seq<Op>, n: nat)
    requires p.Valid() && n <= |ops|
    ensures After(p, ops, n).wGlobal == Heard(ops, n)
  {
    hide After, Step, Init;
    if n == 0 {
      AfterNothing(p, ops);
    } else {
      HeardIs(p, ops, n - 1);
      AfterNext(p, ops, n - 1);
      StepHeard(p, After(p, ops, n - 1), ops[n - 1]);
    }
  }

  /** Which windows a step closes, given the watermark that decides after it. */
  ghost predicate ClosesUpTo(p: Params, s: State, t: State, limit: Ext) {
    && (forall w :: w in t.closed <==> w in s.closed || (w in s.open && Fin(w + p.size).Le(limit)))
    && (forall w :: w in s.open ==> w in t.open || w in t.closed)
    && (forall w :: w in t.open ==> w !in t.closed)
  }

  lemma CloseWindowsCloses(p: Params, s: State, sweep: bool)
    requires Sound(p, s)
    ensures var t := CloseWindows(p, s, false, sweep);
            && ClosesUpTo(p, s, t, if sweep || s.wGlobal.NegInf? then s.wm.wH else s.wGlobal)
            && t.wm == s.wm && t.wGlobal == s.wGlobal && Sound(p, t)
  {
    hide Close, Sound, Moved;
    var ws := S.Closing(p.Windows(), s.open, Limit(s, sweep));
    CloseMoves(p, s, ws);
    MovedIsSound(p, s, Close(p, s, ws), ws);
    MovedCloses(p, s, Close(p, s, ws), ws);
    CloseLeavesWatermarks(p, s, ws);
  }

  lemma CloseLeavesWatermarks(p: Params, s: State, ws: set<real>)
    requires ws <= s.open.Keys
    ensures Close(p, s, ws).wm == s.wm && Close(p, s, ws).wGlobal == s.wGlobal
  {
  }

  lemma MovedCloses(p: Params, s: State, t: State, ws: set<real>)
    requires ws <= s.open.Keys && Moved(p, s, t, ws) && Sound(p, s)
    ensures forall w :: w in t.closed <==> w in s.closed || w in ws
    ensures forall w :: w in s.open ==> w in t.open || w in t.closed
    ensures forall w :: w in t.open ==> w !in t.closed
  {
    hide S.ResultOf;
  }

  lemma RouteClosesNone(p: Params, s: State, e: S.Event, arrival: real)
    requires p.Valid() && Sound(p, s)
    ensures var t := Route(p, s, e, arrival);
            && t.closed == s.closed && t.wm == s.wm
            && (forall w :: w in s.open ==> w in t.open) && (forall w :: w in t.open ==> w !in t.closed)
  {
    hide Window.Start;
  }

  lemma HandleCloses(p: Params, s: State, op: Op)
    requires p.Valid() && op.Arrive? && Sound(p, s) && !op.a.phase0
    ensures var t := Handle(p, s, op.e, op.arrival, op.a);
            ClosesUpTo(p, s, t, if op.a.sweep || s.wGlobal.NegInf? then t.wm.wH else s.wGlobal)
  {
    hide Observe, AfterRecovery, CloseWindows, Route, Sound;
    var observed := s.(wm := Observe(p, s.wm, op.e.time, op.a));
    var c := CloseWindows(p, observed, false, op.a.sweep);
    var u := c.(wm := AfterRecovery(p, c.wm, op.a));
    NothingMoved(p, s, observed, map[]);
    CloseWindowsCloses(p, observed, op.a.sweep);
    NothingMoved(p, c, u, map[]);
    RecoveryLeaves(p, c.wm, op.a);
    RouteClosesNone(p, u, op.e, op.arrival);
  }

  /** Outside the first cold-start phase an observed event, and every global watermark delivered, closes exactly the
      open windows that end at or before the deciding watermark. */
  lemma ClosesExactly(p: Params, ops: seq<Op>, n: nat)
    requires p.Valid() && n < |ops|
    requires Updates(p, ops, n) || (ops[n].Global? && !ops[n].phase0)
    ensures ClosesUpTo(p, After(p, ops, n), After(p, ops, n + 1),
                       Deciding(p, ops, n + 1, if ops[n].Arrive? then ops[n].a.sweep else ops[n].sweep))
  {
    var s := After(p, ops, n);
    AfterNext(p, ops, n);
    RunIsSound(p, ops[..n]);
    HeardIs(p, ops, n);
    HeardIs(p, ops, n + 1);
    if ops[n].Arrive? {
      ObservedIff(p, ops, n);
    }
    assert Sound(p, s);
    hide After, Run, Repeats, Sound, Handle, CloseWindows, Remember, ClosesUpTo;
    StepCloses(p, s, ops[n]);
  }

  lemma StepCloses(p: Params, s: State, op: Op)
    requires p.Valid() && Sound(p, s)
    requires if op.Arrive? then !Ignored(p, s, op.e, op.arrival) && !op.a.phase0 else op.Global? && !op.phase0
    ensures var t := Step(p, s, op);
            ClosesUpTo(p, s, t, if (if op.Arrive? then op.a.sweep else op.sweep) || t.wGlobal.NegInf?
                                then t.wm.wH else t.wGlobal)
  {
    hide Handle, CloseWindows, Remember, Sound;
    StepHeard(p, s, op);
    if op.Arrive? {
      var r := s.(received := s.received + 1);
      var u := Remember(r, op.e.id, op.arrival, op.a.purgeNow);
      RememberKeeps(r, op.e.id, op.arrival, op.a.purgeNow);
      NothingMoved(p, s, u, map[]);
      HandleCloses(p, u, op);
    } else {
      var u := s.(wGlobal := s.wGlobal.Max(op.w));
      NothingMoved(p, s, u, map[]);
      CloseWindowsCloses(p, u, op.sweep);
    }
  }
}
