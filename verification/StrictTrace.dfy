/** The strict engine as a function of its trace: the fate of every event, the watermark, and the ids remembered are
    computed from the operations alone, without any engine state; and what the engine emits is counted from the
    events' own fields. */
module StrictTrace {
  import opened Extended
  import opened StrictRuns
  import opened StrictSpec
  import opened StrictTwoRuns
  import Window

  // ------------------------------------------------------------------
  // The trace semantics
  // ------------------------------------------------------------------

  /** The largest punctuation among the first `n` operations, minus delta. */
  ghost function LocalAt(p: Params, ops: seq<Op>, n: nat): Ext
    requires n <= |ops|
  {
    MaxCommit(ops[..n]).Minus(p.delta)
  }

  /** The watermark after `n` operations: an accepted event or a larger punctuation sets it to the local one, hearing
      a global one raises it. */
  ghost function WatermarkAt(p: Params, ops: seq<Op>, n: nat): Ext
    requires p.Valid() && n <= |ops|
    decreases n, 0
  {
    if n == 0 then NegInf else
      match ops[n - 1]
      case Arrive(_, _, _) =>
        if Fate(p, ops, n - 1) == Accepted then LocalAt(p, ops, n) else WatermarkAt(p, ops, n - 1)
      case Punctuation(commit) =>
        if MaxCommit(ops[..n - 1]).Lt(Fin(commit)) then LocalAt(p, ops, n) else WatermarkAt(p, ops, n - 1)
      case Hear(g) => WatermarkAt(p, ops, n - 1).Max(g)
      case _ => WatermarkAt(p, ops, n - 1)
  }

  /** The newest time of an accepted event. */
  ghost function NewestAt(p: Params, ops: seq<Op>, n: nat): Ext
    requires p.Valid() && n <= |ops|
    decreases n, 0
  {
    if n == 0 then NegInf
    else if ops[n - 1].Arrive? && Fate(p, ops, n - 1) == Accepted then
      NewestAt(p, ops, n - 1).Max(Fin(ops[n - 1].e.time))
    else NewestAt(p, ops, n - 1)
  }

  /** A purge with operation `j` forgets ids of events more than a minute behind the watermark, or behind the newest
      event while there is no watermark. */
  ghost predicate Forgets(p: Params, ops: seq<Op>, j: nat, t: real)
    requires p.Valid() && j < |ops|
    decreases j + 1, 1
  {
    var base := if WatermarkAt(p, ops, j + 1).NegInf? then NewestAt(p, ops, j + 1) else WatermarkAt(p, ops, j + 1);
    base.Fin? && t < base.r - 60.0
  }

  ghost predicate Purges(p: Params, ops: seq<Op>, j: nat)
    requires p.Valid() && j < |ops|
    decreases j, 4
  {
    ops[j].Checkpoint? || (ops[j].Arrive? && ops[j].checkpointDue && Fate(p, ops, j) == Accepted)
  }

  /** Event `i` was accepted and no purge since has forgotten it. */
  ghost predicate Remembered(p: Params, ops: seq<Op>, i: nat, n: nat)
    requires p.Valid() && i < n <= |ops|
    decreases n, 2
  {
    && ops[i].Arrive? && Fate(p, ops, i) == Accepted
    && forall j | i <= j < n && Purges(p, ops, j) :: !Forgets(p, ops, j, ops[i].e.time)
  }

  /** Some event of the window that starts at `w` was accepted before a flush. */
  ghost predicate Flushed(p: Params, ops: seq<Op>, n: nat, w: real)
    requires p.Valid() && n <= |ops|
    decreases n, 2
  {
    exists j :: 0 <= j < n && FlushedBy(p, ops, j, w)
  }

  ghost predicate FlushedBy(p: Params, ops: seq<Op>, j: nat, w: real)
    requires p.Valid() && j < |ops|
    decreases j, 5
  {
    ops[j].FlushAll? && exists i :: 0 <= i < j && AcceptedIn(p, ops, i, w)
  }

  ghost predicate AcceptedIn(p: Params, ops: seq<Op>, i: nat, w: real)
    requires p.Valid() && i < |ops|
    decreases i, 4
  {
    ops[i].Arrive? && Fate(p, ops, i) == Accepted && Window.Start(p.size, ops[i].e.time) == w
  }

  /** What happens to the event of operation `n`: a full queue comes first, then lateness, then repetition. */
  ghost function Fate(p: Params, ops: seq<Op>, n: nat): Outcome
    requires p.Valid() && n < |ops| && ops[n].Arrive?
    decreases n, 3
  {
    var e, w := ops[n].e, Window.Start(p.size, ops[n].e.time);
    if ops[n].queueLen > p.maxQueue then QueueFull
    else if Fin(w + p.size).Le(WatermarkAt(p, ops, n)) || Flushed(p, ops, n, w) then Late
    else if exists i :: 0 <= i < n && Remembered(p, ops, i, n) && ops[i].e.id == e.id then Duplicate
    else Accepted
  }

  // ------------------------------------------------------------------
  // The engine follows its trace
  // ------------------------------------------------------------------

  ghost predicate SeenIs(p: Params, ops: seq<Op>, n: nat, seen: map<string, real>)
    requires p.Valid() && n <= |ops|
  {
    && (forall i | 0 <= i < n && ops[i].Arrive? && Remembered(p, ops, i, n) ::
          ops[i].e.id in seen && seen[ops[i].e.id] == ops[i].e.time)
    && (forall id | id in seen ::
          exists i :: 0 <= i < n && ops[i].Arrive? && Remembered(p, ops, i, n) && ops[i].e.id == id)
  }

  /** Windows hold accepted events; closed ones were passed or flushed, and flushed ones are closed. */
  ghost predicate WindowsAre(p: Params, ops: seq<Op>, n: nat, s: State)
    requires p.Valid() && n <= |ops|
  {
    && (forall w :: w in s.open || w in s.closed ==> exists i :: 0 <= i < n && AcceptedIn(p, ops, i, w))
    && (forall i, w | 0 <= i < n && AcceptedIn(p, ops, i, w) :: w in s.open || w in s.closed)
    && (forall w :: w in s.closed ==> Fin(w + p.size).Le(s.localWatermark) || Flushed(p, ops, n, w))
    && (forall w :: Flushed(p, ops, n, w) ==> w in s.closed)
  }

  ghost predicate Follows(p: Params, ops: seq<Op>, n: nat, s: State)
    requires p.Valid() && n <= |ops|
  {
    && Led(p, s) && s.lastCommit == MaxCommit(ops[..n])
    && s.watermark == WatermarkAt(p, ops, n) && s.maxEventTime == NewestAt(p, ops, n)
    && SeenIs(p, ops, n, s.seen) && WindowsAre(p, ops, n, s)
  }

  lemma SeenIff(p: Params, ops: seq<Op>, n: nat, seen: map<string, real>, id: string)
    requires p.Valid() && n <= |ops| && SeenIs(p, ops, n, seen)
    ensures id in seen <==> exists i :: 0 <= i < n && Remembered(p, ops, i, n) && ops[i].e.id == id
  {
    hide Fate, Purges, Forgets;
  }

  lemma LateIff(p: Params, ops: seq<Op>, n: nat, s: State, t: real)
    requires p.Valid() && n <= |ops| && Led(p, s) && WindowsAre(p, ops, n, s)
    ensures IsLate(p, s, t) <==>
            Fin(Window.Start(p.size, t) + p.size).Le(s.watermark) || Flushed(p, ops, n, Window.Start(p.size, t))
  {
    hide Window.Start, Flushed, AcceptedIn;
  }

  /** The verdict of an engine that follows the trace. */
  lemma VerdictIs(p: Params, ops: seq<Op>, n: nat, s: State)
    requires p.Valid() && n < |ops| && ops[n].Arrive? && Follows(p, ops, n, s)
    ensures Classify(p, s, ops[n].e, ops[n].queueLen) == Fate(p, ops, n)
  {
    SeenIff(p, ops, n, s.seen, ops[n].e.id);
    LateIff(p, ops, n, s, ops[n].e.time);
    hide Remembered, Flushed, WatermarkAt, NewestAt, SeenIs, WindowsAre, Led, IsLate, Window.Start;
  }

  // ------------------------------------------------------------------
  // One operation: watermark and newest event
  // ------------------------------------------------------------------

  lemma CommitNext(ops: seq<Op>, n: nat)
    requires n < |ops|
    ensures MaxCommit(ops[..n + 1]) ==
            if ops[n].Punctuation? then MaxCommit(ops[..n]).Max(Fin(ops[n].commit)) else MaxCommit(ops[..n])
  {
    assert ops[..n + 1][..n] == ops[..n];
  }

  lemma StepNewest(p: Params, s: State, op: Op)
    requires p.Valid()
    ensures Step(p, s, op).maxEventTime ==
            if op.Arrive? && Classify(p, s, op.e, op.queueLen) == Accepted then s.maxEventTime.Max(Fin(op.e.time))
            else s.maxEventTime
  {
    hide Results, Closing, Expired, Window.Start;
  }

  lemma WatermarkFollows(p: Params, ops: seq<Op>, n: nat, s: State)
    requires p.Valid() && n < |ops| && Follows(p, ops, n, s)
    ensures var t := Step(p, s, ops[n]);
            && Led(p, t) && t.lastCommit == MaxCommit(ops[..n + 1])
            && t.watermark == WatermarkAt(p, ops, n + 1) && t.maxEventTime == NewestAt(p, ops, n + 1)
  {
    hide Step, SeenIs, WindowsAre, Classify, Fate;
    var op := ops[n];
    if op.Arrive? {
      VerdictIs(p, ops, n, s);
    }
    StepLed(p, s, op);
    StepLastCommit(p, s, op);
    StepNewest(p, s, op);
    CommitNext(ops, n);
    if Advances(p, s, op) {
      AdvancingStepLed(p, s, op);
    } else {
      OtherStep(p, s, op);
    }
    hide Led;
  }

  // ------------------------------------------------------------------
  // One operation: windows
  // ------------------------------------------------------------------

  lemma AcceptedIsHeld(p: Params, s: State, op: Op)
    requires p.Valid() && op.Arrive? && Classify(p, s, op.e, op.queueLen) == Accepted
    ensures StartOf(p, op.e) in Step(p, s, op).open || StartOf(p, op.e) in Step(p, s, op).closed
  {
    hide Advance, Expired, Window.Start, CountEvent;
    AdvanceWindows(p, Accept(p, s.(metrics := s.metrics.(totalReceived := s.metrics.totalReceived + 1)), op.e));
  }

  lemma AdvanceNoNewWindows(p: Params, s: State)
    ensures Advance(p, s).closed.Keys <= s.closed.Keys + s.open.Keys
  {
    hide Results, ResultOf;
  }

  /** Only an accepted event brings a window into being. */
  lemma NoNewWindows(p: Params, s: State, op: Op)
    requires p.Valid()
    ensures var t := Step(p, s, op);
            forall w :: w in t.closed ==>
              || w in s.closed || w in s.open
              || (op.Arrive? && Classify(p, s, op.e, op.queueLen) == Accepted && w == StartOf(p, op.e))
  {
    hide Results, ResultOf, Advance, Expired, Window.Start, CountEvent;
    match op
    case Arrive(e, queueLen, due) =>
      var r := s.(metrics := s.metrics.(totalReceived := s.metrics.totalReceived + 1));
      AdvanceNoNewWindows(p, Accept(p, r, e));
    case Punctuation(commit) =>
      AdvanceNoNewWindows(p, s.(metrics := s.metrics.(punctuationTotal := s.metrics.punctuationTotal + 1),
                                lastCommit := Fin(commit), localWatermark := Fin(commit - p.delta)));
    case _ =>
  }

  lemma FlushEmpties(p: Params, s: State)
    requires p.Valid()
    ensures Step(p, s, FlushAll).open == map[]
  {
  }

  lemma FlushedNext(p: Params, ops: seq<Op>, n: nat, w: real)
    requires p.Valid() && n < |ops|
    ensures Flushed(p, ops, n + 1, w) <==> Flushed(p, ops, n, w) || FlushedBy(p, ops, n, w)
  {
    hide FlushedBy;
  }

  /** What one operation does to the windows, as seen from the trace. */
  lemma StepHolds(p: Params, ops: seq<Op>, n: nat, s: State)
    requires p.Valid() && n < |ops| && Follows(p, ops, n, s)
    ensures var t := Step(p, s, ops[n]);
            && s.localWatermark.Le(t.localWatermark)
            && (forall w :: w in s.closed ==> w in t.closed)
            && (forall w :: w in s.open ==> w in t.open || w in t.closed)
            && (forall w :: w in t.closed ==>
                  w in s.closed || Fin(w + p.size).Le(t.localWatermark) || (ops[n].FlushAll? && w in s.open))
            && (forall w :: w in t.open || w in t.closed ==> w in s.open || w in s.closed || AcceptedIn(p, ops, n, w))
            && (forall w :: AcceptedIn(p, ops, n, w) ==> w in t.open || w in t.closed)
            && (ops[n].FlushAll? ==> t.open == map[])
  {
    hide Step, SeenIs, WindowsAre, Classify, Fate, Window.Start;
    if ops[n].Arrive? {
      VerdictIs(p, ops, n, s);
      if Fate(p, ops, n) == Accepted {
        AcceptedIsHeld(p, s, ops[n]);
      }
    }
    if ops[n].FlushAll? {
      FlushEmpties(p, s);
    }
    StepWindows(p, s, ops[n]);
    NoNewWindows(p, s, ops[n]);
    StepLed(p, s, ops[n]);
    hide Led;
  }

  lemma WindowsFollow(p: Params, ops: seq<Op>, n: nat, s: State)
    requires p.Valid() && n < |ops| && Follows(p, ops, n, s)
    ensures WindowsAre(p, ops, n + 1, Step(p, s, ops[n]))
  {
    hide Step, SeenIs, Led, AcceptedIn, Flushed, WatermarkAt, NewestAt;
    StepHolds(p, ops, n, s);
    var t := Step(p, s, ops[n]);
    forall w | w in t.open || w in t.closed ensures exists i :: 0 <= i < n + 1 && AcceptedIn(p, ops, i, w) {
      if w in s.open || w in s.closed {
        var i :| 0 <= i < n && AcceptedIn(p, ops, i, w);
        assert AcceptedIn(p, ops, i, w);
      } else {
        assert AcceptedIn(p, ops, n, w);
      }
    }
    forall w | w in t.closed ensures Fin(w + p.size).Le(t.localWatermark) || Flushed(p, ops, n + 1, w) {
      FlushedNext(p, ops, n, w);
    }
    forall w | Flushed(p, ops, n + 1, w) ensures w in t.closed {
      FlushedNext(p, ops, n, w);
    }
  }

  // ------------------------------------------------------------------
  // One operation: remembered ids
  // ------------------------------------------------------------------

  lemma RememberedNext(p: Params, ops: seq<Op>, i: nat, n: nat)
    requires p.Valid() && i < n < |ops|
    ensures Remembered(p, ops, i, n + 1) <==>
            Remembered(p, ops, i, n) && (Purges(p, ops, n) ==> !Forgets(p, ops, n, ops[i].e.time))
  {
    hide Fate, Purges, Forgets;
  }

  lemma RememberedFirst(p: Params, ops: seq<Op>, n: nat)
    requires p.Valid() && n < |ops|
    ensures Remembered(p, ops, n, n + 1) <==>
            && ops[n].Arrive? && Fate(p, ops, n) == Accepted
            && (Purges(p, ops, n) ==> !Forgets(p, ops, n, ops[n].e.time))
  {
    hide Fate, Purges, Forgets;
  }

  /** The ids after an operation: an accepted one joins, and a purge keeps those that are not forgotten. */
  ghost function SeenNext(p: Params, ops: seq<Op>, n: nat, seen: map<string, real>): map<string, real>
    requires p.Valid() && n < |ops|
  {
    var added := if ops[n].Arrive? && Fate(p, ops, n) == Accepted then seen[ops[n].e.id := ops[n].e.time] else seen;
    if Purges(p, ops, n) then map id | id in added && !Forgets(p, ops, n, added[id]) :: added[id] else added
  }

  lemma KeptIsRemembered(p: Params, ops: seq<Op>, n: nat, seen: map<string, real>, i: nat)
    requires p.Valid() && n < |ops| && SeenIs(p, ops, n, seen)
    requires i < n + 1 && ops[i].Arrive? && Remembered(p, ops, i, n + 1)
    ensures var after := SeenNext(p, ops, n, seen); ops[i].e.id in after && after[ops[i].e.id] == ops[i].e.time
  {
    if ops[n].Arrive? {
      AcceptedIsNew(p, ops, n, seen);
    }
    if i == n {
      RememberedFirst(p, ops, n);
    } else {
      RememberedNext(p, ops, i, n);
    }
    hide Remembered, Fate, Purges, Forgets;
  }

  lemma AcceptedIsNew(p: Params, ops: seq<Op>, n: nat, seen: map<string, real>)
    requires p.Valid() && n < |ops| && ops[n].Arrive? && SeenIs(p, ops, n, seen)
    ensures Fate(p, ops, n) == Accepted ==> ops[n].e.id !in seen
  {
    SeenIff(p, ops, n, seen, ops[n].e.id);
    hide Remembered, Flushed, WatermarkAt, SeenIs, Window.Start;
  }

  lemma RememberedKept(p: Params, ops: seq<Op>, n: nat, seen: map<string, real>, id: string) returns (i: nat)
    requires p.Valid() && n < |ops| && SeenIs(p, ops, n, seen) && id in SeenNext(p, ops, n, seen)
    ensures i < n + 1 && ops[i].Arrive? && Remembered(p, ops, i, n + 1) && ops[i].e.id == id
  {
    hide Remembered, Fate, Purges, Forgets;
    if ops[n].Arrive? && Fate(p, ops, n) == Accepted && ops[n].e.id == id {
      i := n;
      RememberedFirst(p, ops, n);
    } else {
      i :| 0 <= i < n && ops[i].Arrive? && Remembered(p, ops, i, n) && ops[i].e.id == id;
      RememberedNext(p, ops, i, n);
    }
  }

  lemma SeenFollows(p: Params, ops: seq<Op>, n: nat, seen: map<string, real>)
    requires p.Valid() && n < |ops| && SeenIs(p, ops, n, seen)
    ensures SeenIs(p, ops, n + 1, SeenNext(p, ops, n, seen))
  {
    hide Remembered, SeenNext;
    forall i: nat | i < n + 1 && ops[i].Arrive? && Remembered(p, ops, i, n + 1)
      ensures ops[i].e.id in SeenNext(p, ops, n, seen) && SeenNext(p, ops, n, seen)[ops[i].e.id] == ops[i].e.time
    {
      KeptIsRemembered(p, ops, n, seen, i);
    }
    forall id | id in SeenNext(p, ops, n, seen)
      ensures exists i :: 0 <= i < n + 1 && ops[i].Arrive? && Remembered(p, ops, i, n + 1) && ops[i].e.id == id
    {
      var i := RememberedKept(p, ops, n, seen, id);
    }
  }

  /** What a step does to the remembered ids, from the states before and after it. */
  lemma StepIds(p: Params, s: State, op: Op)
    requires p.Valid()
    ensures var t, accepted := Step(p, s, op), op.Arrive? && Classify(p, s, op.e, op.queueLen) == Accepted;
            var added := if accepted then s.seen[op.e.id := op.e.time] else s.seen;
            t.seen == if op.Checkpoint? || (accepted && op.checkpointDue) then added - Stale(added, t) else added
  {
    if op.Checkpoint? {
      hide Window.Start;
    } else if MayPurge(op) {
      PurgeLast(p, s, op);
      StepSeenExactly(p, s, op.(checkpointDue := false));
      hide Step, Classify;
    } else {
      StepSeenExactly(p, s, op);
      hide Step, Classify;
    }
  }

  /** The ids that a purge in state `t` drops. */
  ghost function Stale(seen: map<string, real>, t: State): set<string> {
    set id | id in seen && Fin(seen[id]).Lt((if t.watermark.NegInf? then t.maxEventTime else t.watermark).Minus(60.0))
  }

  lemma IdsFollow(p: Params, ops: seq<Op>, n: nat, s: State)
    requires p.Valid() && n < |ops| && Follows(p, ops, n, s)
    ensures Step(p, s, ops[n]).seen == SeenNext(p, ops, n, s.seen)
  {
    hide Step, SeenIs, WindowsAre, Classify, Fate, Led, WatermarkAt, NewestAt, Stale;
    WatermarkFollows(p, ops, n, s);
    StepIds(p, s, ops[n]);
    if ops[n].Arrive? {
      VerdictIs(p, ops, n, s);
    }
    var t := Step(p, s, ops[n]);
    var added := if ops[n].Arrive? && Fate(p, ops, n) == Accepted then s.seen[ops[n].e.id := ops[n].e.time] else s.seen;
    StaleIs(p, ops, n, added, t);
  }

  lemma StaleIs(p: Params, ops: seq<Op>, n: nat, seen: map<string, real>, t: State)
    requires p.Valid() && n < |ops|
    requires t.watermark == WatermarkAt(p, ops, n + 1) && t.maxEventTime == NewestAt(p, ops, n + 1)
    ensures seen - Stale(seen, t) == map id | id in seen && !Forgets(p, ops, n, seen[id]) :: seen[id]
  {
    hide WatermarkAt, NewestAt;
  }

  lemma StepFollows(p: Params, ops: seq<Op>, n: nat, s: State)
    requires p.Valid() && n < |ops| && Follows(p, ops, n, s)
    ensures Follows(p, ops, n + 1, Step(p, s, ops[n]))
  {
    WatermarkFollows(p, ops, n, s);
    WindowsFollow(p, ops, n, s);
    IdsFollow(p, ops, n, s);
    hide Step, SeenIs, WindowsAre, Led, WatermarkAt, NewestAt, SeenNext;
    SeenFollows(p, ops, n, s.seen);
  }

  lemma StartFollows(p: Params, ops: seq<Op>)
    requires p.Valid()
    ensures Follows(p, ops, 0, Run(p, ops[..0]))
  {
    assert ops[..0] == [];
  }

  lemma RunNext(p: Params, ops: seq<Op>, n: nat)
    requires p.Valid() && n < |ops|
    ensures Run(p, ops[..n + 1]) == Step(p, Run(p, ops[..n]), ops[n])
  {
    assert ops[..n + 1][..n] == ops[..n];
  }

  lemma {:induction false} RunFollows(p: Params, ops: seq<Op>, n: nat)
    requires p.Valid() && n <= |ops|
    ensures Follows(p, ops, n, Run(p, ops[..n]))
  {
    hide *;
    if n == 0 {
      StartFollows(p, ops);
    } else {
      RunFollows(p, ops, n - 1);
      RunNext(p, ops, n - 1);
      StepFollows(p, ops, n - 1, Run(p, ops[..n - 1]));
    }
  }

  /** In every run, whatever is heard, flushed or purged, the engine gives every event the fate of the trace. */
  lemma FateIsVerdict(p: Params, ops: seq<Op>, n: nat)
    requires p.Valid() && n < |ops| && ops[n].Arrive?
    ensures Classify(p, Run(p, ops[..n]), ops[n].e, ops[n].queueLen) == Fate(p, ops, n)
  {
    hide *;
    RunFollows(p, ops, n);
    VerdictIs(p, ops, n, Run(p, ops[..n]));
  }

  // ------------------------------------------------------------------
  // What windows and results count
  // ------------------------------------------------------------------

  /** How many events of the first `n` operations are accepted with a time from `from` up to `to`; or of those, how
      many have status 500. */
  ghost function CountAccepted(p: Params, ops: seq<Op>, n: nat, from: real, to: real, errors: bool): nat
    requires p.Valid() && n <= |ops|
  {
    if n == 0 then 0 else
      CountAccepted(p, ops, n - 1, from, to, errors) +
      if ops[n - 1].Arrive? && Fate(p, ops, n - 1) == Accepted && from <= ops[n - 1].e.time < to &&
         (!errors || ops[n - 1].e.status == 500) then 1 else 0
  }

  lemma AcceptedNext(p: Params, ops: seq<Op>, n: nat)
    requires p.Valid() && n < |ops|
    ensures AcceptedEvents(p, ops[..n + 1]) ==
            if ops[n].Arrive? && Fate(p, ops, n) == Accepted then AcceptedEvents(p, ops[..n]) + [ops[n].e]
            else AcceptedEvents(p, ops[..n])
  {
    assert ops[..n + 1][..n] == ops[..n] && ops[..n + 1][n] == ops[n];
    if ops[n].Arrive? {
      FateIsVerdict(p, ops, n);
    }
    hide Fate, Classify, Run;
  }

  lemma TallyNext(p: Params, es: seq<Event>, e: Event, w: real)
    requires p.Valid() && Window.Aligned(p.size, w)
    ensures Tally(p, es + [e], w) ==
            if w <= e.time < w + p.size
            then WindowState(Tally(p, es, w).count + 1, Tally(p, es, w).status500 + if e.status == 500 then 1 else 0)
            else Tally(p, es, w)
  {
    assert (es + [e])[..|es|] == es;
    Window.StartIff(p.size, e.time, w);
    hide Window.Start, Window.Aligned;
  }

  lemma {:induction false} TallyIsCount(p: Params, ops: seq<Op>, n: nat, w: real)
    requires p.Valid() && n <= |ops| && Window.Aligned(p.size, w)
    ensures Tally(p, AcceptedEvents(p, ops[..n]), w) ==
            WindowState(CountAccepted(p, ops, n, w, w + p.size, false), CountAccepted(p, ops, n, w, w + p.size, true))
  {
    hide Fate, Tally, AcceptedEvents, Window.Aligned;
    if n == 0 {
      NothingTallied(p, ops, w);
    } else {
      TallyIsCount(p, ops, n - 1, w);
      AcceptedNext(p, ops, n - 1);
      if ops[n - 1].Arrive? {
        TallyNext(p, AcceptedEvents(p, ops[..n - 1]), ops[n - 1].e, w);
      }
    }
  }

  lemma NothingTallied(p: Params, ops: seq<Op>, w: real)
    requires p.Valid()
    ensures Tally(p, AcceptedEvents(p, ops[..0]), w) == WindowState(0, 0)
  {
  }

  /** In every run every open window counts the accepted events with a time in it, and those with status 500; a window
      that is neither open nor closed has none. */
  lemma WindowsCountEvents(p: Params, ops: seq<Op>, w: real)
    requires p.Valid() && Window.Aligned(p.size, w)
    ensures var s, n := Run(p, ops), |ops|;
            var counters := WindowState(CountAccepted(p, ops, n, w, w + p.size, false),
                                        CountAccepted(p, ops, n, w, w + p.size, true));
            && (w in s.open ==> s.open[w] == counters)
            && (w !in s.open && w !in s.closed ==> counters == WindowState(0, 0))
  {
    WindowsExact(p, ops);
    assert ops[..|ops|] == ops;
    hide Run, AcceptedEvents, Tally, CountAccepted, Window.Aligned;
    TallyIsCount(p, ops, |ops|, w);
  }

  /** In every run every emitted result has the engine's partition and the bounds of an aligned window, and counts the
      accepted events with a time between those bounds, at least one, and those with status 500. */
  lemma ResultsCountEvents(p: Params, ops: seq<Op>, r: WindowResult)
    requires p.Valid() && r in Run(p, ops).emitted
    ensures r.partition == p.partition && Window.Aligned(p.size, r.start) && r.end == r.start + p.size
    ensures r.count == CountAccepted(p, ops, |ops|, r.start, r.end, false) > 0
    ensures r.status500 == CountAccepted(p, ops, |ops|, r.start, r.end, true)
  {
    hide *;
    assert ops[..|ops|] == ops;
    WindowsExact(p, ops);
    EmissionOnce(p, ops);
    EmittedIsTally(p, Run(p, ops), AcceptedEvents(p, ops), r);
    var i := ClosedHasEvent(p, ops, r.start);
    TallyIsCount(p, ops, |ops|, r.start);
    CountIsPositive(p, ops, |ops|, i, r.start);
  }

  lemma EmittedIsTally(p: Params, s: State, es: seq<Event>, r: WindowResult)
    requires p.Valid() && Exact(p, s, es) && EmittedOnce(s) && r in s.emitted
    ensures r.start in s.closed && r.partition == p.partition && r.end == r.start + p.size
    ensures Tally(p, es, r.start) == WindowState(r.count, r.status500)
  {
    hide Tally, Distinct, Starts;
    var i :| 0 <= i < |s.emitted| && s.emitted[i] == r;
    var tally := Tally(p, es, s.emitted[i].start);
    assert s.closed[r.start] == ResultOf(p, r.start, tally);
  }

  lemma ClosedHasEvent(p: Params, ops: seq<Op>, w: real) returns (i: nat)
    requires p.Valid() && w in Run(p, ops).closed
    ensures i < |ops| && AcceptedIn(p, ops, i, w) && Window.Aligned(p.size, w)
  {
    RunFollows(p, ops, |ops|);
    assert ops[..|ops|] == ops;
    hide Run, SeenIs, Led, WatermarkAt, NewestAt, Flushed, AcceptedIn;
    i :| 0 <= i < |ops| && AcceptedIn(p, ops, i, w);
    AcceptedInAligned(p, ops, i, w);
  }

  lemma AcceptedInAligned(p: Params, ops: seq<Op>, i: nat, w: real)
    requires p.Valid() && i < |ops| && AcceptedIn(p, ops, i, w)
    ensures Window.Aligned(p.size, w)
  {
    hide Fate;
  }

  lemma {:induction false} CountIsPositive(p: Params, ops: seq<Op>, n: nat, i: nat, w: real)
    requires p.Valid() && i < n <= |ops| && AcceptedIn(p, ops, i, w)
    ensures CountAccepted(p, ops, n, w, w + p.size, false) > 0
  {
    hide Fate;
    if i < n - 1 {
      CountIsPositive(p, ops, n - 1, i, w);
    }
  }

  // ------------------------------------------------------------------
  // Counters
  // ------------------------------------------------------------------

  /** How many events of the first `n` operations meet fate `o`. */
  ghost function CountFates(p: Params, ops: seq<Op>, n: nat, o: Outcome): nat
    requires p.Valid() && n <= |ops|
  {
    if n == 0 then 0
    else CountFates(p, ops, n - 1, o) + if ops[n - 1].Arrive? && Fate(p, ops, n - 1) == o then 1 else 0
  }

  /** How many of the first `n` operations are punctuations, or of those, how many are not above all before. */
  ghost function CountPunctuations(ops: seq<Op>, n: nat, backward: bool): nat
    requires n <= |ops|
  {
    if n == 0 then 0 else
      CountPunctuations(ops, n - 1, backward) +
      if ops[n - 1].Punctuation? && (!backward || !MaxCommit(ops[..n - 1]).Lt(Fin(ops[n - 1].commit))) then 1 else 0
  }

  /** The counters of every run are those of its trace. */
  lemma {:induction false} MetricsByTrace(p: Params, ops: seq<Op>, n: nat)
    requires p.Valid() && n <= |ops|
    ensures var m := Run(p, ops[..n]).metrics;
            && m.onTime == CountFates(p, ops, n, Accepted) && m.lateDropped == CountFates(p, ops, n, Late)
            && m.duplicates == CountFates(p, ops, n, Duplicate)
            && m.backpressureDrops == CountFates(p, ops, n, QueueFull)
            && m.punctuationTotal == CountPunctuations(ops, n, false)
            && m.nonMonotonicPunctuation == CountPunctuations(ops, n, true)
  {
    hide Fate, Step, Classify;
    if n > 0 {
      MetricsByTrace(p, ops, n - 1);
      RunNext(p, ops, n - 1);
      StepMetrics(p, Run(p, ops[..n - 1]), ops[n - 1]);
      LastCommitIsMax(p, ops[..n - 1]);
      if ops[n - 1].Arrive? {
        FateIsVerdict(p, ops, n - 1);
      }
    }
  }
}
