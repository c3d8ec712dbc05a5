/** The id filter that forgets after 60 seconds against one that never forgets. */
module StrictTwoRuns {
  import opened Extended
  import opened StrictRuns
  import opened StrictSpec
  import Window

  // ------------------------------------------------------------------
  // Forgetting ids after 60 seconds is as good as never forgetting them
  // ------------------------------------------------------------------

  /** The same engine without purging. */
  ghost function StepKeeping(p: Params, s: State, op: Op): State
    requires p.Valid()
  {
    match op
    case Arrive(e, queueLen, _) => Process(p, s, e, queueLen, false)
    case Checkpoint => s
    case _ => Step(p, s, op)
  }

  ghost function RunKeeping(p: Params, ops: seq<Op>): State
    requires p.Valid()
  {
    if ops == [] then INIT else StepKeeping(p, RunKeeping(p, ops[..|ops| - 1]), ops[|ops| - 1])
  }

  /** An id always comes with the same event time. */
  ghost predicate TimesFixed(timeOf: string -> real, ops: seq<Op>) {
    forall i | 0 <= i < |ops| && ops[i].Arrive? :: ops[i].e.time == timeOf(ops[i].e.id)
  }

  predicate MayPurge(op: Op) {
    op.Checkpoint? || (op.Arrive? && op.checkpointDue)
  }

  /** No checkpoint before the first punctuation, that is, while the watermark is minus infinity. */
  ghost predicate PurgesAfterPunctuation(ops: seq<Op>) {
    forall i | 0 <= i < |ops| && MayPurge(ops[i]) :: MaxCommit(ops[..i]).Fin?
  }

  /** No checkpoint falls between hearing a global watermark ahead of the local one and the next advance. A
      purge that comes with an accepted event follows the advance by itself. */
  ghost predicate PurgesLocally(p: Params, ops: seq<Op>)
    requires p.Valid()
  {
    forall i | 0 <= i < |ops| && ops[i].Checkpoint? ::
      Run(p, ops[..i]).watermark == Run(p, ops[..i]).localWatermark
  }

  /** Equal up to remembered ids; an id that only `k` remembers belongs to a window that is shut. */
  ghost predicate Fewer(p: Params, timeOf: string -> real, s: State, k: State)
    requires p.Valid()
  {
    && Erase(s) == Erase(k)
    && s.seen.Keys <= k.seen.Keys
    && (forall id :: id in s.seen ==> s.seen[id] == timeOf(id))
    && (forall id :: id in k.seen ==> k.seen[id] == timeOf(id))
    && (forall id :: id in k.seen && id !in s.seen ==> Shut(p, k, Window.Start(p.size, timeOf(id))))
  }

  lemma TimesFixedPrefix(timeOf: string -> real, ops: seq<Op>, n: nat)
    requires TimesFixed(timeOf, ops) && n <= |ops|
    ensures TimesFixed(timeOf, ops[..n])
  {
  }

  lemma PurgesPrefix(ops: seq<Op>, n: nat)
    requires PurgesAfterPunctuation(ops) && n <= |ops|
    ensures PurgesAfterPunctuation(ops[..n])
  {
    forall i | 0 <= i < n && MayPurge(ops[..n][i]) ensures MaxCommit(ops[..n][..i]).Fin? {
      assert ops[..n][..i] == ops[..i];
    }
  }

  lemma LocallyPrefix(p: Params, ops: seq<Op>, n: nat)
    requires p.Valid() && PurgesLocally(p, ops) && n <= |ops|
    ensures PurgesLocally(p, ops[..n])
  {
    hide Run;
    forall i | 0 <= i < n && ops[..n][i].Checkpoint?
      ensures Run(p, ops[..n][..i]).watermark == Run(p, ops[..n][..i]).localWatermark
    {
      assert ops[..n][..i] == ops[..i];
    }
  }

  /** What the two engines of `Fewer` share. */
  lemma FewerShares(p: Params, timeOf: string -> real, s: State, k: State)
    requires p.Valid() && Fewer(p, timeOf, s, k)
    ensures s.watermark == k.watermark && s.localWatermark == k.localWatermark && s.lastCommit == k.lastCommit
    ensures s.maxEventTime == k.maxEventTime && s.open == k.open && s.closed == k.closed
  {
    var z := Erase(s);
    assert z.watermark == s.watermark && z.localWatermark == s.localWatermark && z.lastCommit == s.lastCommit;
    assert z.maxEventTime == s.maxEventTime && z.open == s.open && z.closed == s.closed;
  }

  lemma SameFate(p: Params, timeOf: string -> real, s: State, k: State, e: Event, queueLen: int)
    requires p.Valid() && Led(p, k) && Fewer(p, timeOf, s, k) && e.time == timeOf(e.id)
    ensures Classify(p, s, e, queueLen) == Classify(p, k, e, queueLen)
  {
    FewerShares(p, timeOf, s, k);
    ShutIsLate(p, k, e.time);
    hide Led, Shut, Erase;
  }

  lemma QuietSteps(p: Params, timeOf: string -> real, s: State, k: State, op: Op)
    requires p.Valid() && Led(p, k) && Fewer(p, timeOf, s, k) && !MayPurge(op)
    requires op.Arrive? ==> op.e.time == timeOf(op.e.id)
    ensures Erase(Step(p, s, op)) == Erase(Step(p, k, op)) && StepKeeping(p, k, op) == Step(p, k, op)
    ensures if op.Arrive? && Classify(p, k, op.e, op.queueLen) == Accepted
            then && Step(p, s, op).seen == s.seen[op.e.id := op.e.time]
                 && Step(p, k, op).seen == k.seen[op.e.id := op.e.time]
            else Step(p, s, op).seen == s.seen && Step(p, k, op).seen == k.seen
  {
    hide Step, Classify, Led, Fewer;
    if op.Arrive? {
      SameFate(p, timeOf, s, k, op.e, op.queueLen);
    }
    SameErasure(p, timeOf, s, k);
    StepErased(p, s, op);
    StepErased(p, k, op);
    StepSeenExactly(p, s, op);
    StepSeenExactly(p, k, op);
  }

  lemma SameErasure(p: Params, timeOf: string -> real, s: State, k: State)
    requires p.Valid() && Fewer(p, timeOf, s, k)
    ensures Erase(s) == Erase(k)
  {
  }

  /** A step that does not purge. */
  lemma FewerAfterQuietStep(p: Params, timeOf: string -> real, s: State, k: State, op: Op)
    requires p.Valid() && Led(p, k) && Fewer(p, timeOf, s, k) && !MayPurge(op)
    requires op.Arrive? ==> op.e.time == timeOf(op.e.id)
    ensures Fewer(p, timeOf, Step(p, s, op), Step(p, k, op)) && StepKeeping(p, k, op) == Step(p, k, op)
  {
    hide Step, Classify, Led, Shut, Window.Start;
    QuietSteps(p, timeOf, s, k, op);
    forall id | id in k.seen && id !in s.seen ensures Shut(p, Step(p, k, op), Window.Start(p.size, timeOf(id))) {
      ShutForGood(p, k, op, Window.Start(p.size, timeOf(id)));
    }
  }

  /** Purging one engine of the two is harmless when the dropped ids belong to shut windows. */
  lemma FewerAfterOnePurge(p: Params, timeOf: string -> real, s: State, k: State)
    requires p.Valid() && Fewer(p, timeOf, s, k)
    requires forall id :: id in Expired(s) ==> Shut(p, k, Window.Start(p.size, timeOf(id)))
    ensures Fewer(p, timeOf, Purge(s), k)
  {
    assert Erase(Purge(s)) == Erase(s);
    hide Shut, Window.Start;
  }

  /** After a minute the window of an event of at most a minute has been passed. */
  lemma ExpiredIsShut(p: Params, timeOf: string -> real, s: State, k: State)
    requires p.Valid() && p.size <= DEDUP_TTL && Fewer(p, timeOf, s, k)
    requires s.watermark.Fin? && s.watermark == s.localWatermark
    ensures forall id :: id in Expired(s) ==> Shut(p, k, Window.Start(p.size, timeOf(id)))
  {
    FewerShares(p, timeOf, s, k);
  }

  lemma StepForgets(p: Params, timeOf: string -> real, s: State, k: State, op: Op)
    requires p.Valid() && p.size <= DEDUP_TTL && Led(p, k) && Fewer(p, timeOf, s, k)
    requires op.Arrive? ==> op.e.time == timeOf(op.e.id)
    requires MayPurge(op) ==> s.localWatermark.Fin?
    requires op.Checkpoint? ==> s.watermark == s.localWatermark
    ensures Fewer(p, timeOf, Step(p, s, op), StepKeeping(p, k, op))
  {
    if op.Checkpoint? {
      ExpiredIsShut(p, timeOf, s, k);
      FewerAfterOnePurge(p, timeOf, s, k);
    } else if MayPurge(op) {
      var quiet := op.(checkpointDue := false);
      FewerAfterQuietStep(p, timeOf, s, k, quiet);
      PurgeLast(p, s, op);
      assert StepKeeping(p, k, op) == StepKeeping(p, k, quiet);
      hide Step, StepKeeping, Classify, Led, Shut, Fewer, Purge;
      var s', k' := Step(p, s, quiet), Step(p, k, quiet);
      if Classify(p, s, op.e, op.queueLen) == Accepted {
        SameFate(p, timeOf, s, k, op.e, op.queueLen);
        assert Advances(p, k, quiet);
        AdvancingStepLed(p, k, quiet);
        FewerShares(p, timeOf, s, k);
        FewerShares(p, timeOf, s', k');
        ExpiredIsShut(p, timeOf, s', k');
        FewerAfterOnePurge(p, timeOf, s', k');
      }
    } else {
      FewerAfterQuietStep(p, timeOf, s, k, op);
    }
  }

  lemma {:induction false} KeepingLed(p: Params, timeOf: string -> real, s: State, k: State)
    requires p.Valid() && Led(p, s) && Fewer(p, timeOf, s, k)
    ensures Led(p, k)
  {
    FewerShares(p, timeOf, s, k);
    hide Fewer;
  }

  lemma {:induction false} RunsForget(p: Params, timeOf: string -> real, ops: seq<Op>)
    requires p.Valid() && p.size <= DEDUP_TTL && TimesFixed(timeOf, ops)
    requires PurgesAfterPunctuation(ops) && PurgesLocally(p, ops)
    ensures Fewer(p, timeOf, Run(p, ops), RunKeeping(p, ops))
  {
    if ops != [] {
      var n := |ops| - 1;
      var s, k := Run(p, ops[..n]), RunKeeping(p, ops[..n]);
      TimesFixedPrefix(timeOf, ops, n);
      PurgesPrefix(ops, n);
      LocallyPrefix(p, ops, n);
      RunsForget(p, timeOf, ops[..n]);
      LocalFollowsCommit(p, ops[..n]);
      LastCommitIsMax(p, ops[..n]);
      assert MayPurge(ops[n]) ==> s.localWatermark.Fin?;
      hide Step, StepKeeping, Fewer, Led;
      KeepingLed(p, timeOf, s, k);
      StepForgets(p, timeOf, s, k, ops[n]);
    }
  }

  /** What an event does to the remembered ids. */
  lemma SeenAfter(p: Params, s: State, e: Event, queueLen: int)
    requires p.Valid()
    ensures Process(p, s, e, queueLen, false).seen ==
            if Classify(p, s, e, queueLen) == Accepted then s.seen[e.id := e.time] else s.seen
  {
  }

  ghost function Erase(s: State): State {
    s.(seen := map[])
  }

  lemma CloseErased(p: Params, s: State, ws: set<real>)
    requires ws <= s.open.Keys
    ensures Erase(Close(p, s, ws)) == Close(p, Erase(s), ws)
  {
  }

  /** The state after a step, up to remembered ids, from the state before it and the verdict. */
  ghost function ErasedStep(p: Params, z: State, op: Op, o: Outcome): State
    requires p.Valid()
  {
    match op
    case Arrive(e, _, _) =>
      var m := z.metrics.(totalReceived := z.metrics.totalReceived + 1);
      (match o
       case QueueFull => z.(metrics := m.(backpressureDrops := m.backpressureDrops + 1))
       case Late => z.(metrics := m.(lateDropped := m.lateDropped + 1))
       case Duplicate => z.(metrics := m.(duplicates := m.duplicates + 1))
       case Accepted => Advance(p, Erase(Accept(p, z.(metrics := m), e))))
    case Punctuation(commit) => Punctuate(p, z, commit)
    case Checkpoint => z
    case FlushAll => Flush(p, z)
    case Hear(g) => z.(watermark := z.watermark.Max(g))
  }

  ghost function Verdict(p: Params, s: State, op: Op): Outcome
    requires p.Valid()
  {
    if op.Arrive? then Classify(p, s, op.e, op.queueLen) else Accepted
  }

  lemma AdvanceErased(p: Params, s: State)
    ensures Erase(Advance(p, s)) == Advance(p, Erase(s))
  {
    hide Close;
    CloseErased(p, s.(watermark := s.localWatermark), Closing(p, s.open, s.localWatermark));
  }

  lemma ProcessErased(p: Params, s: State, e: Event, queueLen: int, due: bool)
    requires p.Valid()
    ensures Erase(Process(p, s, e, queueLen, due)) ==
            ErasedStep(p, Erase(s), Arrive(e, queueLen, due), Classify(p, s, e, queueLen))
  {
    hide Advance, Accept, Expired, IsLate;
    var r := s.(metrics := s.metrics.(totalReceived := s.metrics.totalReceived + 1));
    SameVerdict(p, s, e, queueLen);
    if Classify(p, r, e, queueLen) == Accepted {
      AcceptErased(p, r, e);
      AdvanceErased(p, Accept(p, r, e));
    }
  }

  lemma AcceptErased(p: Params, s: State, e: Event)
    requires p.Valid()
    ensures Erase(Accept(p, s, e)) == Erase(Accept(p, Erase(s), e))
  {
    hide CountEvent, Window.Start;
  }

  /** The verdict on an event does not look at the counters. */
  lemma SameVerdict(p: Params, s: State, e: Event, queueLen: int)
    requires p.Valid()
    ensures var r := s.(metrics := s.metrics.(totalReceived := s.metrics.totalReceived + 1));
            Classify(p, s, e, queueLen) == Classify(p, r, e, queueLen)
  {
    hide Window.Start;
  }

  lemma StepErased(p: Params, s: State, op: Op)
    requires p.Valid()
    ensures Erase(Step(p, s, op)) == Erase(StepKeeping(p, s, op)) == ErasedStep(p, Erase(s), op, Verdict(p, s, op))
  {
    hide Advance, Expired, Close, Process;
    match op
    case Arrive(e, queueLen, due) =>
      ProcessErased(p, s, e, queueLen, due);
      ProcessErased(p, s, e, queueLen, false);
    case Punctuation(commit) =>
      AdvanceErased(p, s.(metrics := s.metrics.(punctuationTotal := s.metrics.punctuationTotal + 1),
                          lastCommit := Fin(commit), localWatermark := Fin(commit - p.delta)));
    case Checkpoint =>
    case Hear(_) =>
    case FlushAll => CloseErased(p, s, s.open.Keys);
  }

  lemma StepSeenExactly(p: Params, s: State, op: Op)
    requires p.Valid() && !MayPurge(op)
    ensures Step(p, s, op).seen == StepKeeping(p, s, op).seen ==
            if op.Arrive? && Classify(p, s, op.e, op.queueLen) == Accepted then s.seen[op.e.id := op.e.time] else s.seen
  {
  }

  /** A purge that comes with an event comes last. */
  lemma PurgeLast(p: Params, s: State, op: Op)
    requires p.Valid() && op.Arrive? && op.checkpointDue
    ensures var s' := Step(p, s, op.(checkpointDue := false));
            Step(p, s, op) == if Classify(p, s, op.e, op.queueLen) == Accepted then Purge(s') else s'
  {
    hide Advance, Accept, Purge;
  }

  /** Every event of every run meets the same fate with and without purging, and the engines agree on
      everything but the remembered ids. */
  lemma BoundedDedupIsExact(p: Params, timeOf: string -> real, ops: seq<Op>, e: Event, queueLen: int)
    requires p.Valid() && p.size <= DEDUP_TTL && TimesFixed(timeOf, ops) && e.time == timeOf(e.id)
    requires PurgesAfterPunctuation(ops) && PurgesLocally(p, ops)
    ensures Classify(p, Run(p, ops), e, queueLen) == Classify(p, RunKeeping(p, ops), e, queueLen)
    ensures Erase(Run(p, ops)) == Erase(RunKeeping(p, ops))
  {
    RunsForget(p, timeOf, ops);
    LocalFollowsCommit(p, ops);
    KeepingLed(p, timeOf, Run(p, ops), RunKeeping(p, ops));
    hide Run, RunKeeping, Led;
    SameFate(p, timeOf, Run(p, ops), RunKeeping(p, ops), e, queueLen);
  }

  // ------------------------------------------------------------------
  // The ids a run accepts
  // ------------------------------------------------------------------

  ghost function AcceptedIds(p: Params, ops: seq<Op>): set<string>
    requires p.Valid()
  {
    if ops == [] then {} else
      var rest := AcceptedIds(p, ops[..|ops| - 1]);
      var op := ops[|ops| - 1];
      if op.Arrive? && LastOutcome(p, ops) == Accepted then rest + {op.e.id} else rest
  }

  lemma {:induction false} SeenWereAccepted(p: Params, ops: seq<Op>)
    requires p.Valid()
    ensures Run(p, ops).seen.Keys <= AcceptedIds(p, ops)
  {
    if ops != [] {
      var n := |ops| - 1;
      SeenWereAccepted(p, ops[..n]);
      StepSeen(p, Run(p, ops[..n]), ops[n]);
    }
  }

  lemma StepSeen(p: Params, s: State, op: Op)
    requires p.Valid()
    ensures Step(p, s, op).seen.Keys <= s.seen.Keys +
              if op.Arrive? && Classify(p, s, op.e, op.queueLen) == Accepted then {op.e.id} else {}
  {
  }

  /** With a fixed time per id and purges only after a punctuation, `on_time` counts distinct ids. */
  lemma {:induction false} OnTimeCountsIds(p: Params, timeOf: string -> real, ops: seq<Op>)
    requires p.Valid() && p.size <= DEDUP_TTL && TimesFixed(timeOf, ops)
    requires PurgesAfterPunctuation(ops) && PurgesLocally(p, ops)
    ensures CountOutcomes(p, ops, Accepted) == |AcceptedIds(p, ops)|
    ensures RunKeeping(p, ops).seen.Keys == AcceptedIds(p, ops)
  {
    if ops != [] {
      var n := |ops| - 1;
      TimesFixedPrefix(timeOf, ops, n);
      PurgesPrefix(ops, n);
      LocallyPrefix(p, ops, n);
      OnTimeCountsIds(p, timeOf, ops[..n]);
      RunsForget(p, timeOf, ops[..n]);
      var k := RunKeeping(p, ops[..n]);
      LocalFollowsCommit(p, ops[..n]);
      KeepingLed(p, timeOf, Run(p, ops[..n]), k);
      KeepingAddsId(p, timeOf, Run(p, ops[..n]), k, ops[n]);
      hide Classify, Led, Fewer, StepKeeping, PurgesAfterPunctuation, PurgesLocally, TimesFixed;
    }
  }

  /** The engine that never forgets remembers one id more for every event that the other accepts. */
  lemma KeepingAddsId(p: Params, timeOf: string -> real, s: State, k: State, op: Op)
    requires p.Valid() && Led(p, k) && Fewer(p, timeOf, s, k) && (op.Arrive? ==> op.e.time == timeOf(op.e.id))
    ensures if op.Arrive? && Classify(p, s, op.e, op.queueLen) == Accepted
            then op.e.id !in k.seen && StepKeeping(p, k, op).seen.Keys == k.seen.Keys + {op.e.id}
            else StepKeeping(p, k, op).seen == k.seen
  {
    hide Led, Fewer, Process, IsLate;
    if op.Arrive? {
      SameFate(p, timeOf, s, k, op.e, op.queueLen);
      SeenAfter(p, k, op.e, op.queueLen);
    } else {
      KeepingSeen(p, k, op);
    }
  }

  lemma KeepingSeen(p: Params, k: State, op: Op)
    requires p.Valid() && !op.Arrive?
    ensures StepKeeping(p, k, op).seen == k.seen
  {
  }
}
