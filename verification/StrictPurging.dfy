/** When purging remembered ids is harmless, and when it is not. */
module StrictPurging {
  import opened Extended
  import opened StrictBroadcast
  import opened StrictRuns
  import opened StrictSpec
  import opened StrictTwoRuns
  import Window

  // ------------------------------------------------------------------
  // Two ways to count an event twice
  // ------------------------------------------------------------------

  /** A checkpoint before any punctuation can forget an id whose window is still open: the duplicate
      of `a` is counted twice. */
  lemma EarlyPurgeCountsTwice() returns (p: Params, ops: seq<Op>)
    ensures p.Valid() && p.size <= DEDUP_TTL && !PurgesAfterPunctuation(ops)
    ensures |ops| == 4 && ops[0] == ops[3] && ops[0].Arrive?
    ensures LastOutcome(p, ops[..1]) == Accepted && LastOutcome(p, ops) == Accepted
  {
    p := Params(5.0, 10.0, 500, 0);
    var a, b := Event("a", 0.0, 200), Event("b", 100.0, 200);
    var trace := [Arrive(a, 0, false), Arrive(b, 0, false), Checkpoint];
    ops := trace + [trace[0]];
    NoWatermarkAccepts(p, a, b);
    ThreeSteps(p, trace[0], trace[1], trace[2]);
    EarlyTracePurges(a, b);
    EmptyRun(p);
    hide Classify, Run, Process, Purge, PurgesAfterPunctuation;
    assert ops[..3] == trace && ops[..1][..0] == [];
  }

  lemma EarlyTracePurges(a: Event, b: Event)
    ensures !PurgesAfterPunctuation([Arrive(a, 0, false), Arrive(b, 0, false), Checkpoint] + [Arrive(a, 0, false)])
  {
    var ops := [Arrive(a, 0, false), Arrive(b, 0, false), Checkpoint] + [Arrive(a, 0, false)];
    assert MayPurge(ops[2]) && ops[..2][..1] == ops[..1] && ops[..1][..0] == [];
    assert MaxCommit(ops[..0]) == MaxCommit(ops[..1]) == MaxCommit(ops[..2]) == NegInf;
  }

  lemma NoWatermarkAccepts(p: Params, a: Event, b: Event)
    requires p.Valid() && p.maxQueue >= 0 && a.id != b.id && b.time - DEDUP_TTL > a.time
    ensures var s1 := Process(p, INIT, a, 0, false);
            var s2 := Process(p, s1, b, 0, false);
            var s3 := Purge(s2);
            Classify(p, INIT, a, 0) == Accepted && Classify(p, s3, a, 0) == Accepted
  {
    assert Led(p, INIT) && Classify(p, INIT, a, 0) == Accepted;
    AcceptQuietly(p, INIT, a, 0);
    StepLed(p, INIT, Arrive(a, 0, false));
    var s1 := Process(p, INIT, a, 0, false);
    hide Process, Window.Start;
    assert Classify(p, s1, b, 0) == Accepted;
    AcceptQuietly(p, s1, b, 0);
    assert a.id in Expired(Process(p, s1, b, 0, false));
  }

  /** The punctuation that puts the watermark halfway between 60 s and the window's end. */
  function Halfway(p: Params): real {
    p.delta + (DEDUP_TTL + p.size) / 2.0
  }

  /** An event at time zero, that punctuation, and a checkpoint. */
  ghost function LongTrace(p: Params, a: Event): (ops: seq<Op>)
    ensures |ops| == 3
  {
    [Arrive(a, p.maxQueue, false), Punctuation(Halfway(p)), Checkpoint]
  }

  lemma AcceptAtZero(p: Params, a: Event)
    requires p.Valid() && p.size > DEDUP_TTL && a.time == 0.0
    ensures var s := Punctuate(p, Process(p, INIT, a, p.maxQueue, false), Halfway(p));
            && Classify(p, INIT, a, p.maxQueue) == Accepted
            && a.id in Expired(s)
            && Classify(p, Purge(s), a, p.maxQueue) == Accepted && Classify(p, s, a, p.maxQueue) == Duplicate
  {
    assert 0.0 == Window.Nth(p.size, 0);
    Window.StartUnique(p.size, 0.0, 0.0);
    assert Led(p, INIT) && Classify(p, INIT, a, p.maxQueue) == Accepted;
    AcceptQuietly(p, INIT, a, p.maxQueue);
    AcceptOpens(p, INIT, a, p.maxQueue);
    hide Process, Punctuate, Window.Start;
    PunctuateQuietly(p, Process(p, INIT, a, p.maxQueue, false), Halfway(p));
  }

  lemma AcceptOpens(p: Params, s: State, e: Event, queueLen: int)
    requires p.Valid() && Classify(p, s, e, queueLen) == Accepted
    ensures Process(p, s, e, queueLen, false).open.Keys <= s.open.Keys + {StartOf(p, e)}
  {
    hide Results;
  }

  lemma LongTraceRuns(p: Params, a: Event)
    requires p.Valid() && p.size > DEDUP_TTL && a.time == 0.0
    ensures Classify(p, INIT, a, p.maxQueue) == Accepted
    ensures Classify(p, Run(p, LongTrace(p, a)), a, p.maxQueue) == Accepted
    ensures Classify(p, RunKeeping(p, LongTrace(p, a)), a, p.maxQueue) == Duplicate
  {
    AcceptAtZero(p, a);
    ThreeSteps(p, Arrive(a, p.maxQueue, false), Punctuation(Halfway(p)), Checkpoint);
    hide Process, Punctuate, Purge, Classify, Run, RunKeeping, Halfway;
  }

  lemma ThreeSteps(p: Params, a: Op, b: Op, c: Op)
    requires p.Valid()
    ensures Run(p, [a, b, c]) == Step(p, Step(p, Step(p, INIT, a), b), c)
    ensures RunKeeping(p, [a, b, c]) == StepKeeping(p, StepKeeping(p, StepKeeping(p, INIT, a), b), c)
  {
    hide Step, StepKeeping;
    assert [a][..0] == [] && [a, b][..1] == [a] && [a, b, c][..2] == [a, b];
    assert Run(p, [a]) == Step(p, INIT, a) && RunKeeping(p, [a]) == StepKeeping(p, INIT, a);
    assert Run(p, [a, b]) == Step(p, Run(p, [a]), b) && RunKeeping(p, [a, b]) == StepKeeping(p, RunKeeping(p, [a]), b);
  }

  /** With windows longer than 60 s, purging after a punctuation can forget an id whose window is still
      open: any event at time zero can be accepted twice. */
  lemma LongWindowCountsTwice(p: Params, a: Event) returns (ops: seq<Op>)
    requires p.Valid() && p.size > DEDUP_TTL && a.time == 0.0
    ensures TimesFixed(id => 0.0, ops) && PurgesAfterPunctuation(ops) && PurgesLocally(p, ops)
    ensures |ops| == 4 && ops[0] == ops[3] == Arrive(a, p.maxQueue, false)
    ensures LastOutcome(p, ops[..1]) == Accepted && LastOutcome(p, ops) == Accepted
  {
    var trace := LongTrace(p, a);
    ops := trace + [trace[0]];
    LongTraceRuns(p, a);
    LongTracePurges(p, a);
    hide Classify, Run;
    assert ops[..3] == trace && ops[..2] == trace[..2];
    assert ops[..1][..0] == [] && Run(p, []) == INIT by { EmptyRun(p); }
  }

  lemma LongTracePurges(p: Params, a: Event)
    requires p.Valid()
    ensures PurgesAfterPunctuation(LongTrace(p, a)) && PurgesLocally(p, LongTrace(p, a))
    ensures MaxCommit(LongTrace(p, a)[..2]).Fin?
  {
    var ops := LongTrace(p, a);
    assert ops[..2][..1] == ops[..1];
    hide Run;
    WatermarkFollowsCommit(p, ops[..2]);
  }

  /** The bounded filter is as good as an unbounded one, for every run with one time per id and purges only
      after a punctuation and under the local watermark, exactly when windows are at most 60 s long. */
  lemma BoundedDedupIff(p: Params)
    requires p.Valid()
    ensures (forall timeOf: string -> real, ops: seq<Op>, e: Event, queueLen: int
               {:trigger TimesFixed(timeOf, ops), Classify(p, Run(p, ops), e, queueLen)} ::
               && TimesFixed(timeOf, ops) && PurgesAfterPunctuation(ops) && PurgesLocally(p, ops)
               && e.time == timeOf(e.id) ==>
                 Classify(p, Run(p, ops), e, queueLen) == Classify(p, RunKeeping(p, ops), e, queueLen))
            <==> p.size <= DEDUP_TTL
  {
    if p.size <= DEDUP_TTL {
      forall timeOf: string -> real, ops: seq<Op>, e: Event, queueLen: int
        {:trigger TimesFixed(timeOf, ops), Classify(p, Run(p, ops), e, queueLen)}
        | TimesFixed(timeOf, ops) && PurgesAfterPunctuation(ops) && PurgesLocally(p, ops) && e.time == timeOf(e.id)
        ensures Classify(p, Run(p, ops), e, queueLen) == Classify(p, RunKeeping(p, ops), e, queueLen)
      {
        BoundedDedupIsExact(p, timeOf, ops, e, queueLen);
      }
    } else {
      var a := Event("a", 0.0, 200);
      LongTraceRuns(p, a);
      LongTracePurges(p, a);
      hide Run, RunKeeping, Classify;
      assert TimesFixed(id => 0.0, LongTrace(p, a));
      assert Classify(p, Run(p, LongTrace(p, a)), a, p.maxQueue) == Accepted;
    }
  }

  // ------------------------------------------------------------------
  // One purge, and everything after it
  // ------------------------------------------------------------------

  lemma FewerAfterPurge(p: Params, timeOf: string -> real, s: State, k: State)
    requires p.Valid() && Fewer(p, timeOf, s, k)
    ensures Fewer(p, timeOf, Purge(s), Purge(k))
  {
    FewerShares(p, timeOf, s, k);
    assert Erase(Purge(s)) == Erase(s) && Erase(Purge(k)) == Erase(k);
    forall w ensures Shut(p, Purge(k), w) == Shut(p, k, w) {
    }
    hide Shut, Window.Start, Erase;
  }

  lemma FewerAfterStep(p: Params, timeOf: string -> real, s: State, k: State, op: Op)
    requires p.Valid() && Led(p, k) && Fewer(p, timeOf, s, k)
    requires op.Arrive? ==> op.e.time == timeOf(op.e.id)
    ensures Fewer(p, timeOf, Step(p, s, op), Step(p, k, op))
  {
    if op.Checkpoint? {
      FewerAfterPurge(p, timeOf, s, k);
    } else if MayPurge(op) {
      var quiet := op.(checkpointDue := false);
      FewerAfterQuietStep(p, timeOf, s, k, quiet);
      SameFate(p, timeOf, s, k, op.e, op.queueLen);
      PurgeLast(p, s, op);
      PurgeLast(p, k, op);
      hide Step, Fewer, Classify, Purge;
      FewerAfterPurge(p, timeOf, Step(p, s, quiet), Step(p, k, quiet));
    } else {
      FewerAfterQuietStep(p, timeOf, s, k, op);
    }
  }

  lemma {:induction false} FewerForGood(p: Params, timeOf: string -> real, ops: seq<Op>, cont: seq<Op>)
    requires p.Valid() && TimesFixed(timeOf, cont)
    requires Fewer(p, timeOf, Run(p, ops + [Checkpoint]), Run(p, ops))
    ensures Fewer(p, timeOf, Run(p, ops + [Checkpoint] + cont), Run(p, ops + cont))
  {
    hide Fewer, Step, Led;
    if cont == [] {
      assert ops + [Checkpoint] + cont == ops + [Checkpoint] && ops + cont == ops;
    } else {
      var n := |cont| - 1;
      var before, last := cont[..n], cont[n];
      assert cont == before + [last];
      FewerForGood(p, timeOf, ops, before);
      LocalFollowsCommit(p, ops + before);
      FewerAfterStep(p, timeOf, Run(p, ops + [Checkpoint] + before), Run(p, ops + before), last);
      assert ops + cont == ops + before + [last];
      assert ops + [Checkpoint] + cont == ops + [Checkpoint] + before + [last];
      RunSnoc(p, ops + before, last);
      RunSnoc(p, ops + [Checkpoint] + before, last);
    }
  }

  lemma {:induction false} SeenTimes(p: Params, timeOf: string -> real, ops: seq<Op>)
    requires p.Valid() && TimesFixed(timeOf, ops)
    ensures forall id :: id in Run(p, ops).seen ==> Run(p, ops).seen[id] == timeOf(id)
  {
    if ops != [] {
      var n := |ops| - 1;
      TimesFixedPrefix(timeOf, ops, n);
      SeenTimes(p, timeOf, ops[..n]);
      hide Step;
      StepSeen(p, Run(p, ops[..n]), ops[n]);
    }
  }

  /** When a dropped id belongs to a window that is not shut, the next punctuation can open that window up
      again, and the purged engine then accepts the event a second time. */
  lemma PurgeHarms(p: Params, timeOf: string -> real, ops: seq<Op>, id: string)
    requires p.Valid() && id in Expired(Run(p, ops)) && !Shut(p, Run(p, ops), Window.Start(p.size, timeOf(id)))
    ensures var op := Punctuation(Between(p, Run(p, ops), Window.Start(p.size, timeOf(id))));
            var e := Event(id, timeOf(id), 200);
            && Classify(p, Run(p, ops + [Checkpoint] + [op]), e, p.maxQueue) == Accepted
            && Classify(p, Run(p, ops + [op]), e, p.maxQueue) == Duplicate
  {
    var s := Run(p, ops);
    var w := Window.Start(p.size, timeOf(id));
    LocalFollowsCommit(p, ops);
    Reopens(p, s, w);
    assert Led(p, Purge(s)) && !Shut(p, Purge(s), w) && Between(p, Purge(s), w) == Between(p, s, w);
    Reopens(p, Purge(s), w);
    RunSnoc(p, ops, Checkpoint);
    RunSnoc(p, ops, Punctuation(Between(p, s, w)));
    RunSnoc(p, ops + [Checkpoint], Punctuation(Between(p, s, w)));
    hide Run, Punctuate, Led, Shut, Between;
  }

  /** At any moment of any run, a purge changes no verdict from then on, whatever follows and whatever is heard,
      if and only if every id it drops belongs to a window that is closed or that the local watermark has
      passed. */
  lemma PurgeHarmlessIff(p: Params, timeOf: string -> real, ops: seq<Op>)
    requires p.Valid() && TimesFixed(timeOf, ops)
    ensures (forall cont: seq<Op>, e: Event, queueLen: int
               {:trigger Classify(p, Run(p, ops + cont), e, queueLen)} ::
               TimesFixed(timeOf, cont) && e.time == timeOf(e.id) ==>
                 Classify(p, Run(p, ops + [Checkpoint] + cont), e, queueLen) ==
                 Classify(p, Run(p, ops + cont), e, queueLen))
            <==> (forall id :: id in Expired(Run(p, ops)) ==> Shut(p, Run(p, ops), Window.Start(p.size, timeOf(id))))
  {
    var s := Run(p, ops);
    SeenTimes(p, timeOf, ops);
    RunSnoc(p, ops, Checkpoint);
    if forall id :: id in Expired(s) ==> Shut(p, s, Window.Start(p.size, timeOf(id))) {
      assert Fewer(p, timeOf, s, s);
      FewerAfterOnePurge(p, timeOf, s, s);
      hide Fewer, Run, Purge, Classify, Led;
      forall cont: seq<Op>, e: Event, queueLen: int {:trigger Classify(p, Run(p, ops + cont), e, queueLen)}
        | TimesFixed(timeOf, cont) && e.time == timeOf(e.id)
        ensures Classify(p, Run(p, ops + [Checkpoint] + cont), e, queueLen) ==
                Classify(p, Run(p, ops + cont), e, queueLen)
      {
        FewerForGood(p, timeOf, ops, cont);
        LocalFollowsCommit(p, ops + cont);
        SameFate(p, timeOf, Run(p, ops + [Checkpoint] + cont), Run(p, ops + cont), e, queueLen);
      }
    } else {
      var id :| id in Expired(s) && !Shut(p, s, Window.Start(p.size, timeOf(id)));
      PurgeHarms(p, timeOf, ops, id);
      hide Run, Classify, Shut, Between;
      var op := Punctuation(Between(p, s, Window.Start(p.size, timeOf(id))));
      assert Classify(p, Run(p, ops + [op]), Event(id, timeOf(id), 200), p.maxQueue) == Duplicate;
    }
  }
}
