/** What hearing the global watermark does to an engine: the next advance takes it back, so only windows that
    the local watermark has passed, or that are closed, stay shut. */
module StrictBroadcast {
  import opened Extended
  import opened StrictClosing
  import opened StrictRuns
  import opened StrictSpec
  import opened StrictTwoRuns
  import Window

  // ------------------------------------------------------------------
  // Two steps that close nothing
  // ------------------------------------------------------------------

  lemma AdvanceQuietly(p: Params, s: State)
    requires forall w :: w in s.open ==> s.localWatermark.Lt(Fin(w + p.size))
    ensures Advance(p, s) == s.(watermark := s.localWatermark)
  {
    hide Close, Closing;
    NoneClosing(p, s.open, s.localWatermark);
    CloseNone(p, s.(watermark := s.localWatermark));
  }

  lemma NoneClosing(p: Params, open: map<real, WindowState>, wm: Ext)
    requires forall w :: w in open ==> wm.Lt(Fin(w + p.size))
    ensures Closing(p, open, wm) == {}
  {
  }

  /** Accepting an event closes no window; it only brings the watermark back to the local one. */
  lemma AcceptQuietly(p: Params, s: State, e: Event, queueLen: int)
    requires p.Valid() && Led(p, s) && Classify(p, s, e, queueLen) == Accepted
    ensures var t := Process(p, s, e, queueLen, false);
            && t.watermark == t.localWatermark == s.localWatermark && t.lastCommit == s.lastCommit
            && t.closed == s.closed && t.seen == s.seen[e.id := e.time]
            && t.maxEventTime == s.maxEventTime.Max(Fin(e.time))
  {
    hide Advance, Window.Start, CountEvent;
    var r := s.(metrics := s.metrics.(totalReceived := s.metrics.totalReceived + 1));
    assert s.localWatermark.Lt(Fin(StartOf(p, e) + p.size));
    AdvanceQuietly(p, Accept(p, r, e));
  }

  /** A larger punctuation that no open window has waited for closes nothing. */
  lemma PunctuateQuietly(p: Params, s: State, commit: real)
    requires p.Valid() && s.lastCommit.Lt(Fin(commit)) && forall w :: w in s.open ==> w + p.size > commit - p.delta
    ensures var t := Punctuate(p, s, commit);
            && t.watermark == t.localWatermark == Fin(commit - p.delta)
            && t.closed == s.closed && t.seen == s.seen
  {
    hide Advance;
    AdvanceQuietly(p, s.(metrics := s.metrics.(punctuationTotal := s.metrics.punctuationTotal + 1),
                         lastCommit := Fin(commit), localWatermark := Fin(commit - p.delta)));
  }

  // ------------------------------------------------------------------
  // Which windows stay shut
  // ------------------------------------------------------------------

  /** A punctuation that is larger than all before but still leaves window `w` ahead of the watermark. */
  function Between(p: Params, s: State, w: real): real {
    match s.lastCommit
    case NegInf => w + p.size + p.delta - 1.0
    case Fin(c) => (c + (w + p.size + p.delta)) / 2.0
  }

  lemma BetweenIs(p: Params, s: State, w: real)
    requires p.Valid() && Led(p, s) && !Shut(p, s, w)
    ensures s.lastCommit.Lt(Fin(Between(p, s, w))) && Between(p, s, w) - p.delta < w + p.size
  {
  }

  lemma PunctuateWindows(p: Params, s: State, commit: real)
    requires p.Valid() && s.lastCommit.Lt(Fin(commit))
    ensures var t := Punctuate(p, s, commit);
            && t.watermark == Fin(commit - p.delta) && t.seen == s.seen
            && (forall w :: w in t.closed ==> w in s.closed || w + p.size <= commit - p.delta)
  {
    var r := s.(metrics := s.metrics.(punctuationTotal := s.metrics.punctuationTotal + 1),
                lastCommit := Fin(commit), localWatermark := Fin(commit - p.delta));
    hide Advance;
    AdvanceClosed(p, r, commit - p.delta);
  }

  /** After such a punctuation the watermark is the local one again, and `w` takes events unless it is closed. */
  lemma Reopens(p: Params, s: State, w: real)
    requires p.Valid() && Led(p, s) && !Shut(p, s, w)
    ensures var t := Punctuate(p, s, Between(p, s, w));
            t.watermark.Lt(Fin(w + p.size)) && w !in t.closed && t.seen == s.seen
  {
    BetweenIs(p, s, w);
    PunctuateWindows(p, s, Between(p, s, w));
    hide Punctuate, Between, Led;
  }

  lemma AdvanceClosed(p: Params, s: State, limit: real)
    requires s.localWatermark == Fin(limit)
    ensures var t := Advance(p, s);
            && t.watermark == Fin(limit) && t.seen == s.seen
            && (forall w :: w in t.closed ==> w in s.closed || w + p.size <= limit)
  {
    hide Close, Closing;
    ClosingPassed(p, s.open, limit);
    CloseClosed(p, s.(watermark := s.localWatermark), Closing(p, s.open, s.localWatermark));
  }

  lemma ClosingPassed(p: Params, open: map<real, WindowState>, limit: real)
    ensures Closing(p, open, Fin(limit)) <= open.Keys
    ensures forall w :: w in Closing(p, open, Fin(limit)) ==> w + p.size <= limit
  {
  }

  lemma CloseClosed(p: Params, s: State, ws: set<real>)
    requires ws <= s.open.Keys
    ensures var t := Close(p, s, ws);
            t.watermark == s.watermark && t.seen == s.seen && forall w :: w in t.closed ==> w in s.closed || w in ws
  {
    hide Results, ResultOf;
  }

  lemma {:induction false} ShutForever(p: Params, ops: seq<Op>, cont: seq<Op>, w: real)
    requires p.Valid() && Shut(p, Run(p, ops), w)
    ensures Shut(p, Run(p, ops + cont), w)
  {
    hide Shut, Step;
    if cont == [] {
      assert ops + cont == ops;
    } else {
      var n := |cont| - 1;
      assert ops + cont == ops + cont[..n] + [cont[n]];
      ShutForever(p, ops, cont[..n], w);
      LocalFollowsCommit(p, ops + cont[..n]);
      RunSnoc(p, ops + cont[..n], cont[n]);
      ShutForGood(p, Run(p, ops + cont[..n]), cont[n], w);
    }
  }

  /** An event is late now and at every later moment, whatever is heard or happens, if and only if its window
      is closed or the local watermark has passed it. A global watermark heard is not enough. */
  lemma LateForGoodIff(p: Params, ops: seq<Op>, t: real)
    requires p.Valid()
    ensures (forall cont: seq<Op> :: IsLate(p, Run(p, ops + cont), t)) <==>
            Shut(p, Run(p, ops), Window.Start(p.size, t))
  {
    var w := Window.Start(p.size, t);
    LocalFollowsCommit(p, ops);
    if Shut(p, Run(p, ops), w) {
      hide Shut, IsLate, Run, Led;
      forall cont: seq<Op> ensures IsLate(p, Run(p, ops + cont), t) {
        ShutForever(p, ops, cont, w);
        LocalFollowsCommit(p, ops + cont);
        ShutIsLate(p, Run(p, ops + cont), t);
      }
    } else {
      var op := Punctuation(Between(p, Run(p, ops), w));
      Reopens(p, Run(p, ops), w);
      hide Run, Punctuate, Led, Shut, Between;
      RunSnoc(p, ops, op);
      assert !IsLate(p, Run(p, ops + [op]), t);
    }
  }

  // ------------------------------------------------------------------
  // A purge under a heard watermark
  // ------------------------------------------------------------------

  lemma AfterFirst(p: Params, a: Event)
    requires p.Valid() && a.time == 0.0
    ensures var s := Punctuate(p, INIT, p.delta - 1.0);
            && Led(p, s) && s.watermark == Fin(-1.0) && s.closed == map[] && s.seen == map[]
            && Classify(p, s, a, p.maxQueue) == Accepted
  {
    PunctuateQuietly(p, INIT, p.delta - 1.0);
    StepLed(p, INIT, Punctuation(p.delta - 1.0));
    hide Punctuate;
  }

  lemma AfterSecond(p: Params, a: Event)
    requires p.Valid() && a.time == 0.0
    ensures var s := Process(p, Punctuate(p, INIT, p.delta - 1.0), a, p.maxQueue, false);
            && Led(p, s) && s.watermark == s.localWatermark == Fin(-1.0) && s.closed == map[]
            && s.seen == map[a.id := 0.0]
  {
    var s := Punctuate(p, INIT, p.delta - 1.0);
    AfterFirst(p, a);
    AcceptQuietly(p, s, a, p.maxQueue);
    StepLed(p, s, Arrive(a, p.maxQueue, false));
    hide Process, Punctuate, Classify;
  }

  /** Once `b` has been accepted the watermark is back at -1, and `a` is accepted again. */
  lemma AfterFifth(p: Params, s: State, a: Event, b: Event)
    requires p.Valid() && Led(p, s) && s.localWatermark == Fin(-1.0) && s.closed == map[] && a.id !in s.seen
    requires a.time == 0.0 && a.id != b.id && Classify(p, s, b, p.maxQueue) == Accepted
    ensures var t := Process(p, s, b, p.maxQueue, false);
            t.watermark == Fin(-1.0) && Classify(p, t, a, p.maxQueue) == Accepted
  {
    AcceptQuietly(p, s, b, p.maxQueue);
    hide Process;
  }

  /** Between hearing and the next event: the id of `a` goes, and the window of `b` is still open for events. */
  lemma PurgedAndHeard(p: Params, s: State, a: Event, b: Event)
    requires p.Valid() && Led(p, s) && s.watermark == Fin(-1.0) && s.closed == map[] && b.id !in s.seen
    requires a.id in s.seen && s.seen[a.id] == a.time == 0.0 && b.time == 100.0
    ensures var t := Purge(s.(watermark := Fin(100.0)));
            && t == s.(watermark := Fin(100.0), seen := t.seen) && a.id !in t.seen && Led(p, t)
            && Classify(p, t, b, p.maxQueue) == Accepted
  {
    assert a.id in Expired(s.(watermark := Fin(100.0)));
  }

  /** A punctuation that puts the watermark at -1, the event `a`, and a global watermark of 100. */
  ghost function Heard(p: Params, a: Event): seq<Op> {
    [] + [Punctuation(p.delta - 1.0)] + [Arrive(a, p.maxQueue, false)] + [Hear(Fin(100.0))]
  }

  lemma RunHeard(p: Params, a: Event)
    requires p.Valid() && a.time == 0.0
    ensures Run(p, [] + [Punctuation(p.delta - 1.0)]) == Punctuate(p, INIT, p.delta - 1.0)
    ensures Run(p, Heard(p, a)) ==
            Process(p, Punctuate(p, INIT, p.delta - 1.0), a, p.maxQueue, false).(watermark := Fin(100.0))
  {
    hide Punctuate, Process, Run, Led;
    var first, second := Punctuation(p.delta - 1.0), Arrive(a, p.maxQueue, false);
    AfterSecond(p, a);
    EmptyRun(p);
    RunSnoc(p, [], first);
    RunSnoc(p, [] + [first], second);
    RunSnoc(p, [] + [first] + [second], Hear(Fin(100.0)));
  }

  lemma HeardTracePurges(p: Params, a: Event, b: Event)
    ensures PurgesAfterPunctuation(Heard(p, a) + [Checkpoint] + [Arrive(b, p.maxQueue, false)])
  {
    var h := Heard(p, a);
    var ops := h + [Checkpoint] + [Arrive(b, p.maxQueue, false)];
    assert h[..2][..1] == h[..1] && h[..1][..0] == [];
    assert MaxCommit(h[..1]).Fin? && MaxCommit(h[..2]) == MaxCommit(h[..1]) && MaxCommit(h) == MaxCommit(h[..2]);
    hide MaxCommit;
    forall i | 0 <= i < |ops| && MayPurge(ops[i]) ensures MaxCommit(ops[..i]).Fin? {
      assert i == 3 && ops[..3] == h;
    }
  }

  /** For windows of any size: a checkpoint between hearing a global watermark and the next event can drop the
      id of a window that this event opens up again, and the same event is accepted twice, although the purge
      came after a punctuation and under a finite watermark. The watermark falls from 100 to -1. */
  lemma HeardPurgeCountsTwice(p: Params, a: Event, b: Event)
    requires p.Valid() && a.time == 0.0 && b.time == 100.0 && a.id != b.id
    ensures var ops := Heard(p, a) + [Checkpoint] + [Arrive(b, p.maxQueue, false)];
            && PurgesAfterPunctuation(ops)
            && Run(p, Heard(p, a)).watermark == Fin(100.0) && Run(p, ops).watermark == Fin(-1.0)
            && Classify(p, Run(p, [] + [Punctuation(p.delta - 1.0)]), a, p.maxQueue) == Accepted
            && Classify(p, Run(p, ops), a, p.maxQueue) == Accepted
  {
    hide Process, Punctuate, Purge, Classify, Led, Heard, PurgesAfterPunctuation, Run;
    AfterFirst(p, a);
    AfterSecond(p, a);
    RunHeard(p, a);
    HeardTracePurges(p, a, b);
    PurgedAndHeard(p, Process(p, Punctuate(p, INIT, p.delta - 1.0), a, p.maxQueue, false), a, b);
    var s := Run(p, Heard(p, a));
    AfterFifth(p, Purge(s), a, b);
    RunSnoc(p, Heard(p, a), Checkpoint);
    RunSnoc(p, Heard(p, a) + [Checkpoint], Arrive(b, p.maxQueue, false));
  }

  /** Honest punctuation does not keep an event from being dropped when its engine has heard a global watermark
      past its window: any event can be lost that way. */
  lemma HearingLosesEvents(p: Params, e: Event)
    requires p.Valid()
    ensures var ops := [] + [Hear(Fin(e.time + p.size))] + [Arrive(e, p.maxQueue, false)];
            NoFlush(ops) && PunctuationHonest(p, ops) && Run(p, ops).metrics.lateDropped == 1
  {
    var hear, arrive := Hear(Fin(e.time + p.size)), Arrive(e, p.maxQueue, false);
    var ops := [] + [hear] + [arrive];
    assert ops[..1] == [hear] && [hear][..0] == [] && MaxCommit([hear]) == NegInf;
    EmptyRun(p);
    RunSnoc(p, [], hear);
    RunSnoc(p, [] + [hear], arrive);
    hide Run;
    assert IsLate(p, Step(p, INIT, hear), e.time);
  }
}
