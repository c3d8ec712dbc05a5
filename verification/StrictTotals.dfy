/** Conservation of counts: on-time events are exactly those in open windows plus those emitted. */
module StrictTotals {
  import opened Extended
  import opened Sets
  import opened Sorting
  import opened StrictRuns
  import opened StrictSpec

  ghost function SumOpen(open: map<real, WindowState>): nat {
    if open == map[] then 0 else
      var w := Pick(open.Keys);
      SumOpen(open - {w}) + open[w].count
  }

  ghost function SumEmitted(rs: seq<WindowResult>): nat {
    if rs == [] then 0 else SumEmitted(rs[..|rs| - 1]) + rs[|rs| - 1].count
  }

  /** The sum over the open windows does not depend on the order of summation. */
  lemma {:induction false} SumOpenAnyOrder(open: map<real, WindowState>, w: real)
    requires w in open
    ensures SumOpen(open) == SumOpen(open - {w}) + open[w].count
    decreases |open|
  {
    var v := Pick(open.Keys);
    if v != w {
      assert open - {v} - {w} == open - {w} - {v};
      SumOpenAnyOrder(open - {v}, w);
      SumOpenAnyOrder(open - {w}, v);
    }
  }

  lemma SumOpenUpdate(open: map<real, WindowState>, w: real, st: WindowState)
    ensures SumOpen(open[w := st]) == SumOpen(open - {w}) + st.count
    ensures SumOpen(open) == SumOpen(open - {w}) + if w in open then open[w].count else 0
  {
    SumOpenAnyOrder(open[w := st], w);
    assert open[w := st] - {w} == open - {w};
    if w in open {
      SumOpenAnyOrder(open, w);
    } else {
      assert open - {w} == open;
    }
  }

  lemma {:induction false} SumConcat(a: seq<WindowResult>, b: seq<WindowResult>)
    ensures SumEmitted(a + b) == SumEmitted(a) + SumEmitted(b)
  {
    if b == [] {
      assert a + b == a;
    } else {
      SumConcat(a, b[..|b| - 1]);
      assert (a + b)[..|a + b| - 1] == a + b[..|b| - 1];
    }
  }

  ghost function Elements(ws: seq<real>): set<real> {
    set w | w in ws
  }

  /** The last window of an increasing list. */
  lemma SplitLast(p: Params, open: map<real, WindowState>, ws: seq<real>)
    requires ws != [] && Increasing(ws) && forall w :: w in ws ==> w in open
    ensures var rest, w := ws[..|ws| - 1], ws[|ws| - 1];
            && Increasing(rest) && (forall x :: x in rest ==> x in open)
            && w in open && w !in rest && Elements(ws) == Elements(rest) + {w}
            && Results(p, open, ws) == Results(p, open, rest) + [ResultOf(p, w, open[w])]
  {
    var rest, w := ws[..|ws| - 1], ws[|ws| - 1];
    assert ws == rest + [w];
    assert forall x :: x in ws <==> x in rest || x == w;
  }

  lemma {:induction false} SumMoved(p: Params, open: map<real, WindowState>, ws: seq<real>)
    requires Increasing(ws) && forall w :: w in ws ==> w in open
    ensures SumOpen(open) == SumOpen(open - Elements(ws)) + SumEmitted(Results(p, open, ws))
    decreases |ws|
  {
    if ws == [] {
      assert open - Elements(ws) == open;
    } else {
      var rest, w := ws[..|ws| - 1], ws[|ws| - 1];
      SplitLast(p, open, ws);
      SumMoved(p, open, rest);
      assert w !in Elements(rest);
      hide Increasing, Elements, SumOpen, Results;
      SumOpenAnyOrder(open - Elements(rest), w);
      assert open - Elements(ws) == open - Elements(rest) - {w};
      SumConcat(Results(p, open, rest), [ResultOf(p, w, open[w])]);
      SumOne(ResultOf(p, w, open[w]));
    }
  }

  lemma SumOne(r: WindowResult)
    ensures SumEmitted([r]) == r.count
  {
    assert [r][..0] == [];
  }

  lemma CloseConserves(p: Params, s: State, ws: set<real>)
    requires ws <= s.open.Keys
    ensures SumOpen(s.open) + SumEmitted(s.emitted) ==
            SumOpen(Close(p, s, ws).open) + SumEmitted(Close(p, s, ws).emitted)
  {
    SumMoved(p, s.open, Sorted(ws));
    assert Elements(Sorted(ws)) == ws;
    SumConcat(s.emitted, Results(p, s.open, Sorted(ws)));
  }

  ghost function Held(s: State): nat {
    SumOpen(s.open) + SumEmitted(s.emitted)
  }

  lemma AdvanceConserves(p: Params, s: State)
    ensures Held(Advance(p, s)) == Held(s)
  {
    hide Close, Closing;
    ClosingIsOpen(p, s.open, s.localWatermark);
    CloseConserves(p, s.(watermark := s.localWatermark), Closing(p, s.open, s.localWatermark));
  }

  lemma AcceptHolds(p: Params, s: State, e: Event)
    requires p.Valid()
    ensures Held(Accept(p, s, e)) == Held(s) + 1
  {
    SumOpenUpdate(s.open, StartOf(p, e), Accept(p, s, e).open[StartOf(p, e)]);
    hide SumOpen, SumEmitted;
  }

  lemma SameHeld(s: State, t: State)
    requires s.open == t.open && s.emitted == t.emitted
    ensures Held(s) == Held(t)
  {
  }

  lemma ProcessConserves(p: Params, s: State, e: Event, queueLen: int, due: bool)
    requires p.Valid()
    ensures Held(Process(p, s, e, queueLen, due)) == Held(s) + if Classify(p, s, e, queueLen) == Accepted then 1 else 0
  {
    hide Held, Advance, Accept, Expired;
    var r := s.(metrics := s.metrics.(totalReceived := s.metrics.totalReceived + 1));
    SameHeld(s, r);
    var t := Process(p, s, e, queueLen, due);
    if Classify(p, s, e, queueLen) == Accepted {
      AcceptHolds(p, r, e);
      AdvanceConserves(p, Accept(p, r, e));
      SameHeld(Advance(p, Accept(p, r, e)), t);
    } else {
      SameHeld(s, t);
    }
  }

  lemma PunctuateConserves(p: Params, s: State, commit: real)
    ensures Held(Punctuate(p, s, commit)) == Held(s)
  {
    hide Held, Advance;
    var r := s.(metrics := s.metrics.(punctuationTotal := s.metrics.punctuationTotal + 1));
    if r.lastCommit.Lt(Fin(commit)) {
      var u := r.(lastCommit := Fin(commit), localWatermark := Fin(commit - p.delta));
      SameHeld(s, u);
      AdvanceConserves(p, u);
    } else {
      SameHeld(s, Punctuate(p, s, commit));
    }
  }

  lemma StepConserves(p: Params, s: State, op: Op)
    requires p.Valid()
    ensures Held(Step(p, s, op)) == Held(s) +
              if op.Arrive? && Classify(p, s, op.e, op.queueLen) == Accepted then 1 else 0
  {
    hide Process, Punctuate, Classify, Close, Expired, SumOpen, SumEmitted;
    match op
    case Arrive(e, queueLen, due) => ProcessConserves(p, s, e, queueLen, due);
    case Punctuation(commit) => PunctuateConserves(p, s, commit);
    case FlushAll => CloseConserves(p, s, s.open.Keys);
    case Checkpoint =>
    case Hear(_) =>
  }

  lemma ClosingIsOpen(p: Params, open: map<real, WindowState>, wm: Ext)
    ensures Closing(p, open, wm) <= open.Keys
  {
  }

  /** Over every run, flushes included, no on-time event is lost or counted twice. */
  lemma {:induction false} Conservation(p: Params, ops: seq<Op>)
    requires p.Valid()
    ensures Run(p, ops).metrics.onTime == SumOpen(Run(p, ops).open) + SumEmitted(Run(p, ops).emitted)
  {
    if ops != [] {
      var n := |ops| - 1;
      Conservation(p, ops[..n]);
      hide Step;
      StepConserves(p, Run(p, ops[..n]), ops[n]);
      StepMetrics(p, Run(p, ops[..n]), ops[n]);
    }
  }
}
