/** The duplicate filter of the heuristic engine read off the history of its inputs: which arrivals repeat
    another, without looking at the engine's own memory. */
module HeuristicHistory {
  import opened HeuristicSpec
  import opened HeuristicTotals
  import opened HeuristicWatermark
  import S = StrictSpec
  import Window

  // ------------------------------------------------------------------
  // The history
  // ------------------------------------------------------------------

  /** An id that arrived at `t` survives the purge of `op`: the clock is at most a minute past it. */
  ghost predicate Outlives(op: Op, t: real)
    requires op.Arrive?
  {
    op.a.purgeNow - t <= 60.0
  }

  /** Arrival `n` repeats an earlier one whose id has not been forgotten. */
  ghost predicate Repeats(ops: seq<Op>, n: nat)
    requires n < |ops|
    decreases n, 1
  {
    ops[n].Arrive? && exists i :: 0 <= i < n && Remembered(ops, i, n) && ops[i].e.id == ops[n].e.id
  }

  /** Arrival `i` was no repetition, and before `n` no purge clock, its own included, was more than a minute
      past its arrival time. A repetition purges nothing. */
  ghost predicate Remembered(ops: seq<Op>, i: nat, n: nat)
    requires i < n <= |ops|
    decreases n, 0
  {
    && ops[i].Arrive? && !Repeats(ops, i)
    && forall j | i <= j < n && ops[j].Arrive? && !Repeats(ops, j) :: Outlives(ops[j], ops[i].arrival)
  }

  lemma RememberedNext(ops: seq<Op>, i: nat, n: nat)
    requires i < n < |ops|
    ensures Remembered(ops, i, n + 1) <==>
            && Remembered(ops, i, n)
            && (ops[n].Arrive? && !Repeats(ops, n) ==> Outlives(ops[n], ops[i].arrival))
  {
    hide Repeats;
  }

  lemma RememberedFirst(ops: seq<Op>, n: nat)
    requires n < |ops|
    ensures Remembered(ops, n, n + 1) <==>
            ops[n].Arrive? && !Repeats(ops, n) && Outlives(ops[n], ops[n].arrival)
  {
    hide Repeats;
  }

  /** What came later does not matter. */
  lemma {:induction false} RepeatsPrefix(ops: seq<Op>, m: nat, n: nat)
    requires n < m <= |ops|
    ensures Repeats(ops[..m], n) == Repeats(ops, n)
    decreases n, 1
  {
    forall i | 0 <= i < n ensures Remembered(ops[..m], i, n) == Remembered(ops, i, n) {
      RememberedPrefix(ops, m, i, n);
    }
  }

  lemma {:induction false} RememberedPrefix(ops: seq<Op>, m: nat, i: nat, n: nat)
    requires i < n <= m <= |ops|
    ensures Remembered(ops[..m], i, n) == Remembered(ops, i, n)
    decreases n, 0
  {
    forall j | i <= j < n ensures Repeats(ops[..m], j) == Repeats(ops, j) {
      RepeatsPrefix(ops, m, j);
    }
  }

  // ------------------------------------------------------------------
  // The engine's memory is the history's
  // ------------------------------------------------------------------

  /** The remembered ids are those of the remembered arrivals, with their arrival times. */
  ghost predicate SeenIs(ops: seq<Op>, n: nat, seen: map<string, real>)
    requires n <= |ops|
  {
    && (forall i | 0 <= i < n && ops[i].Arrive? && Remembered(ops, i, n) ::
          ops[i].e.id in seen && seen[ops[i].e.id] == ops[i].arrival)
    && (forall id | id in seen ::
          exists i :: 0 <= i < n && ops[i].Arrive? && Remembered(ops, i, n) && ops[i].e.id == id)
  }

  lemma RepeatsIff(ops: seq<Op>, n: nat, seen: map<string, real>)
    requires n < |ops| && ops[n].Arrive? && SeenIs(ops, n, seen)
    ensures Repeats(ops, n) <==> ops[n].e.id in seen
  {
  }

  /** A step that touches no id. */
  lemma SeenStays(ops: seq<Op>, n: nat, seen: map<string, real>)
    requires n < |ops| && SeenIs(ops, n, seen) && (ops[n].Arrive? ==> Repeats(ops, n))
    ensures SeenIs(ops, n + 1, seen)
  {
    RememberedFirst(ops, n);
    forall i: nat | i < n ensures Remembered(ops, i, n + 1) == Remembered(ops, i, n) {
      RememberedNext(ops, i, n);
    }
    hide Remembered, Repeats;
    forall id | id in seen
      ensures exists i :: 0 <= i < n + 1 && ops[i].Arrive? && Remembered(ops, i, n + 1) && ops[i].e.id == id
    {
      var i :| 0 <= i < n && ops[i].Arrive? && Remembered(ops, i, n) && ops[i].e.id == id;
      assert Remembered(ops, i, n + 1);
    }
  }

  /** What one arrival that is no repetition does to the remembered ids. */
  ghost function SeenAfter(seen: map<string, real>, op: Op): map<string, real>
    requires op.Arrive?
  {
    var added := seen[op.e.id := op.arrival];
    map id | id in added && Outlives(op, added[id]) :: added[id]
  }

  lemma SeenGrows(ops: seq<Op>, n: nat, seen: map<string, real>)
    requires n < |ops| && ops[n].Arrive? && !Repeats(ops, n) && SeenIs(ops, n, seen)
    ensures SeenIs(ops, n + 1, SeenAfter(seen, ops[n]))
  {
    hide Remembered, Repeats, SeenIs, Outlives, SeenAfter;
    forall i: nat | i < n + 1 && ops[i].Arrive? && Remembered(ops, i, n + 1)
      ensures ops[i].e.id in SeenAfter(seen, ops[n]) && SeenAfter(seen, ops[n])[ops[i].e.id] == ops[i].arrival
    {
      KeptIsRemembered(ops, n, seen, i);
    }
    forall id | id in SeenAfter(seen, ops[n])
      ensures exists i :: 0 <= i < n + 1 && ops[i].Arrive? && Remembered(ops, i, n + 1) && ops[i].e.id == id
    {
      var i := RememberedKept(ops, n, seen, id);
    }
    SeenIsAll(ops, n + 1, SeenAfter(seen, ops[n]));
  }

  lemma SeenIsAll(ops: seq<Op>, n: nat, seen: map<string, real>)
    requires n <= |ops|
    requires forall i: nat | i < n && ops[i].Arrive? && Remembered(ops, i, n) ::
               ops[i].e.id in seen && seen[ops[i].e.id] == ops[i].arrival
    requires forall id | id in seen ::
               exists i :: 0 <= i < n && ops[i].Arrive? && Remembered(ops, i, n) && ops[i].e.id == id
    ensures SeenIs(ops, n, seen)
  {
  }

  lemma KeptIsRemembered(ops: seq<Op>, n: nat, seen: map<string, real>, i: nat)
    requires n < |ops| && ops[n].Arrive? && !Repeats(ops, n) && SeenIs(ops, n, seen)
    requires i < n + 1 && ops[i].Arrive? && Remembered(ops, i, n + 1)
    ensures var after := SeenAfter(seen, ops[n]); ops[i].e.id in after && after[ops[i].e.id] == ops[i].arrival
  {
    RepeatsIff(ops, n, seen);
    if i == n {
      RememberedFirst(ops, n);
    } else {
      RememberedNext(ops, i, n);
    }
    hide Remembered, Repeats;
  }

  lemma RememberedKept(ops: seq<Op>, n: nat, seen: map<string, real>, id: string) returns (i: nat)
    requires n < |ops| && ops[n].Arrive? && !Repeats(ops, n) && SeenIs(ops, n, seen)
    requires id in SeenAfter(seen, ops[n])
    ensures i < n + 1 && ops[i].Arrive? && Remembered(ops, i, n + 1) && ops[i].e.id == id
  {
    hide Remembered, Repeats;
    if id == ops[n].e.id {
      i := n;
      RememberedFirst(ops, n);
    } else {
      i :| 0 <= i < n && ops[i].Arrive? && Remembered(ops, i, n) && ops[i].e.id == id;
      RememberedNext(ops, i, n);
    }
  }

  /** Closing and watermarks leave the remembered ids alone. */
  lemma StepSeen(p: Params, s: State, op: Op)
    requires p.Valid()
    ensures Step(p, s, op).seen == if op.Arrive? && op.e.id !in s.seen then SeenAfter(s.seen, op) else s.seen
  {
    hide Handle, CloseWindows, S.Close;
    if op.Arrive? {
      HandleKeepsSeen(p, Remember(s.(received := s.received + 1), op.e.id, op.arrival, op.a.purgeNow), op);
    } else if op.Global? {
      CloseWindowsKeepsSeen(p, s.(wGlobal := s.wGlobal.Max(op.w)), op.phase0, op.sweep);
    }
  }

  lemma CloseWindowsKeepsSeen(p: Params, s: State, phase0: bool, sweep: bool)
    ensures CloseWindows(p, s, phase0, sweep).seen == s.seen
  {
  }

  lemma HandleKeepsSeen(p: Params, s: State, op: Op)
    requires p.Valid() && op.Arrive?
    ensures Handle(p, s, op.e, op.arrival, op.a).seen == s.seen
  {
    hide Observe, AfterRecovery, CloseWindows;
    CloseWindowsKeepsSeen(p, s.(wm := Observe(p, s.wm, op.e.time, op.a)), op.a.phase0, op.a.sweep);
  }

  lemma SeenStep(p: Params, ops: seq<Op>, n: nat, s: State)
    requires p.Valid() && n < |ops| && SeenIs(ops, n, s.seen)
    ensures SeenIs(ops, n + 1, Step(p, s, ops[n]).seen)
  {
    hide *;
    StepSeen(p, s, ops[n]);
    if ops[n].Arrive? {
      RepeatsIff(ops, n, s.seen);
      if Repeats(ops, n) {
        SeenStays(ops, n, s.seen);
      } else {
        SeenGrows(ops, n, s.seen);
      }
    } else {
      SeenStays(ops, n, s.seen);
    }
  }

  lemma RunNext(p: Params, s: State, ops: seq<Op>, n: nat)
    requires p.Valid() && n < |ops|
    ensures Run(p, s, ops[..n + 1]) == Step(p, Run(p, s, ops[..n]), ops[n])
  {
    assert ops[..n + 1][..n] == ops[..n];
  }

  lemma SeenStart(p: Params, ops: seq<Op>)
    requires p.Valid()
    ensures SeenIs(ops, 0, Run(p, Init(p), ops[..0]).seen)
  {
  }

  lemma {:induction false} SeenByHistory(p: Params, ops: seq<Op>, n: nat)
    requires p.Valid() && n <= |ops|
    ensures SeenIs(ops, n, Run(p, Init(p), ops[..n]).seen)
  {
    hide *;
    if n == 0 {
      SeenStart(p, ops);
    } else {
      SeenByHistory(p, ops, n - 1);
      RunNext(p, Init(p), ops, n - 1);
      SeenStep(p, ops, n - 1, Run(p, Init(p), ops[..n - 1]));
    }
  }

  // ------------------------------------------------------------------
  // Histories that grow at the end
  // ------------------------------------------------------------------

  /** How many arrivals of a history belong to the window that starts at `start` and repeat no other. */
  ghost function PassedIn(size: real, ops: seq<Op>, start: real): nat
    requires size > 0.0
  {
    if ops == [] then 0 else
      var n := |ops| - 1;
      PassedIn(size, ops[..n], start) +
      if ops[n].Arrive? && !Repeats(ops, n) && Window.Start(size, ops[n].e.time) == start then 1 else 0
  }

  lemma PassedSnoc(size: real, ops: seq<Op>, op: Op, start: real)
    requires size > 0.0
    ensures PassedIn(size, ops + [op], start) == PassedIn(size, ops, start) +
              if op.Arrive? && !Repeats(ops + [op], |ops|) && Window.Start(size, op.e.time) == start then 1 else 0
  {
    assert (ops + [op])[..|ops|] == ops;
  }

  lemma SeenIsPrefix(ops: seq<Op>, op: Op, seen: map<string, real>)
    requires SeenIs(ops, |ops|, seen)
    ensures SeenIs(ops + [op], |ops|, seen)
  {
    var more := ops + [op];
    forall i | 0 <= i < |ops| ensures Remembered(ops, i, |ops|) == Remembered(more, i, |ops|) {
      assert more[..|ops|] == ops;
      RememberedPrefix(more, |ops|, i, |ops|);
    }
    hide Remembered;
    forall id | id in seen
      ensures exists i :: 0 <= i < |ops| && more[i].Arrive? && Remembered(more, i, |ops|) && more[i].e.id == id
    {
      var i :| 0 <= i < |ops| && ops[i].Arrive? && Remembered(ops, i, |ops|) && ops[i].e.id == id;
      assert Remembered(more, i, |ops|) && more[i] == ops[i];
    }
  }

  /** One operation more, after any history that accounts for the remembered ids. */
  lemma SeenSnoc(p: Params, ops: seq<Op>, s: State, op: Op)
    requires p.Valid() && SeenIs(ops, |ops|, s.seen)
    ensures SeenIs(ops + [op], |ops| + 1, Step(p, s, op).seen)
    ensures op.Arrive? ==> (Repeats(ops + [op], |ops|) <==> op.e.id in s.seen)
  {
    hide *;
    SeenIsPrefix(ops, op, s.seen);
    SeenStep(p, ops + [op], |ops|, s);
    if op.Arrive? {
      RepeatsIff(ops + [op], |ops|, s.seen);
    }
  }

  // ------------------------------------------------------------------
  // The verdict
  // ------------------------------------------------------------------

  /** The duplicate filter over every run: an arrival that repeats another raises the duplicate counter and
      changes nothing else but the number of arrivals; any other arrival is held, in its window or among the
      late events, and raises no duplicate counter. */
  lemma DuplicateByHistory(p: Params, ops: seq<Op>, n: nat)
    requires p.Valid() && n < |ops| && ops[n].Arrive?
    ensures var s, t := Run(p, Init(p), ops[..n]), Run(p, Init(p), ops[..n + 1]);
            if Repeats(ops, n) then
              t == s.(received := s.received + 1, duplicates := s.duplicates + 1)
            else
              t.duplicates == s.duplicates && OneMoreAt(p, s, t, ops[n].e)
  {
    var s := Run(p, Init(p), ops[..n]);
    SeenByHistory(p, ops, n);
    RepeatsIff(ops, n, s.seen);
    RunNext(p, Init(p), ops, n);
    RunIsSound(p, ops[..n]);
    hide *;
    ArriveVerdict(p, s, ops[n]);
  }

  lemma ArriveVerdict(p: Params, s: State, op: Op)
    requires p.Valid() && op.Arrive? && Sound(p, s)
    ensures var t := Step(p, s, op);
            if op.e.id in s.seen then t == s.(received := s.received + 1, duplicates := s.duplicates + 1)
            else t.duplicates == s.duplicates && OneMoreAt(p, s, t, op.e)
  {
    hide Handle, OneMoreAt, Sound, Reported, SameHoldings;
    ProcessHolds(p, s, op.e, op.arrival, op.a, map[]);
    if op.e.id !in s.seen {
      HandleCountsNoDuplicate(p, Remember(s.(received := s.received + 1), op.e.id, op.arrival, op.a.purgeNow), op);
    }
  }

  lemma HandleCountsNoDuplicate(p: Params, s: State, op: Op)
    requires p.Valid() && op.Arrive?
    ensures Handle(p, s, op.e, op.arrival, op.a).duplicates == s.duplicates
  {
    hide Observe, AfterRecovery, S.Close, S.Closing;
  }

  lemma StepIsSound(p: Params, s: State, op: Op)
    requires p.Valid() && Sound(p, s)
    ensures Sound(p, Step(p, s, op))
  {
    hide Process, UpdateGlobal, Flush, Sound;
    match op
    case Arrive(e, arrival, a) => ProcessHolds(p, s, e, arrival, a, map[]);
    case Global(w, phase0, sweep) => UpdateGlobalKeeps(p, s, w, phase0, sweep, map[]);
    case FlushAll => FlushKeeps(p, s, map[]);
  }

  lemma {:induction false} RunIsSound(p: Params, ops: seq<Op>)
    requires p.Valid()
    ensures Sound(p, Run(p, Init(p), ops))
  {
    if ops != [] {
      RunIsSound(p, ops[..|ops| - 1]);
      hide Step, Sound;
      StepIsSound(p, Run(p, Init(p), ops[..|ops| - 1]), ops[|ops| - 1]);
    }
  }
}
