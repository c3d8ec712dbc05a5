/** Where the events of one heuristic engine are: each event that passes the duplicate filter is either
    counted in its window, open or closed, or waits among the late events. */
module HeuristicTotals {
  import opened DlqSpec
  import opened HeuristicSpec
  import opened Sorting
  import S = StrictSpec
  import Window

  /** The counters of window `w`, open or closed. */
  function HeldState(s: State, w: real): S.WindowState {
    if w in s.open then s.open[w]
    else if w in s.closed then S.WindowState(s.closed[w].count, s.closed[w].status500)
    else S.WindowState(0, 0)
  }

  function HeldCount(s: State, w: real): nat {
    HeldState(s, w).count
  }

  /** A window is open or closed, never both; queued results are results of closed windows, each stored
      under its start; late events carry the engine's partition. */
  ghost predicate Sound(p: Params, s: State) {
    && (forall w :: w in s.open ==> w !in s.closed)
    && (forall w :: w in s.closed ==> s.closed[w].start == w)
    && (forall r :: r in s.pending ==> r.partition == p.partition && r.start in s.closed && s.closed[r.start] == r)
    && (forall e :: e in s.late ==> e.partition == p.partition)
  }

  /** Every closed window has its result queued or published, and what is published is the final count. */
  ghost predicate Reported(p: Params, s: State, base: map<Key, nat>) {
    && (forall w :: w in s.closed ==> s.closed[w] in s.pending || Key(p.partition, w) in base)
    && (forall w :: Key(p.partition, w) in base ==> w in s.closed && base[Key(p.partition, w)] == s.closed[w].count)
  }

  /** Only windows move; the counts and the late events stay. */
  ghost predicate SameHoldings(s: State, t: State) {
    (forall w :: HeldState(t, w) == HeldState(s, w)) && t.late == s.late
  }

  lemma ResultsOfClosing(p: S.Params, open: map<real, S.WindowState>, ws: set<real>, r: S.WindowResult)
    requires ws <= open.Keys
    ensures r in S.Results(p, open, Sorted(ws)) <==> r.start in ws && r == S.ResultOf(p, r.start, open[r.start])
  {
    var xs := Sorted(ws);
    var rs := S.Results(p, open, xs);
    if r in rs {
      var i :| 0 <= i < |rs| && rs[i] == r;
      assert xs[i] in xs;
    }
    if r.start in ws && r == S.ResultOf(p, r.start, open[r.start]) {
      var i :| 0 <= i < |xs| && xs[i] == r.start;
      assert rs[i] == r;
    }
  }

  /** What closing does to the window fields. */
  ghost predicate Moved(p: Params, s: State, t: State, ws: set<real>)
    requires ws <= s.open.Keys
  {
    && t.late == s.late
    && t.open == s.open - ws
    && (forall w :: w in t.closed <==> w in s.closed || w in ws)
    && (forall w :: w in t.closed ==>
          t.closed[w] == if w in ws then S.ResultOf(p.Windows(), w, s.open[w]) else s.closed[w])
    && (forall r :: r in t.pending <==>
          r in s.pending || (r.start in ws && r == S.ResultOf(p.Windows(), r.start, s.open[r.start])))
  }

  lemma CloseMoves(p: Params, s: State, ws: set<real>)
    requires ws <= s.open.Keys
    ensures Moved(p, s, Close(p, s, ws), ws)
  {
    forall r ensures r in Close(p, s, ws).pending <==>
                 r in s.pending || (r.start in ws && r == S.ResultOf(p.Windows(), r.start, s.open[r.start]))
    {
      ResultsOfClosing(p.Windows(), s.open, ws, r);
    }
  }

  lemma MovedIsSound(p: Params, s: State, t: State, ws: set<real>)
    requires ws <= s.open.Keys && Moved(p, s, t, ws) && Sound(p, s)
    ensures Sound(p, t)
  {
    forall r | r in t.pending
      ensures r.partition == p.partition && r.start in t.closed && t.closed[r.start] == r
    {
      if r in s.pending {
        assert r.start in s.closed && r.start !in s.open;
      }
    }
  }

  lemma MovedHolds(p: Params, s: State, t: State, ws: set<real>)
    requires ws <= s.open.Keys && Moved(p, s, t, ws) && Sound(p, s)
    ensures SameHoldings(s, t)
  {
    forall w ensures HeldState(t, w) == HeldState(s, w) {
    }
  }

  lemma MovedReports(p: Params, s: State, t: State, ws: set<real>, base: map<Key, nat>)
    requires ws <= s.open.Keys && Moved(p, s, t, ws) && Sound(p, s) && Reported(p, s, base)
    ensures Reported(p, t, base)
  {
    forall w | w in t.closed ensures t.closed[w] in t.pending || Key(p.partition, w) in base {
      if w in ws {
        assert t.closed[w].start == w;
      }
    }
    forall w | Key(p.partition, w) in base ensures w in t.closed && base[Key(p.partition, w)] == t.closed[w].count {
      assert w in s.closed && w !in s.open;
    }
  }

  lemma CloseKeeps(p: Params, s: State, ws: set<real>, base: map<Key, nat>)
    requires Sound(p, s) && ws <= s.open.Keys
    ensures Sound(p, Close(p, s, ws)) && SameHoldings(s, Close(p, s, ws))
    ensures Reported(p, s, base) ==> Reported(p, Close(p, s, ws), base)
  {
    hide *;
    CloseMoves(p, s, ws);
    MovedIsSound(p, s, Close(p, s, ws), ws);
    MovedHolds(p, s, Close(p, s, ws), ws);
    if Reported(p, s, base) {
      MovedReports(p, s, Close(p, s, ws), ws, base);
    }
  }

  lemma CloseWindowsKeeps(p: Params, s: State, phase0: bool, sweep: bool, base: map<Key, nat>)
    requires Sound(p, s)
    ensures var t := CloseWindows(p, s, phase0, sweep);
            Sound(p, t) && SameHoldings(s, t) && (Reported(p, s, base) ==> Reported(p, t, base))
  {
    if !phase0 {
      var ws := S.Closing(p.Windows(), s.open, Limit(s, sweep));
      assert ws <= s.open.Keys;
      CloseKeeps(p, s, ws, base);
    }
  }

  lemma UpdateGlobalKeeps(p: Params, s: State, w: Extended.Ext, phase0: bool, sweep: bool, base: map<Key, nat>)
    requires Sound(p, s)
    ensures var t := UpdateGlobal(p, s, w, phase0, sweep);
            Sound(p, t) && SameHoldings(s, t) && (Reported(p, s, base) ==> Reported(p, t, base))
  {
    hide CloseWindows;
    CloseWindowsKeeps(p, s.(wGlobal := s.wGlobal.Max(w)), phase0, sweep, base);
  }

  lemma FlushKeeps(p: Params, s: State, base: map<Key, nat>)
    requires Sound(p, s)
    ensures Sound(p, Flush(p, s)) && SameHoldings(s, Flush(p, s)) && Flush(p, s).open == map[]
    ensures Reported(p, s, base) ==> Reported(p, Flush(p, s), base)
  {
    CloseMoves(p, s, s.open.Keys);
    CloseKeeps(p, s, s.open.Keys, base);
  }

  /** What the engine holds of window `k`: its count and its late events. */
  ghost function Holding(p: Params, s: State, k: Key): nat
    requires p.Valid()
  {
    HeldCount(s, k.start) + CountKey(p.size, s.late, k)
  }

  /** Every event goes to exactly one place of its own window. */
  ghost predicate OneMoreAt(p: Params, s: State, t: State, e: S.Event)
    requires p.Valid()
  {
    forall k: Key :: k.partition == p.partition ==>
      Holding(p, t, k) == Holding(p, s, k) + if k.start == Window.Start(p.size, e.time) then 1 else 0
  }

  lemma ToDlqHolds(p: Params, s: State, e: S.Event, arrival: real)
    requires p.Valid()
    ensures OneMoreAt(p, s, ToDlq(p, s, e, arrival), e)
    ensures forall w :: HeldCount(ToDlq(p, s, e, arrival), w) == HeldCount(s, w)
  {
    forall k: Key | k.partition == p.partition
      ensures Holding(p, ToDlq(p, s, e, arrival), k) ==
              Holding(p, s, k) + if k.start == Window.Start(p.size, e.time) then 1 else 0
    {
      CountSnoc(p.size, s.late, LateEvent(e.id, e.time, arrival, p.partition), k);
    }
  }

  lemma RouteHolds(p: Params, s: State, e: S.Event, arrival: real, base: map<Key, nat>)
    requires p.Valid() && Sound(p, s)
    ensures var t := Route(p, s, e, arrival);
            Sound(p, t) && OneMoreAt(p, s, t, e) && (Reported(p, s, base) ==> Reported(p, t, base))
  {
    hide CountKey;
    if arrival - e.time > p.maxLagAccepted {
      ToDlqHolds(p, s.(extremeLag := s.extremeLag + 1), e, arrival);
    } else {
      ToDlqHolds(p, s, e, arrival);
    }
  }

  lemma SameThenSame(s: State, u: State, t: State)
    requires SameHoldings(s, u) && SameHoldings(u, t)
    ensures SameHoldings(s, t)
  {
  }

  lemma SameThenOne(p: Params, s: State, u: State, t: State, e: S.Event)
    requires p.Valid() && SameHoldings(s, u) && OneMoreAt(p, u, t, e)
    ensures OneMoreAt(p, s, t, e)
  {
    forall k: Key ensures Holding(p, u, k) == Holding(p, s, k) {
    }
  }

  /** Changes of other fields move no event. */
  lemma NothingMoved(p: Params, s: State, t: State, base: map<Key, nat>)
    requires Sound(p, s)
    requires s.open == t.open && s.closed == t.closed && s.late == t.late && s.pending == t.pending
    ensures Sound(p, t) && SameHoldings(s, t) && (Reported(p, s, base) ==> Reported(p, t, base))
  {
  }

  lemma HandleHolds(p: Params, s: State, e: S.Event, arrival: real, a: Ambient, base: map<Key, nat>)
    requires p.Valid() && Sound(p, s)
    ensures var t := Handle(p, s, e, arrival, a);
            Sound(p, t) && OneMoreAt(p, s, t, e) && (Reported(p, s, base) ==> Reported(p, t, base))
  {
    hide CloseWindows, Route, Observe, AfterRecovery, OneMoreAt, Sound, Reported, SameHoldings;
    var observed := s.(wm := Observe(p, s.wm, e.time, a));
    var c := CloseWindows(p, observed, a.phase0, a.sweep);
    var u := c.(wm := AfterRecovery(p, c.wm, a));
    NothingMoved(p, s, observed, base);
    CloseWindowsKeeps(p, observed, a.phase0, a.sweep, base);
    NothingMoved(p, c, u, base);
    SameThenSame(s, observed, c);
    SameThenSame(s, c, u);
    RouteHolds(p, u, e, arrival, base);
    SameThenOne(p, s, u, Route(p, u, e, arrival), e);
  }

  lemma FutureHolds(p: Params, s: State, e: S.Event, arrival: real, base: map<Key, nat>)
    requires p.Valid() && Sound(p, s)
    ensures var t := ToDlq(p, s.(extremeLag := s.extremeLag + 1), e, arrival);
            Sound(p, t) && OneMoreAt(p, s, t, e) && (Reported(p, s, base) ==> Reported(p, t, base))
  {
    hide ToDlq, OneMoreAt, Sound, Reported, SameHoldings;
    var v := s.(extremeLag := s.extremeLag + 1);
    NothingMoved(p, s, v, base);
    ToDlqHolds(p, v, e, arrival);
    ToDlqKeeps(p, v, e, arrival, base);
    SameThenOne(p, s, v, ToDlq(p, v, e, arrival), e);
  }

  lemma ToDlqKeeps(p: Params, s: State, e: S.Event, arrival: real, base: map<Key, nat>)
    requires Sound(p, s)
    ensures var t := ToDlq(p, s, e, arrival); Sound(p, t) && (Reported(p, s, base) ==> Reported(p, t, base))
  {
  }

  /** `process` loses no event: a duplicate changes no holding, any other event adds one to the window
      its time belongs to, in the window itself or among the late events, and to no other window. */
  lemma ProcessHolds(p: Params, s: State, e: S.Event, arrival: real, a: Ambient, base: map<Key, nat>)
    requires p.Valid() && Sound(p, s)
    ensures var t := Process(p, s, e, arrival, a);
            && Sound(p, t)
            && (if IsDuplicate(s, e) then SameHoldings(s, t) else OneMoreAt(p, s, t, e))
            && (Reported(p, s, base) ==> Reported(p, t, base))
  {
    hide Handle, Remember, ToDlq, OneMoreAt, Sound, Reported, SameHoldings;
    var r := s.(received := s.received + 1);
    if IsDuplicate(s, e) {
      NothingMoved(p, s, r.(duplicates := r.duplicates + 1), base);
    } else {
      var u := Remember(r, e.id, arrival, a.purgeNow);
      RememberKeeps(r, e.id, arrival, a.purgeNow);
      NothingMoved(p, s, u, base);
      if e.time - arrival > p.maxFutureSkew {
        FutureHolds(p, u, e, arrival, base);
        SameThenOne(p, s, u, ToDlq(p, u.(extremeLag := u.extremeLag + 1), e, arrival), e);
      } else {
        HandleHolds(p, u, e, arrival, a, base);
        SameThenOne(p, s, u, Handle(p, u, e, arrival, a), e);
      }
    }
  }

  lemma RememberKeeps(s: State, id: string, arrival: real, now: real)
    ensures Remember(s, id, arrival, now) == s.(seen := Remember(s, id, arrival, now).seen)
  {
  }
}
