/** Every reachable world can be brought to rest by the system's own upkeep: closing, publishing, pumping,
    correcting, emitting and delivering. */
module Settling {
  import opened Completeness
  import opened Corrections
  import opened Dlq
  import opened DlqSpec
  import opened HeuristicTotals
  import H = HeuristicSpec

  /** Actions that bring in no event, discard none, and repeat no correction. */
  predicate Upkeep(a: Action) {
    !a.Arrive? && !a.Expire? && !a.RequeueOne?
  }

  ghost predicate Extends(u: Setup, w: World, actions: seq<Action>, v: World)
    requires u.Valid()
    decreases |actions|
  {
    if actions == [] then v == w else
      Upkeep(actions[0]) && Enabled(u, w, actions[0]) && Extends(u, Next(u, w, actions[0]), actions[1..], v)
  }

  lemma {:induction false} Chain(u: Setup, w: World, a: seq<Action>, v: World, b: seq<Action>, x: World)
    requires u.Valid() && Extends(u, w, a, v) && Extends(u, v, b, x)
    ensures Extends(u, w, a + b, x)
    decreases |a|
  {
    hide Enabled, Next, Upkeep;
    if a == [] {
      assert a + b == b;
    } else {
      Chain(u, Next(u, w, a[0]), a[1..], v, b, x);
      assert (a + b)[1..] == a[1..] + b;
    }
  }

  lemma One(u: Setup, w: World, a: Action)
    requires u.Valid() && Upkeep(a) && Enabled(u, w, a)
    ensures Extends(u, w, [a], Next(u, w, a))
  {
    assert Extends(u, Next(u, w, a), [], Next(u, w, a));
  }

  /** What upkeep leaves alone: no event appears or is discarded, and no correction is lost or found. */
  ghost predicate Onward(u: Setup, w: World, v: World)
    requires u.Valid()
  {
    && Inv(u, v)
    && v.history == w.history && v.expired == w.expired && v.engines.Keys == w.engines.Keys
    && forall c :: Lost(v.flow, c) <==> Lost(w.flow, c)
  }

  /** Upkeep of the corrections alone. */
  ghost predicate Downstream(u: Setup, w: World, v: World)
    requires u.Valid()
  {
    Onward(u, w, v) && v.engines == w.engines
  }

  lemma Rest(u: Setup, w: World)
    requires u.Valid() && Inv(u, w)
    ensures Extends(u, w, [], w) && Downstream(u, w, w)
  {
    hide Inv;
  }

  lemma DownstreamChain(u: Setup, w: World, v: World, x: World)
    requires u.Valid() && Downstream(u, w, v) && Downstream(u, v, x)
    ensures Downstream(u, w, x)
  {
    hide Inv, Lost;
  }

  /** An upkeep step of the corrections. */
  lemma OneDownstream(u: Setup, w: World, a: Action)
    requires u.Valid() && Inv(u, w) && Upkeep(a) && Enabled(u, w, a)
    requires var v := Next(u, w, a);
             v == w.(flow := v.flow, dlq := v.dlq) && forall c :: Lost(v.flow, c) <==> Lost(w.flow, c)
    ensures var v := Next(u, w, a); Extends(u, w, [a], v) && Downstream(u, w, v) && Inv(u, v)
  {
    hide Inv, Extends, Enabled, Next, Lost;
    One(u, w, a);
    NextKeepsInv(u, w, a);
  }

  lemma DownstreamKeepsInv(u: Setup, w: World, v: World)
    requires u.Valid() && Downstream(u, w, v)
    ensures Inv(u, v)
  {
  }

  // ------------------------------------------------------------------
  // The engine
  // ------------------------------------------------------------------

  /** An upkeep step of engine `p` that leaves the corrections alone. */
  lemma EngineStep(u: Setup, w: World, p: int, a: Action)
    requires u.Valid() && Inv(u, w) && p in w.engines && a in {FlushEngine(p), Publish(p), Pump(p)}
    ensures Enabled(u, w, a) && Onward(u, w, Next(u, w, a)) && Extends(u, w, [a], Next(u, w, a))
  {
    hide Inv, Enabled, Next, Extends, Upkeep, Lost;
    EngineStepFrame(u, w, p, a);
    One(u, w, a);
    NextKeepsInv(u, w, a);
  }

  lemma EngineStepFrame(u: Setup, w: World, p: int, a: Action)
    requires u.Valid() && p in w.engines && a in {FlushEngine(p), Publish(p), Pump(p)}
    ensures Upkeep(a) && Enabled(u, w, a)
    ensures var v := Next(u, w, a);
            v.history == w.history && v.expired == w.expired && v.engines.Keys == w.engines.Keys && v.flow == w.flow
  {
    hide H.Flush, Published;
  }

  lemma AfterFlush(u: Setup, w: World, p: int)
    requires u.Valid() && Inv(u, w) && p in w.engines
    ensures Next(u, w, FlushEngine(p)).engines[p].open == map[]
  {
    EngineOf(u, w, p);
    FlushKeeps(u.At(p), w.engines[p], w.base);
  }

  lemma AfterPublishAndPump(u: Setup, w: World, p: int)
    requires u.Valid() && p in w.engines
    ensures var s := Next(u, Next(u, w, Publish(p)), Pump(p)).engines[p];
            s.open == w.engines[p].open && s.pending == [] && s.late == []
  {
  }

  /** Engine `p` closes everything, and its results and late events move on. */
  lemma EmptyEngine(u: Setup, w: World, p: int) returns (actions: seq<Action>, v: World)
    requires u.Valid() && Inv(u, w) && p in w.engines
    ensures Extends(u, w, actions, v) && Onward(u, w, v)
    ensures var s := v.engines[p]; s.open == map[] && s.pending == [] && s.late == []
  {
    hide Inv, Extends, Enabled, Next, Lost;
    EngineStep(u, w, p, FlushEngine(p));
    var flushed := Next(u, w, FlushEngine(p));
    EngineStep(u, flushed, p, Publish(p));
    var published := Next(u, flushed, Publish(p));
    EngineStep(u, published, p, Pump(p));
    v := Next(u, published, Pump(p));
    actions := [FlushEngine(p)] + [Publish(p)] + [Pump(p)];
    Chain(u, w, [FlushEngine(p)], flushed, [Publish(p)], published);
    Chain(u, w, [FlushEngine(p)] + [Publish(p)], published, [Pump(p)], v);
    AfterFlush(u, w, p);
    AfterPublishAndPump(u, flushed, p);
  }

  // ------------------------------------------------------------------
  // The emitter
  // ------------------------------------------------------------------

  /** Draining one correction is always possible. */
  lemma DrainOne(u: Setup, w: World) returns (a: Action)
    requires u.Valid() && Sane(w.flow) && w.flow.queue != multiset{}
    ensures Upkeep(a) && Enabled(u, w, a)
    ensures var v := Next(u, w, a);
            && v == w.(flow := v.flow) && |v.flow.queue| == |w.flow.queue| - 1
            && forall d :: Lost(v.flow, d) <==> Lost(w.flow, d)
  {
    hide *;
    LargestExists(w.flow.queue);
    var c :| IsLargest(w.flow.queue, c);
    var out := if c.cid in w.flow.emitted then [] else [c];
    FirstEmitted(w.flow.emitted, w.flow.queue, c);
    DrainLosesNone(w.flow, c, out);
    a := DrainEmitter(1, multiset{c}, out);
    DrainIs(u, w, c, out);
  }

  lemma DrainIs(u: Setup, w: World, c: Correction, out: seq<Correction>)
    requires u.Valid() && c in w.flow.queue
    requires EmittedOnce(w.flow.emitted, w.flow.emitted + PoppedIds(multiset{c}), multiset{c}, out)
    requires LargestGone(multiset{c}, w.flow.queue - multiset{c})
    ensures var a := DrainEmitter(1, multiset{c}, out);
            && Upkeep(a) && Enabled(u, w, a) && Next(u, w, a) == w.(flow := Emit(w.flow, multiset{c}, out))
            && |Next(u, w, a).flow.queue| == |w.flow.queue| - 1
  {
    hide EmittedOnce, LargestGone, PoppedIds;
    assert multiset{c} <= w.flow.queue && |multiset{c}| == 1 <= |w.flow.queue|;
  }

  lemma FirstEmitted(before: set<nat>, q: multiset<Correction>, c: Correction)
    requires IsLargest(q, c)
    ensures c in q
    ensures var out := if c.cid in before then [] else [c];
            && EmittedOnce(before, before + PoppedIds(multiset{c}), multiset{c}, out)
            && LargestGone(multiset{c}, q - multiset{c})
  {
    assert PoppedIds(multiset{c}) == {c.cid};
    assert OutIds([c]) == {c.cid};
    assert OutIds([]) == {};
  }

  lemma DrainLosesNone(f: Flow, c: Correction, out: seq<Correction>)
    requires Sane(f) && c in f.queue
    ensures forall d :: Lost(Emit(f, multiset{c}, out), d) <==> Lost(f, d)
  {
    var g := Emit(f, multiset{c}, out);
    assert PoppedIds(multiset{c}) == {c.cid};
    forall d ensures Lost(g, d) <==> Lost(f, d) {
      if d in f.issued && d.cid == c.cid {
        assert d == c;
      }
    }
  }

  lemma {:induction false} EmptyQueue(u: Setup, w: World) returns (actions: seq<Action>, v: World)
    requires u.Valid() && Inv(u, w)
    ensures Extends(u, w, actions, v) && Downstream(u, w, v)
    ensures v.flow.queue == multiset{} && v.dlq == w.dlq
    decreases |w.flow.queue|
  {
    hide *;
    if w.flow.queue == multiset{} {
      Rest(u, w);
      return [], w;
    }
    FlowSane(u, w);
    var a := DrainOne(u, w);
    OneDownstream(u, w, a);
    var more, x := EmptyQueue(u, Next(u, w, a));
    Chain(u, w, [a], Next(u, w, a), more, x);
    DownstreamChain(u, w, Next(u, w, a), x);
    return [a] + more, x;
  }

  // ------------------------------------------------------------------
  // The dead-letter queue
  // ------------------------------------------------------------------

  /** The correction of a single entry. */
  lemma SingleCorrects(size: real, e: Entry, id: nat)
    requires size > 0.0
    ensures Corrects(size, [e], [Correction(id, KeyOf(size, e), 1, [e.id])], id)
  {
    var key := KeyOf(size, e);
    assert [e][..0] == [];
    forall k ensures CountKey(size, [e], k) == if k == key then 1 else 0 {
      assert CountKey(size, [e][..0], k) == 0;
    }
    assert Group(size, [e][..0], key) == [];
    assert Group(size, [e], key) == [e];
    assert Ids([e]) == [e.id];
    assert [Correction(id, key, 1, [e.id])][0].key == key;
  }

  lemma EnqueueFits(max: nat, c: Correction)
    requires max > 0
    ensures Enqueued(max, multiset{}, [c]) == multiset{c} && Dropped(max, multiset{}, [c]) == {}
  {
    assert [c][..0] == [];
    assert Enqueued(max, multiset{}, [c][..0]) == multiset{};
  }

  lemma IssueLosesNone(f: Flow, max: nat, c: Correction)
    requires Sane(f) && f.queue == multiset{} && max > 0 && c.cid == |f.issued|
    ensures forall d :: Lost(Issue(f, max, [c]), d) <==> Lost(f, d)
  {
    EnqueueFits(max, c);
  }

  /** Correcting the oldest entry is always possible, and an empty queue has room for it. */
  lemma CorrectOne(u: Setup, w: World) returns (a: Action)
    requires u.Valid() && Sane(w.flow) && w.dlq != [] && w.flow.queue == multiset{} && u.maxQueue > 0
    ensures Upkeep(a) && Enabled(u, w, a)
    ensures var v := Next(u, w, a);
            && v == w.(flow := v.flow, dlq := v.dlq) && |v.dlq| == |w.dlq| - 1
            && forall d :: Lost(v.flow, d) <==> Lost(w.flow, d)
  {
    hide *;
    SizePositive(u);
    var e, rest := Oldest(w.dlq);
    var c := Correction(|w.flow.issued|, KeyOf(u.Size(), e), 1, [e.id]);
    SingleCorrects(u.Size(), e, |w.flow.issued|);
    IssueLosesNone(w.flow, u.maxQueue, c);
    a := Correct(1, [e], rest, [c]);
    CorrectIs(u, w, e, rest, c);
  }

  lemma SizePositive(u: Setup)
    requires u.Valid()
    ensures u.Size() > 0.0
  {
  }

  lemma Oldest(es: seq<Entry>) returns (e: Entry, rest: seq<Entry>)
    requires es != []
    ensures IsDrain(es, 1, [e], rest) && |rest| == |es| - 1
  {
    SortKeeps(es);
    var sorted := SortByArrival(es);
    assert |sorted| == |multiset(sorted)| == |es|;
    e, rest := sorted[0], sorted[1..];
    assert [e] + rest == sorted;
  }

  lemma CorrectIs(u: Setup, w: World, e: Entry, rest: seq<Entry>, c: Correction)
    requires u.Valid() && IsDrain(w.dlq, 1, [e], rest) && Corrects(u.Size(), [e], [c], |w.flow.issued|)
    ensures var a := Correct(1, [e], rest, [c]);
            && Upkeep(a) && Enabled(u, w, a)
            && Next(u, w, a) == w.(flow := Issue(w.flow, u.maxQueue, [c]), dlq := rest)
  {
    hide IsDrain, Corrects, Issue;
  }

  lemma {:induction false} EmptyDlq(u: Setup, w: World) returns (actions: seq<Action>, v: World)
    requires u.Valid() && Inv(u, w) && w.flow.queue == multiset{} && u.maxQueue > 0
    ensures Extends(u, w, actions, v) && Downstream(u, w, v)
    ensures v.flow.queue == multiset{} && v.dlq == []
    decreases |w.dlq|
  {
    hide *;
    if w.dlq == [] {
      Rest(u, w);
      return [], w;
    }
    FlowSane(u, w);
    var a := CorrectOne(u, w);
    OneDownstream(u, w, a);
    var x := Next(u, w, a);
    var drain, y := EmptyQueue(u, x);
    DownstreamKeepsInv(u, x, y);
    var more, z := EmptyDlq(u, y);
    Chain(u, w, [a], x, drain, y);
    Chain(u, w, [a] + drain, y, more, z);
    DownstreamChain(u, w, x, y);
    DownstreamChain(u, w, y, z);
    return [a] + drain + more, z;
  }

  // ------------------------------------------------------------------
  // The sink
  // ------------------------------------------------------------------

  lemma Undelivered(f: Flow) returns (c: Correction)
    requires Sane(f) && !(f.emitted <= f.processed)
    ensures c in f.wire && c.cid in f.emitted && c.cid !in f.processed
  {
    var i :| i in f.emitted && i !in f.processed;
    EmittedIsIssued(f, i);
    c := f.issued[i];
  }

  lemma DeliverIs(u: Setup, w: World, c: Correction)
    requires u.Valid() && c in w.flow.wire
    ensures var a := DeliverOne(c);
            && Upkeep(a) && Enabled(u, w, a)
            && Next(u, w, a) == w.(flow := w.flow.(processed := w.flow.processed + {c.cid},
                                                   rows := Next(u, w, a).flow.rows))
            && forall d :: Lost(Next(u, w, a).flow, d) <==> Lost(w.flow, d)
  {
  }

  lemma {:induction false} DeliverAll(u: Setup, w: World) returns (actions: seq<Action>, v: World)
    requires u.Valid() && Inv(u, w)
    ensures Extends(u, w, actions, v) && Downstream(u, w, v)
    ensures v.flow.queue == w.flow.queue && v.dlq == w.dlq && v.flow.emitted <= v.flow.processed
    decreases w.flow.emitted - w.flow.processed
  {
    hide *;
    if w.flow.emitted <= w.flow.processed {
      Rest(u, w);
      return [], w;
    }
    FlowSane(u, w);
    var c := Undelivered(w.flow);
    var a := DeliverOne(c);
    DeliverIs(u, w, c);
    OneDownstream(u, w, a);
    var more, x := DeliverAll(u, Next(u, w, a));
    Chain(u, w, [a], Next(u, w, a), more, x);
    DownstreamChain(u, w, Next(u, w, a), x);
    return [a] + more, x;
  }

  // ------------------------------------------------------------------
  // Together
  // ------------------------------------------------------------------

  /** From every reachable world, upkeep alone leads to a world where nothing is in flight for window `k`
      and where the sink shows exactly the events of the window seen so far, if and only if neither the
      retention purge nor a full emitter queue had already taken one of them. */
  lemma CanAlwaysSettle(u: Setup, pids: set<int>, before: seq<Action>, w: World, k: Key)
    returns (actions: seq<Action>, v: World)
    requires u.Valid() && u.maxQueue > 0 && IsRun(u, pids, before, w) && k.partition in w.engines
    ensures Extends(u, w, actions, v) && v.history == w.history
    ensures k.partition in v.engines && Settled(v, k)
    ensures SinkCount(v, k) == Passed(u.Size(), w.history, k) <==>
              CountKey(u.Size(), w.expired, k) == 0 && forall c :: Lost(w.flow, c) ==> c.key != k
  {
    RunKeepsInv(u, pids, before, w);
    hide IsRun, Extends, Inv, Lost, CountKey;
    var a0, w0 := EmptyEngine(u, w, k.partition);
    var a1, w1 := EmptyQueue(u, w0);
    var a2, w2 := EmptyDlq(u, w1);
    var a3, w3 := DeliverAll(u, w2);
    Chain(u, w, a0, w0, a1, w1);
    Chain(u, w, a0 + a1, w1, a2, w2);
    Chain(u, w, a0 + a1 + a2, w2, a3, w3);
    actions, v := a0 + a1 + a2 + a3, w3;
    AllDelivered(u, v);
    SettledIsComplete(u, v, k);
  }

  lemma AllDelivered(u: Setup, v: World)
    requires u.Valid() && Inv(u, v) && v.flow.emitted <= v.flow.processed
    ensures forall c :: c in v.flow.wire ==> c.cid in v.flow.processed
  {
  }
}
