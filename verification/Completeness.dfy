/** Engines, dead-letter queue, emitter and sink together: where every event is, at every moment of every
    interleaving. Corrections may be delivered in any order and any number of times. */
module Completeness {
  import opened Corrections
  import opened Dlq
  import opened DlqSpec
  import opened HeuristicHistory
  import opened HeuristicTotals
  import H = HeuristicSpec
  import W = HeuristicWatermark
  import Extended
  import S = StrictSpec

  /** `base` holds the published results, `expired` what the retention purge removed, and `history` the events
      that arrived at each engine, repetitions included. */
  datatype World = World(
    engines: map<int, H.State>, dlq: seq<Entry>, expired: seq<Entry>, flow: Flow,
    base: map<Key, nat>, history: map<int, seq<W.Op>>)

  datatype Action =
    | Arrive(p: int, e: S.Event, arrival: real, a: H.Ambient)
    | GlobalWatermark(p: int, g: Extended.Ext, phase0: bool, sweep: bool)
    | FlushEngine(p: int)
    | Pump(p: int)
    | Publish(p: int)
    | Expire(cutoff: real)
    | Correct(n: nat, batch: seq<Entry>, rest: seq<Entry>, cs: seq<Correction>)
    | RequeueOne(c: Correction)
    | DrainEmitter(n: nat, popped: multiset<Correction>, out: seq<Correction>)
    | DeliverOne(c: Correction)

  /** The shared parameters; `maxQueue` is the emitter's. */
  datatype Setup = Setup(params: H.Params, maxQueue: nat) {
    ghost predicate Valid() {
      params.Valid()
    }

    function At(p: int): H.Params {
      params.(partition := p)
    }

    function Size(): real {
      params.size
    }
  }

  ghost function Start(u: Setup, pids: set<int>): World {
    World(map p | p in pids :: H.Init(u.At(p)), [], [], IDLE, map[], map p | p in pids :: [])
  }

  ghost predicate Enabled(u: Setup, w: World, a: Action)
    requires u.Valid()
  {
    match a
    case Arrive(p, _, _, _) => p in w.engines
    case GlobalWatermark(p, _, _, _) => p in w.engines
    case FlushEngine(p) => p in w.engines
    case Pump(p) => p in w.engines
    case Publish(p) => p in w.engines
    case Expire(_) => true
    case Correct(n, batch, rest, cs) =>
      IsDrain(w.dlq, n, batch, rest) && Corrects(u.Size(), batch, cs, |w.flow.issued|)
    case RequeueOne(c) => c in w.flow.issued
    case DrainEmitter(n, popped, out) =>
      && popped <= w.flow.queue
      && |popped| == (if n <= |w.flow.queue| then n else |w.flow.queue|)
      && LargestGone(popped, w.flow.queue - popped)
      && EmittedOnce(w.flow.emitted, w.flow.emitted + PoppedIds(popped), popped, out)
    case DeliverOne(c) => c in w.flow.wire
  }

  /** What arrived at engine `p` so far. */
  ghost function Past(w: World, p: int): seq<W.Op> {
    if p in w.history then w.history[p] else []
  }

  ghost function Next(u: Setup, w: World, a: Action): World
    requires u.Valid() && Enabled(u, w, a)
  {
    match a
    case Arrive(p, e, arrival, ambient) =>
      w.(engines := w.engines[p := H.Process(u.At(p), w.engines[p], e, arrival, ambient)],
         history := w.history[p := Past(w, p) + [W.Arrive(e, arrival, ambient)]])
    case GlobalWatermark(p, g, phase0, sweep) =>
      w.(engines := w.engines[p := H.UpdateGlobal(u.At(p), w.engines[p], g, phase0, sweep)])
    case FlushEngine(p) => w.(engines := w.engines[p := H.Flush(u.At(p), w.engines[p])])
    case Pump(p) =>
      w.(engines := w.engines[p := w.engines[p].(late := [])], dlq := w.dlq + w.engines[p].late)
    case Publish(p) =>
      w.(engines := w.engines[p := w.engines[p].(pending := [])],
         base := Published(w.base, w.engines[p].pending))
    case Expire(cutoff) => w.(dlq := Newer(w.dlq, cutoff), expired := w.expired + Older(w.dlq, cutoff))
    case Correct(n, batch, rest, cs) => w.(dlq := rest, flow := Issue(w.flow, u.maxQueue, cs))
    case RequeueOne(c) => w.(flow := Enqueue(w.flow, u.maxQueue, [c]))
    case DrainEmitter(n, popped, out) => w.(flow := Emit(w.flow, popped, out))
    case DeliverOne(c) => w.(flow := Deliver(w.flow, c))
  }

  ghost predicate IsRun(u: Setup, pids: set<int>, actions: seq<Action>, w: World)
    requires u.Valid()
  {
    if actions == [] then w == Start(u, pids) else
      var n := |actions| - 1;
      exists v :: IsRun(u, pids, actions[..n], v) && Enabled(u, v, actions[n]) && w == Next(u, v, actions[n])
  }

  // ------------------------------------------------------------------
  // The invariant
  // ------------------------------------------------------------------

  ghost predicate EnginesOk(u: Setup, w: World)
    requires u.Valid()
  {
    forall p :: p in w.engines ==> Sound(u.At(p), w.engines[p]) && Reported(u.At(p), w.engines[p], w.base)
  }

  /** Where the events of window `k` are. */
  ghost function Located(u: Setup, w: World, k: Key): nat
    requires u.Valid() && k.partition in w.engines
  {
    Holding(u.At(k.partition), w.engines[k.partition], k) + CountKey(u.Size(), w.dlq, k) +
    CountKey(u.Size(), w.expired, k) + DeltaOf(w.flow.issued, k)
  }

  /** How many events of window `k` were no repetition, read off the history alone. */
  ghost function Passed(size: real, history: map<int, seq<W.Op>>, k: Key): nat
    requires size > 0.0
  {
    if k.partition in history then PassedIn(size, history[k.partition], k.start) else 0
  }

  /** The ids an engine remembers are those its history says. */
  ghost predicate HistoriesOk(w: World) {
    && w.history.Keys == w.engines.Keys
    && forall p :: p in w.engines ==> SeenIs(w.history[p], |w.history[p]|, w.engines[p].seen)
  }

  /** The books balance. */
  ghost predicate Balanced(u: Setup, w: World)
    requires u.Valid()
  {
    forall k: Key :: k.partition in w.engines ==> Passed(u.Size(), w.history, k) == Located(u, w, k)
  }

  ghost predicate Inv(u: Setup, w: World)
    requires u.Valid()
  {
    Books(u, w) && HistoriesOk(w)
  }

  ghost predicate Books(u: Setup, w: World)
    requires u.Valid()
  {
    EnginesOk(u, w) && Balanced(u, w) && Sane(w.flow)
  }

  // ------------------------------------------------------------------
  // Engine steps
  // ------------------------------------------------------------------

  /** The world after engine `p` has moved to `t` by a step that keeps its holdings. */
  lemma QuietEngineStep(u: Setup, w: World, p: int, t: H.State)
    requires u.Valid() && EnginesOk(u, w) && Balanced(u, w) && p in w.engines
    requires Sound(u.At(p), t) && Reported(u.At(p), t, w.base) && SameHoldings(w.engines[p], t)
    ensures EnginesOk(u, w.(engines := w.engines[p := t])) && Balanced(u, w.(engines := w.engines[p := t]))
  {
    var v := w.(engines := w.engines[p := t]);
    hide Sound, Reported, CountKey, DeltaOf;
    forall k: Key | k.partition in v.engines ensures Passed(u.Size(), v.history, k) == Located(u, v, k) {
      assert Passed(u.Size(), w.history, k) == Located(u, w, k);
    }
  }

  /** One arrival at an engine whose memory is its history's. */
  lemma ArriveFacts(p: H.Params, s: H.State, past: seq<W.Op>, op: W.Op, base: map<Key, nat>)
    requires p.Valid() && op.Arrive? && Sound(p, s) && Reported(p, s, base) && SeenIs(past, |past|, s.seen)
    ensures var t := W.Step(p, s, op);
            && Sound(p, t) && Reported(p, t, base) && SeenIs(past + [op], |past + [op]|, t.seen)
            && if Repeats(past + [op], |past|) then SameHoldings(s, t) else OneMoreAt(p, s, t, op.e)
  {
    hide H.Process, Sound, Reported, SameHoldings, SeenIs, Repeats, OneMoreAt;
    ProcessHolds(p, s, op.e, op.arrival, op.a, base);
    SeenSnoc(p, past, s, op);
  }

  lemma ArriveIs(u: Setup, w: World, p: int, op: W.Op)
    requires u.Valid() && op.Arrive? && p in w.engines && p in w.history
    ensures Next(u, w, Arrive(p, op.e, op.arrival, op.a)) ==
            w.(engines := w.engines[p := W.Step(u.At(p), w.engines[p], op)],
               history := w.history[p := w.history[p] + [op]])
  {
    hide H.Process;
  }

  lemma ArriveStep(u: Setup, w: World, p: int, e: S.Event, arrival: real, a: H.Ambient)
    requires u.Valid() && EnginesOk(u, w) && Balanced(u, w) && HistoriesOk(w) && p in w.engines
    ensures var v := Next(u, w, Arrive(p, e, arrival, a)); EnginesOk(u, v) && Balanced(u, v) && HistoriesOk(v)
  {
    var op := W.Arrive(e, arrival, a);
    HistoryOf(w, p);
    EngineOf(u, w, p);
    hide *;
    ArriveFacts(u.At(p), w.engines[p], w.history[p], op, w.base);
    ArriveIs(u, w, p, op);
    var t := W.Step(u.At(p), w.engines[p], op);
    HistoryGrows(w, p, t, w.history[p] + [op]);
    if Repeats(w.history[p] + [op], |w.history[p]|) {
      QuietEngineStep(u, w, p, t);
      RepeatedStep(u, w.(engines := w.engines[p := t]), p, op);
    } else {
      CountedStep(u, w, p, t, op);
    }
  }

  lemma HistoryOf(w: World, p: int)
    requires HistoriesOk(w) && p in w.engines
    ensures p in w.history && SeenIs(w.history[p], |w.history[p]|, w.engines[p].seen)
  {
  }

  lemma HistoryGrows(w: World, p: int, t: H.State, ops: seq<W.Op>)
    requires HistoriesOk(w) && p in w.engines && SeenIs(ops, |ops|, t.seen)
    ensures HistoriesOk(w.(engines := w.engines[p := t], history := w.history[p := ops]))
  {
    hide SeenIs;
  }

  /** A repetition adds nothing to the books. */
  lemma RepeatedStep(u: Setup, w: World, p: int, op: W.Op)
    requires u.Valid() && EnginesOk(u, w) && Balanced(u, w) && p in w.history
    requires op.Arrive? && Repeats(w.history[p] + [op], |w.history[p]|)
    ensures var v := w.(history := w.history[p := w.history[p] + [op]]); EnginesOk(u, v) && Balanced(u, v)
  {
    var v := w.(history := w.history[p := w.history[p] + [op]]);
    hide Sound, Reported, CountKey, DeltaOf, Holding, Repeats, PassedIn;
    forall k: Key | k.partition in v.engines ensures Passed(u.Size(), v.history, k) == Located(u, v, k) {
      assert Passed(u.Size(), w.history, k) == Located(u, w, k);
      PassedSnoc(u.Size(), w.history[p], op, k.start);
    }
  }

  lemma CountedStep(u: Setup, w: World, p: int, t: H.State, op: W.Op)
    requires u.Valid() && EnginesOk(u, w) && Balanced(u, w) && p in w.engines && p in w.history
    requires op.Arrive? && !Repeats(w.history[p] + [op], |w.history[p]|)
    requires Sound(u.At(p), t) && Reported(u.At(p), t, w.base) && OneMoreAt(u.At(p), w.engines[p], t, op.e)
    ensures var v := w.(engines := w.engines[p := t], history := w.history[p := w.history[p] + [op]]);
            EnginesOk(u, v) && Balanced(u, v)
  {
    var v := w.(engines := w.engines[p := t], history := w.history[p := w.history[p] + [op]]);
    hide Sound, Reported, CountKey, DeltaOf, Holding, Repeats, PassedIn;
    forall k: Key | k.partition in v.engines ensures Passed(u.Size(), v.history, k) == Located(u, v, k) {
      assert Passed(u.Size(), w.history, k) == Located(u, w, k);
      PassedSnoc(u.Size(), w.history[p], op, k.start);
    }
  }

  lemma PumpStep(u: Setup, w: World, p: int)
    requires u.Valid() && EnginesOk(u, w) && Balanced(u, w) && p in w.engines
    ensures var v := Next(u, w, Pump(p)); EnginesOk(u, v) && Balanced(u, v)
  {
    var v := Next(u, w, Pump(p));
    var late := w.engines[p].late;
    hide DeltaOf, Reported, CountKey;
    forall k: Key | k.partition in v.engines ensures Passed(u.Size(), v.history, k) == Located(u, v, k) {
      assert Passed(u.Size(), w.history, k) == Located(u, w, k);
      CountConcat(u.Size(), w.dlq, late, k);
      if k.partition != p {
        NoneElsewhere(u.Size(), late, k);
      } else {
        NoneLeft(u.Size(), k);
      }
    }
    EnginesPump(u, w, p);
  }

  lemma NoneLeft(size: real, k: Key)
    requires size > 0.0
    ensures CountKey(size, [], k) == 0
  {
  }

  /** Only arrivals change what is remembered. */
  lemma HistoriesStay(u: Setup, w: World, a: Action)
    requires u.Valid() && HistoriesOk(w) && Enabled(u, w, a) && !a.Arrive?
    ensures HistoriesOk(Next(u, w, a))
  {
    hide SeenIs, H.CloseWindows, H.Close, Published, Issue, Enqueue;
    match a
    case GlobalWatermark(p, g, phase0, sweep) =>
      CloseWindowsKeepsSeen(u.At(p), w.engines[p].(wGlobal := w.engines[p].wGlobal.Max(g)), phase0, sweep);
    case FlushEngine(p) => FlushKeepsSeen(u.At(p), w.engines[p]);
    case _ =>
  }

  lemma FlushKeepsSeen(p: H.Params, s: H.State)
    ensures H.Flush(p, s).seen == s.seen
  {
  }

  lemma EnginesPump(u: Setup, w: World, p: int)
    requires u.Valid() && EnginesOk(u, w) && p in w.engines
    ensures EnginesOk(u, Next(u, w, Pump(p)))
  {
  }

  /** Publishing keeps the accounts: a queued result carries the count its window was closed with. */
  lemma PublishStep(u: Setup, w: World, p: int)
    requires u.Valid() && EnginesOk(u, w) && Balanced(u, w) && p in w.engines
    ensures var v := Next(u, w, Publish(p)); EnginesOk(u, v) && Balanced(u, v)
  {
    hide EnginesOk, Balanced;
    EnginesPublish(u, w, p);
    BooksPublish(u, w, p);
  }

  lemma BooksPublish(u: Setup, w: World, p: int)
    requires u.Valid() && Balanced(u, w) && p in w.engines
    ensures Balanced(u, Next(u, w, Publish(p)))
  {
    hide DeltaOf, CountKey, Published, Holding;
    var v := Next(u, w, Publish(p));
    forall k: Key | k.partition in v.engines ensures Passed(u.Size(), v.history, k) == Located(u, v, k) {
      assert Passed(u.Size(), w.history, k) == Located(u, w, k);
      PendingNotHeld(u.At(k.partition), w.engines[k.partition], k);
    }
  }

  /** A queued result is not counted again. */
  lemma PendingNotHeld(p: H.Params, s: H.State, k: Key)
    requires p.Valid()
    ensures Holding(p, s.(pending := []), k) == Holding(p, s, k)
  {
  }

  lemma EnginesPublish(u: Setup, w: World, p: int)
    requires u.Valid() && EnginesOk(u, w) && p in w.engines
    ensures EnginesOk(u, Next(u, w, Publish(p)))
  {
    hide Sound, Reported, Published;
    var v := Next(u, w, Publish(p));
    forall q | q in v.engines ensures Sound(u.At(q), v.engines[q]) && Reported(u.At(q), v.engines[q], v.base) {
      PublishReports(u.At(p), w.engines[p], u.At(q), w.engines[q], w.base);
    }
  }

  /** Publishing the results of engine `s` seen from any engine `t`. */
  lemma PublishReports(p: H.Params, s: H.State, q: H.Params, t: H.State, base: map<Key, nat>)
    requires Sound(p, s) && Reported(p, s, base)
    requires Sound(q, t) && Reported(q, t, base)
    requires p.partition == q.partition ==> p == q && s == t
    ensures var t' := if p.partition == q.partition then t.(pending := []) else t;
            Sound(q, t') && Reported(q, t', Published(base, s.pending))
  {
    var after := Published(base, s.pending);
    forall w ensures Key(q.partition, w) in after <==>
                       || Key(q.partition, w) in base
                       || (p.partition == q.partition && w in s.closed && s.closed[w] in s.pending)
    {
      PublishedKeys(base, s.pending, Key(q.partition, w));
      if w in s.closed && s.closed[w] in s.pending && p.partition == q.partition {
        assert KeyOfResult(s.closed[w]) == Key(q.partition, w);
      }
    }
    hide Published;
    forall w | Key(q.partition, w) in after
      ensures w in t.closed && after[Key(q.partition, w)] == t.closed[w].count
    {
      PublishedCount(base, s.pending, Key(q.partition, w));
    }
  }

  // ------------------------------------------------------------------
  // Queue steps
  // ------------------------------------------------------------------

  lemma ExpireStep(u: Setup, w: World, cutoff: real)
    requires u.Valid() && EnginesOk(u, w) && Balanced(u, w)
    ensures var v := Next(u, w, Expire(cutoff)); EnginesOk(u, v) && Balanced(u, v)
  {
    var v := Next(u, w, Expire(cutoff));
    hide Holding, DeltaOf, CountKey, Sound, Reported;
    forall k: Key | k.partition in v.engines ensures Passed(u.Size(), v.history, k) == Located(u, v, k) {
      assert Passed(u.Size(), w.history, k) == Located(u, w, k);
      PurgeCounts(u.Size(), w.dlq, cutoff, k);
      CountConcat(u.Size(), w.expired, Older(w.dlq, cutoff), k);
    }
  }

  lemma PurgeCounts(size: real, es: seq<Entry>, cutoff: real, k: Key)
    requires size > 0.0
    ensures CountKey(size, Older(es, cutoff), k) + CountKey(size, Newer(es, cutoff), k) == CountKey(size, es, k)
  {
    PurgeSplits(es, cutoff);
    CountConcat(size, Older(es, cutoff), Newer(es, cutoff), k);
    CountPermuted(size, Older(es, cutoff) + Newer(es, cutoff), es, k);
  }

  lemma CorrectBalances(u: Setup, w: World, n: nat, batch: seq<Entry>, rest: seq<Entry>, cs: seq<Correction>)
    requires u.Valid() && Books(u, w) && Enabled(u, w, Correct(n, batch, rest, cs))
    ensures Balanced(u, Next(u, w, Correct(n, batch, rest, cs)))
  {
    var v := Next(u, w, Correct(n, batch, rest, cs));
    hide Holding, DeltaOf, CountKey, Sound, Reported, Corrects, ByArrival;
    forall k: Key | k.partition in v.engines ensures Passed(u.Size(), v.history, k) == Located(u, v, k) {
      assert Passed(u.Size(), w.history, k) == Located(u, w, k);
      CountPermuted(u.Size(), batch + rest, w.dlq, k);
      CountConcat(u.Size(), batch, rest, k);
      CorrectionsConserve(u.Size(), batch, cs, |w.flow.issued|, k);
      DeltaConcat(w.flow.issued, cs, k);
    }
  }

  lemma SameEngines(u: Setup, w: World, v: World)
    requires u.Valid() && EnginesOk(u, w) && w.engines == v.engines && w.base == v.base
    ensures EnginesOk(u, v)
  {
  }

  lemma SameBooks(u: Setup, w: World, v: World)
    requires u.Valid() && Balanced(u, w) && w.engines == v.engines && w.dlq == v.dlq && w.expired == v.expired
    requires w.flow.issued == v.flow.issued && w.history == v.history
    ensures Balanced(u, v)
  {
    hide Holding, CountKey, DeltaOf;
    forall k: Key | k.partition in v.engines ensures Passed(u.Size(), v.history, k) == Located(u, v, k) {
      assert Passed(u.Size(), w.history, k) == Located(u, w, k);
    }
  }

  lemma FlowStep(u: Setup, w: World, f: Flow)
    requires u.Valid() && Books(u, w) && Sane(f) && f.issued == w.flow.issued
    ensures Books(u, w.(flow := f))
  {
    hide Sane, EnginesOk, Balanced;
    SameEngines(u, w, w.(flow := f));
    SameBooks(u, w, w.(flow := f));
  }

  lemma CorrectStep(u: Setup, w: World, n: nat, batch: seq<Entry>, rest: seq<Entry>, cs: seq<Correction>)
    requires u.Valid() && Books(u, w) && Enabled(u, w, Correct(n, batch, rest, cs))
    ensures Books(u, Next(u, w, Correct(n, batch, rest, cs)))
  {
    assert forall i :: 0 <= i < |cs| ==> cs[i].cid == |w.flow.issued| + i && cs[i].delta > 0;
    hide Sane, EnginesOk, Balanced, Corrects, IsDrain;
    IssueKeeps(w.flow, u.maxQueue, cs);
    CorrectBalances(u, w, n, batch, rest, cs);
    SameEngines(u, w, Next(u, w, Correct(n, batch, rest, cs)));
  }

  lemma NextKeepsInv(u: Setup, w: World, a: Action)
    requires u.Valid() && Inv(u, w) && Enabled(u, w, a)
    ensures Inv(u, Next(u, w, a))
  {
    if a.Arrive? {
      hide H.Process, EnginesOk, Balanced, Sane, HistoriesOk;
      ArriveStep(u, w, a.p, a.e, a.arrival, a.a);
    } else {
      hide Next, Enabled, Books, HistoriesOk;
      HistoriesStay(u, w, a);
      NextKeepsBooks(u, w, a);
    }
  }

  lemma NextKeepsBooks(u: Setup, w: World, a: Action)
    requires u.Valid() && Books(u, w) && Enabled(u, w, a) && !a.Arrive?
    ensures Books(u, Next(u, w, a))
  {
    hide EnginesOk, Balanced, Sane, Issue, H.Process, H.UpdateGlobal, H.Flush;
    hide EmittedOnce, LargestGone, Sound, Reported, SameHoldings;
    match a
    case GlobalWatermark(p, g, phase0, sweep) =>
      EngineOf(u, w, p);
      UpdateGlobalKeeps(u.At(p), w.engines[p], g, phase0, sweep, w.base);
      QuietEngineStep(u, w, p, H.UpdateGlobal(u.At(p), w.engines[p], g, phase0, sweep));
    case FlushEngine(p) =>
      EngineOf(u, w, p);
      FlushKeeps(u.At(p), w.engines[p], w.base);
      QuietEngineStep(u, w, p, H.Flush(u.At(p), w.engines[p]));
    case Pump(p) => PumpStep(u, w, p);
    case Publish(p) => PublishStep(u, w, p);
    case Expire(cutoff) => ExpireStep(u, w, cutoff);
    case Correct(n, batch, rest, cs) => CorrectStep(u, w, n, batch, rest, cs);
    case RequeueOne(c) =>
      RequeueKeeps(w.flow, u.maxQueue, c);
      FlowStep(u, w, Enqueue(w.flow, u.maxQueue, [c]));
    case DrainEmitter(n, popped, out) =>
      EmitKeeps(w.flow, popped, out);
      FlowStep(u, w, Emit(w.flow, popped, out));
    case DeliverOne(c) =>
      DeliverKeeps(w.flow, c);
      FlowStep(u, w, Deliver(w.flow, c));
  }

  lemma EngineOf(u: Setup, w: World, p: int)
    requires u.Valid() && EnginesOk(u, w) && p in w.engines
    ensures Sound(u.At(p), w.engines[p]) && Reported(u.At(p), w.engines[p], w.base)
  {
  }

  lemma StartInv(u: Setup, pids: set<int>)
    requires u.Valid()
    ensures Inv(u, Start(u, pids))
  {
  }

  lemma {:induction false} RunKeepsInv(u: Setup, pids: set<int>, actions: seq<Action>, w: World)
    requires u.Valid() && IsRun(u, pids, actions, w)
    ensures Inv(u, w)
    decreases |actions|
  {
    if actions == [] {
      StartInv(u, pids);
    } else {
      var n := |actions| - 1;
      var v :| IsRun(u, pids, actions[..n], v) && Enabled(u, v, actions[n]) && w == Next(u, v, actions[n]);
      RunKeepsInv(u, pids, actions[..n], v);
      NextKeepsInv(u, v, actions[n]);
    }
  }

  lemma FlowSane(u: Setup, w: World)
    requires u.Valid() && Inv(u, w)
    ensures Sane(w.flow)
  {
  }

  /** What a run delivered to engine `p`. */
  ghost function Arrivals(actions: seq<Action>, p: int): seq<W.Op> {
    if actions == [] then [] else
      var n := |actions| - 1;
      var a := actions[n];
      Arrivals(actions[..n], p) + if a.Arrive? && a.p == p then [W.Arrive(a.e, a.arrival, a.a)] else []
  }

  lemma HistoryNext(u: Setup, w: World, a: Action, p: int)
    requires u.Valid() && Enabled(u, w, a) && w.history.Keys == w.engines.Keys
    ensures var v := Next(u, w, a);
            && v.history.Keys == w.history.Keys && v.engines.Keys == w.engines.Keys
            && (p in w.history ==>
                  v.history[p] == w.history[p] + if a.Arrive? && a.p == p then [W.Arrive(a.e, a.arrival, a.a)] else [])
  {
    hide H.Process, H.UpdateGlobal, H.Flush, Published, Issue, Enqueue, Emit, Deliver, Newer, Older;
  }

  lemma {:induction false} HistoryIs(u: Setup, pids: set<int>, actions: seq<Action>, w: World, p: int)
    requires u.Valid() && IsRun(u, pids, actions, w)
    ensures w.history.Keys == w.engines.Keys == pids
    ensures p in pids ==> w.history[p] == Arrivals(actions, p)
    decreases |actions|
  {
    if actions != [] {
      var n := |actions| - 1;
      var v :| IsRun(u, pids, actions[..n], v) && Enabled(u, v, actions[n]) && w == Next(u, v, actions[n]);
      HistoryIs(u, pids, actions[..n], v, p);
      hide Next, Enabled, IsRun;
      HistoryNext(u, v, actions[n], p);
    }
  }

  // ------------------------------------------------------------------
  // The results
  // ------------------------------------------------------------------

  /** What the sink shows for window `k`: the published result and the corrections applied to it. */
  function SinkCount(w: World, k: Key): nat {
    (if k in w.base then w.base[k] else 0) + RowOf(w.flow.rows, k).count
  }

  /** Conservation: at every moment of every run, every event that repeats no other, by the history of arrivals
      alone, is in exactly one place: its window, the late events, the dead-letter queue, the retention purge, or
      the delta of an issued correction; and every issued correction is queued, emitted, or was dropped by a full
      queue. */
  lemma EveryEventIsSomewhere(u: Setup, pids: set<int>, actions: seq<Action>, w: World, k: Key)
    requires u.Valid() && IsRun(u, pids, actions, w) && k.partition in w.engines
    ensures PassedIn(u.Size(), Arrivals(actions, k.partition), k.start) == Passed(u.Size(), w.history, k)
    ensures Passed(u.Size(), w.history, k) == Located(u, w, k)
    ensures forall c :: c in w.flow.issued ==>
              c in w.flow.queue || c.cid in w.flow.emitted || c.cid in w.flow.overflowed
  {
    RunKeepsInv(u, pids, actions, w);
    HistoryIs(u, pids, actions, w, k.partition);
    hide IsRun, Located, PassedIn;
  }

  /** The sink never shows more events than there were. */
  lemma NeverTooMany(u: Setup, pids: set<int>, actions: seq<Action>, w: World, k: Key)
    requires u.Valid() && IsRun(u, pids, actions, w) && k.partition in w.engines
    ensures SinkCount(w, k) <= Passed(u.Size(), w.history, k)
  {
    RunKeepsInv(u, pids, actions, w);
    hide IsRun, DeltaIn, DeltaOf, CountKey;
    assert Passed(u.Size(), w.history, k) == Located(u, w, k);
    DeltaInBelow(w.flow.issued, w.flow.processed, k);
    BaseIsHeld(u, w, k);
  }

  lemma BaseIsHeld(u: Setup, w: World, k: Key)
    requires u.Valid() && EnginesOk(u, w) && k.partition in w.engines
    ensures k in w.base ==> w.base[k] == HeldCount(w.engines[k.partition], k.start)
  {
    if k in w.base {
      assert Key(k.partition, k.start) == k;
    }
  }

  /** Nothing is in flight for window `k`. */
  ghost predicate Settled(w: World, k: Key)
    requires k.partition in w.engines
  {
    var s := w.engines[k.partition];
    && k.start !in s.open && s.pending == [] && s.late == [] && w.dlq == [] && w.flow.queue == multiset{}
    && forall c :: c in w.flow.wire ==> c.cid in w.flow.processed
  }

  /** A correction that a full queue dropped, that was never emitted, and that is not queued either. */
  ghost predicate Lost(f: Flow, c: Correction) {
    c in f.issued && c.cid in f.overflowed && c.cid !in f.emitted && c !in f.queue
  }

  lemma LostMeansMissing(w: World, k: Key)
    requires Sane(w.flow) && w.flow.queue == multiset{}
    ensures DeltaIn(w.flow.issued, w.flow.emitted, k) <= DeltaOf(w.flow.issued, k)
    ensures DeltaIn(w.flow.issued, w.flow.emitted, k) == DeltaOf(w.flow.issued, k) <==>
              forall c :: Lost(w.flow, c) ==> c.key != k
  {
    MissingDelta(w.flow.issued, w.flow.emitted, k);
  }

  /** Eventual completeness: once nothing is in flight, the sink shows the true count of the window if and
      only if no entry of the window fell to the retention purge and no correction of it was lost to a
      full emitter queue. */
  lemma EventuallyComplete(u: Setup, pids: set<int>, actions: seq<Action>, w: World, k: Key)
    requires u.Valid() && IsRun(u, pids, actions, w) && k.partition in w.engines && Settled(w, k)
    ensures SinkCount(w, k) == Passed(u.Size(), w.history, k) <==>
              CountKey(u.Size(), w.expired, k) == 0 && forall c :: Lost(w.flow, c) ==> c.key != k
  {
    RunKeepsInv(u, pids, actions, w);
    hide IsRun;
    SettledIsComplete(u, w, k);
  }

  lemma SettledIsComplete(u: Setup, w: World, k: Key)
    requires u.Valid() && Inv(u, w) && k.partition in w.engines && Settled(w, k)
    ensures SinkCount(w, k) == Passed(u.Size(), w.history, k) <==>
              CountKey(u.Size(), w.expired, k) == 0 && forall c :: Lost(w.flow, c) ==> c.key != k
  {
    SettledCount(u, w, k);
    LostMeansMissing(w, k);
  }

  /** The count of a settled window, exactly. */
  lemma SettledCount(u: Setup, w: World, k: Key)
    requires u.Valid() && Inv(u, w) && k.partition in w.engines && Settled(w, k)
    ensures w.flow.processed == w.flow.emitted
    ensures SinkCount(w, k) + CountKey(u.Size(), w.expired, k) + DeltaOf(w.flow.issued, k) ==
            Passed(u.Size(), w.history, k) + DeltaIn(w.flow.issued, w.flow.emitted, k)
  {
    assert Passed(u.Size(), w.history, k) == Located(u, w, k);
    hide DeltaIn, DeltaOf, Balanced;
    AllProcessed(w, k);
    SettledIsPublished(u, w, k);
    NoneLeft(u.Size(), k);
  }

  lemma AllProcessed(w: World, k: Key)
    requires Sane(w.flow) && k.partition in w.engines && Settled(w, k)
    ensures w.flow.processed == w.flow.emitted
  {
    forall i | i in w.flow.emitted ensures i in w.flow.processed {
      EmittedIsIssued(w.flow, i);
    }
  }

  lemma SettledIsPublished(u: Setup, w: World, k: Key)
    requires u.Valid() && EnginesOk(u, w) && k.partition in w.engines && Settled(w, k)
    ensures (if k in w.base then w.base[k] else 0) == HeldCount(w.engines[k.partition], k.start)
  {
    assert Key(k.partition, k.start) == k;
  }

  // ------------------------------------------------------------------
  // Room in the emitter's queue
  // ------------------------------------------------------------------

  /** What a caller can check before enqueueing: there is room for every correction. */
  ghost predicate HasRoom(u: Setup, w: World, a: Action) {
    match a
    case Correct(_, _, _, cs) => |w.flow.queue| + |cs| <= u.maxQueue
    case RequeueOne(_) => |w.flow.queue| + 1 <= u.maxQueue
    case _ => true
  }

  /** A run in which every enqueueing was checked first. */
  ghost predicate IsRoomyRun(u: Setup, pids: set<int>, actions: seq<Action>, w: World)
    requires u.Valid()
  {
    if actions == [] then w == Start(u, pids) else
      var n := |actions| - 1;
      exists v ::
        && IsRoomyRun(u, pids, actions[..n], v) && Enabled(u, v, actions[n]) && HasRoom(u, v, actions[n])
        && w == Next(u, v, actions[n])
  }

  lemma RoomyStep(u: Setup, w: World, a: Action)
    requires u.Valid() && Enabled(u, w, a) && HasRoom(u, w, a) && w.flow.overflowed == {}
    ensures Next(u, w, a).flow.overflowed == {}
  {
    match a
    case Correct(_, _, _, cs) => EnqueueWithRoom(u.maxQueue, w.flow.queue, cs);
    case RequeueOne(c) => EnqueueWithRoom(u.maxQueue, w.flow.queue, [c]);
    case _ =>
  }

  /** If every enqueueing was checked first, no correction is ever lost. */
  lemma {:induction false} RoomyRunLosesNone(u: Setup, pids: set<int>, actions: seq<Action>, w: World)
    requires u.Valid() && IsRoomyRun(u, pids, actions, w)
    ensures IsRun(u, pids, actions, w) && w.flow.overflowed == {} && forall c :: !Lost(w.flow, c)
    decreases |actions|
  {
    if actions != [] {
      var n := |actions| - 1;
      var v :|
        && IsRoomyRun(u, pids, actions[..n], v) && Enabled(u, v, actions[n]) && HasRoom(u, v, actions[n])
        && w == Next(u, v, actions[n]);
      RoomyRunLosesNone(u, pids, actions[..n], v);
      hide Enabled, Next, HasRoom;
      RoomyStep(u, v, actions[n]);
    }
  }

  /** Then a settled window shows its true count exactly when retention took none of its entries. */
  lemma CompleteWithRoom(u: Setup, pids: set<int>, actions: seq<Action>, w: World, k: Key)
    requires u.Valid() && IsRoomyRun(u, pids, actions, w) && k.partition in w.engines && Settled(w, k)
    ensures SinkCount(w, k) == Passed(u.Size(), w.history, k) <==> CountKey(u.Size(), w.expired, k) == 0
  {
    RoomyRunLosesNone(u, pids, actions, w);
    hide IsRun, IsRoomyRun;
    EventuallyComplete(u, pids, actions, w, k);
  }
}
