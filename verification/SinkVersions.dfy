/** Two bounds every run keeps: the emitter's queue never exceeds its capacity, and the version of a row counts the
    corrections applied to it. */
module SinkVersions {
  import opened Completeness
  import opened Corrections
  import opened Dlq
  import opened DlqSpec

  // ------------------------------------------------------------------
  // The emitter's queue
  // ------------------------------------------------------------------

  lemma {:induction false} EnqueuedFits(max: nat, q: multiset<Correction>, cs: seq<Correction>)
    requires |q| <= max
    ensures |Enqueued(max, q, cs)| <= max
  {
    if cs != [] {
      EnqueuedFits(max, q, cs[..|cs| - 1]);
    }
  }

  lemma SmallerQueue(q: multiset<Correction>, popped: multiset<Correction>)
    requires popped <= q
    ensures |q - popped| <= |q|
  {
    assert q == (q - popped) + popped;
  }

  lemma QueueStep(u: Setup, w: World, a: Action)
    requires u.Valid() && Enabled(u, w, a) && |w.flow.queue| <= u.maxQueue
    ensures |Next(u, w, a).flow.queue| <= u.maxQueue
  {
    hide EmittedOnce, LargestGone, IsDrain, Corrects, Enqueued, Dropped, Published;
    match a
    case Correct(_, _, _, cs) => EnqueuedFits(u.maxQueue, w.flow.queue, cs);
    case RequeueOne(c) => EnqueuedFits(u.maxQueue, w.flow.queue, [c]);
    case DrainEmitter(_, popped, _) => SmallerQueue(w.flow.queue, popped);
    case _ =>
  }

  /** In every run the emitter's queue holds at most as many corrections as it has room for. */
  lemma {:induction false} QueueBounded(u: Setup, pids: set<int>, actions: seq<Action>, w: World)
    requires u.Valid() && IsRun(u, pids, actions, w)
    ensures |w.flow.queue| <= u.maxQueue
    decreases |actions|
  {
    if actions != [] {
      var n := |actions| - 1;
      var v :| IsRun(u, pids, actions[..n], v) && Enabled(u, v, actions[n]) && w == Next(u, v, actions[n]);
      QueueBounded(u, pids, actions[..n], v);
      hide IsRun, Next, Enabled;
      QueueStep(u, v, actions[n]);
    }
  }

  // ------------------------------------------------------------------
  // Row versions
  // ------------------------------------------------------------------

  /** How many of the corrections for window `k` have their ids in `ids`. */
  ghost function CountIn(cs: seq<Correction>, ids: set<nat>, k: Key): nat {
    if cs == [] then 0 else
      var c := cs[|cs| - 1];
      CountIn(cs[..|cs| - 1], ids, k) + if c.key == k && c.cid in ids then 1 else 0
  }

  lemma {:induction false} CountInFresh(a: seq<Correction>, b: seq<Correction>, ids: set<nat>, k: Key)
    requires forall c :: c in b ==> c.cid !in ids
    ensures CountIn(a + b, ids, k) == CountIn(a, ids, k)
  {
    if b == [] {
      assert a + b == a;
    } else {
      CountInFresh(a, b[..|b| - 1], ids, k);
      assert (a + b)[..|a + b| - 1] == a + b[..|b| - 1];
      assert b[|b| - 1] in b;
    }
  }

  lemma {:induction false} CountInOneMore(cs: seq<Correction>, ids: set<nat>, id: nat, k: Key)
    requires Numbered(cs)
    ensures CountIn(cs, ids + {id}, k) ==
            CountIn(cs, ids, k) + if id < |cs| && id !in ids && cs[id].key == k then 1 else 0
  {
    if cs != [] {
      CountInOneMore(cs[..|cs| - 1], ids, id, k);
    }
  }

  ghost predicate Versioned(f: Flow) {
    forall k :: RowOf(f.rows, k).version == 1 + CountIn(f.issued, f.processed, k)
  }

  lemma DeliverVersions(f: Flow, c: Correction)
    requires Sane(f) && Versioned(f) && c in f.wire
    ensures Versioned(Deliver(f, c))
  {
    var g := Deliver(f, c);
    hide DeltaIn, CountIn, Covered, Wired;
    forall k ensures RowOf(g.rows, k).version == 1 + CountIn(g.issued, g.processed, k) {
      CountInOneMore(f.issued, f.processed, c.cid, k);
    }
  }

  lemma IssueVersions(f: Flow, max: nat, cs: seq<Correction>)
    requires Sane(f) && Versioned(f) && forall i :: 0 <= i < |cs| ==> cs[i].cid == |f.issued| + i
    ensures Versioned(Issue(f, max, cs))
  {
    var g := Issue(f, max, cs);
    forall c | c in cs ensures c.cid !in f.processed {
      if c.cid in f.processed {
        EmittedIsIssued(f, c.cid);
      }
    }
    hide CountIn, Sane, Enqueued, Dropped;
    forall k ensures RowOf(g.rows, k).version == 1 + CountIn(g.issued, g.processed, k) {
      CountInFresh(f.issued, cs, f.processed, k);
    }
  }

  lemma VersionStep(u: Setup, w: World, a: Action)
    requires u.Valid() && Enabled(u, w, a) && Sane(w.flow) && Versioned(w.flow)
    ensures Versioned(Next(u, w, a).flow)
  {
    hide Sane, EmittedOnce, LargestGone, IsDrain, CountIn, Published, RowOf, Deliver;
    match a
    case Correct(n, batch, rest, cs) => IssueVersions(w.flow, u.maxQueue, cs);
    case DeliverOne(c) => DeliverVersions(w.flow, c);
    case _ =>
  }

  /** In every run the version of a row is one more than the number of corrections of its window processed so far,
      each once, whatever was delivered again. */
  lemma {:induction false} VersionsCount(u: Setup, pids: set<int>, actions: seq<Action>, w: World, k: Key)
    requires u.Valid() && IsRun(u, pids, actions, w)
    ensures RowOf(w.flow.rows, k).version == 1 + CountIn(w.flow.issued, w.flow.processed, k)
  {
    RunVersions(u, pids, actions, w);
    hide IsRun;
  }

  lemma {:induction false} RunVersions(u: Setup, pids: set<int>, actions: seq<Action>, w: World)
    requires u.Valid() && IsRun(u, pids, actions, w)
    ensures Versioned(w.flow)
    decreases |actions|
  {
    if actions != [] {
      var n := |actions| - 1;
      var v :| IsRun(u, pids, actions[..n], v) && Enabled(u, v, actions[n]) && w == Next(u, v, actions[n]);
      RunVersions(u, pids, actions[..n], v);
      RunKeepsInv(u, pids, actions[..n], v);
      FlowSane(u, v);
      hide IsRun, Next, Enabled, Versioned, Sane, Inv;
      VersionStep(u, v, actions[n]);
    }
  }
}
