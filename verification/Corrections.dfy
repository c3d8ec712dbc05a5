/** Corrections on their way: issued, queued with a bound, emitted, delivered any number of times in any
    order, applied once. */
module Corrections {
  import opened Dlq
  import opened DlqSpec
  import S = StrictSpec

  // ------------------------------------------------------------------
  // Sums
  // ------------------------------------------------------------------

  /** The deltas for window `k` of the corrections whose ids are in `ids`. */
  ghost function DeltaIn(cs: seq<Correction>, ids: set<nat>, k: Key): nat {
    if cs == [] then 0 else
      var c := cs[|cs| - 1];
      DeltaIn(cs[..|cs| - 1], ids, k) + if c.key == k && c.cid in ids then c.delta else 0
  }

  lemma {:induction false} DeltaConcat(a: seq<Correction>, b: seq<Correction>, k: Key)
    ensures DeltaOf(a + b, k) == DeltaOf(a, k) + DeltaOf(b, k)
  {
    if b == [] {
      assert a + b == a;
    } else {
      DeltaConcat(a, b[..|b| - 1], k);
      assert (a + b)[..|a + b| - 1] == a + b[..|b| - 1];
    }
  }

  /** Corrections nobody has processed add nothing. */
  lemma {:induction false} DeltaInFresh(a: seq<Correction>, b: seq<Correction>, ids: set<nat>, k: Key)
    requires forall c :: c in b ==> c.cid !in ids
    ensures DeltaIn(a + b, ids, k) == DeltaIn(a, ids, k)
  {
    if b == [] {
      assert a + b == a;
    } else {
      DeltaInFresh(a, b[..|b| - 1], ids, k);
      assert (a + b)[..|a + b| - 1] == a + b[..|b| - 1];
      assert b[|b| - 1] in b;
    }
  }

  ghost predicate Numbered(cs: seq<Correction>) {
    forall i :: 0 <= i < |cs| ==> cs[i].cid == i
  }

  /** Processing one more id adds the delta of its correction. */
  lemma {:induction false} DeltaInOneMore(cs: seq<Correction>, ids: set<nat>, id: nat, k: Key)
    requires Numbered(cs)
    ensures DeltaIn(cs, ids + {id}, k) ==
            DeltaIn(cs, ids, k) + if id < |cs| && id !in ids && cs[id].key == k then cs[id].delta else 0
  {
    if cs != [] {
      DeltaInOneMore(cs[..|cs| - 1], ids, id, k);
    }
  }

  lemma {:induction false} DeltaInBelow(cs: seq<Correction>, ids: set<nat>, k: Key)
    ensures DeltaIn(cs, ids, k) <= DeltaOf(cs, k)
  {
    if cs != [] {
      DeltaInBelow(cs[..|cs| - 1], ids, k);
    }
  }

  /** The sum over some ids is the whole sum exactly when they include every correction of the window. */
  lemma {:induction false} MissingDelta(cs: seq<Correction>, ids: set<nat>, k: Key)
    requires forall c :: c in cs ==> c.delta > 0
    ensures DeltaIn(cs, ids, k) <= DeltaOf(cs, k)
    ensures DeltaIn(cs, ids, k) == DeltaOf(cs, k) <==> forall c :: c in cs && c.key == k ==> c.cid in ids
  {
    if cs != [] {
      var n := |cs| - 1;
      assert cs == cs[..n] + [cs[n]];
      MissingDelta(cs[..n], ids, k);
    }
  }

  // ------------------------------------------------------------------
  // Enqueueing with a bound
  // ------------------------------------------------------------------

  /** The emitter's queue after enqueueing `cs` in order. */
  ghost function Enqueued(max: nat, q: multiset<Correction>, cs: seq<Correction>): multiset<Correction> {
    if cs == [] then q else
      var r := Enqueued(max, q, cs[..|cs| - 1]);
      if |r| >= max then r else r + multiset{cs[|cs| - 1]}
  }

  /** The ids dropped on the way. */
  ghost function Dropped(max: nat, q: multiset<Correction>, cs: seq<Correction>): set<nat> {
    if cs == [] then {} else
      Dropped(max, q, cs[..|cs| - 1]) + if |Enqueued(max, q, cs[..|cs| - 1])| >= max then {cs[|cs| - 1].cid} else {}
  }

  lemma {:induction false} EnqueueRoutes(max: nat, q: multiset<Correction>, cs: seq<Correction>)
    ensures q <= Enqueued(max, q, cs)
    ensures forall c :: c in Enqueued(max, q, cs) ==> c in q || c in cs
    ensures forall c :: c in cs ==> c in Enqueued(max, q, cs) || c.cid in Dropped(max, q, cs)
    ensures forall i :: i in Dropped(max, q, cs) ==> exists c :: c in cs && c.cid == i
  {
    if cs != [] {
      var n := |cs| - 1;
      EnqueueRoutes(max, q, cs[..n]);
      assert cs == cs[..n] + [cs[n]];
    }
  }

  /** With room for all of them nothing is dropped. */
  lemma {:induction false} EnqueueWithRoom(max: nat, q: multiset<Correction>, cs: seq<Correction>)
    requires |q| + |cs| <= max
    ensures Dropped(max, q, cs) == {} && |Enqueued(max, q, cs)| == |q| + |cs|
  {
    if cs != [] {
      EnqueueWithRoom(max, q, cs[..|cs| - 1]);
    }
  }

  // ------------------------------------------------------------------
  // From the correction to the sink
  // ------------------------------------------------------------------

  /** `issued[i]` is the correction with id `i`; `overflowed` records the ids a full queue dropped; `wire`
      holds what was emitted and never shrinks. */
  datatype Flow = Flow(
    issued: seq<Correction>, queue: multiset<Correction>, overflowed: set<nat>,
    emitted: set<nat>, wire: set<Correction>, processed: set<nat>, rows: map<Key, Row>)

  const IDLE := Flow([], multiset{}, {}, {}, {}, {}, map[])

  function RowOf(rows: map<Key, Row>, k: Key): Row {
    if k in rows then rows[k] else Row(0, 1)
  }

  ghost function Enqueue(f: Flow, max: nat, cs: seq<Correction>): Flow {
    f.(queue := Enqueued(max, f.queue, cs), overflowed := f.overflowed + Dropped(max, f.queue, cs))
  }

  ghost function Issue(f: Flow, max: nat, cs: seq<Correction>): Flow {
    Enqueue(f, max, cs).(issued := f.issued + cs)
  }

  ghost function Emit(f: Flow, popped: multiset<Correction>, out: seq<Correction>): Flow {
    f.(queue := f.queue - popped, emitted := f.emitted + PoppedIds(popped), wire := f.wire + (set c | c in out))
  }

  ghost function Deliver(f: Flow, c: Correction): Flow {
    f.(processed := f.processed + {c.cid}, rows := f.rows[c.key := Corrected(f.processed, c, RowOf(f.rows, c.key))])
  }

  ghost predicate IsIssued(issued: seq<Correction>, c: Correction) {
    c.cid < |issued| && issued[c.cid] == c
  }

  /** What is queued or on the wire was issued. */
  ghost predicate Genuine(f: Flow) {
    && Numbered(f.issued)
    && (forall c :: c in f.issued ==> c.delta > 0)
    && (forall c :: c in f.queue ==> IsIssued(f.issued, c))
    && (forall c :: c in f.wire ==> IsIssued(f.issued, c))
    && (forall i :: i in f.overflowed ==> i < |f.issued|)
  }

  /** The wire holds exactly what was emitted. */
  ghost predicate Wired(f: Flow) {
    && (forall c :: c in f.wire ==> c.cid in f.emitted)
    && (forall i :: i in f.emitted ==> exists c :: c in f.wire && c.cid == i)
  }

  /** Every issued correction is queued, emitted, or was dropped by a full queue. */
  ghost predicate Covered(f: Flow) {
    forall c :: c in f.issued ==> c in f.queue || c.cid in f.emitted || c.cid in f.overflowed
  }

  /** The sink has added each processed correction once. */
  ghost predicate Applied(f: Flow) {
    && f.processed <= f.emitted
    && (forall k :: RowOf(f.rows, k).count == DeltaIn(f.issued, f.processed, k))
  }

  ghost predicate Sane(f: Flow) {
    Genuine(f) && Wired(f) && Covered(f) && Applied(f)
  }

  lemma IssuedStays(issued: seq<Correction>, cs: seq<Correction>, c: Correction)
    requires IsIssued(issued, c)
    ensures IsIssued(issued + cs, c)
  {
  }

  lemma IssueIsGenuine(f: Flow, max: nat, cs: seq<Correction>)
    requires Genuine(f) && forall i :: 0 <= i < |cs| ==> cs[i].cid == |f.issued| + i && cs[i].delta > 0
    ensures Genuine(Issue(f, max, cs))
  {
    var g := Issue(f, max, cs);
    EnqueueRoutes(max, f.queue, cs);
    hide Enqueued, Dropped;
    forall c | c in g.queue ensures IsIssued(g.issued, c) {
      if c in f.queue {
        IssuedStays(f.issued, cs, c);
      } else {
        var j :| 0 <= j < |cs| && cs[j] == c;
        assert g.issued[|f.issued| + j] == c;
      }
    }
    forall c | c in g.wire ensures IsIssued(g.issued, c) {
      IssuedStays(f.issued, cs, c);
    }
    forall i | i in g.overflowed ensures i < |g.issued| {
      if i !in f.overflowed {
        var c :| c in cs && c.cid == i;
      }
    }
  }

  lemma IssueIsCovered(f: Flow, max: nat, cs: seq<Correction>)
    requires Covered(f)
    ensures Covered(Issue(f, max, cs))
  {
    EnqueueRoutes(max, f.queue, cs);
    hide Enqueued, Dropped;
  }

  lemma EmittedIsIssued(f: Flow, i: nat)
    requires Genuine(f) && Wired(f) && i in f.emitted
    ensures i < |f.issued| && f.issued[i] in f.wire
  {
  }

  lemma IssueKeeps(f: Flow, max: nat, cs: seq<Correction>)
    requires Sane(f) && forall i :: 0 <= i < |cs| ==> cs[i].cid == |f.issued| + i && cs[i].delta > 0
    ensures Sane(Issue(f, max, cs))
  {
    IssueIsGenuine(f, max, cs);
    IssueIsCovered(f, max, cs);
    hide Enqueued, Dropped, Covered, DeltaIn;
    var g := Issue(f, max, cs);
    forall c | c in cs ensures c.cid !in f.processed {
      if c.cid in f.processed {
        EmittedIsIssued(f, c.cid);
      }
    }
    forall k ensures RowOf(g.rows, k).count == DeltaIn(g.issued, g.processed, k) {
      DeltaInFresh(f.issued, cs, f.processed, k);
    }
    assert Wired(g);
    assert Applied(g);
  }

  /** Enqueueing a correction again is harmless. */
  lemma RequeueKeeps(f: Flow, max: nat, c: Correction)
    requires Sane(f) && c in f.issued
    ensures Sane(Enqueue(f, max, [c]))
  {
    EnqueueRoutes(max, f.queue, [c]);
    hide Enqueued, Dropped, DeltaIn;
    var i :| 0 <= i < |f.issued| && f.issued[i] == c;
    assert IsIssued(f.issued, c);
    assert Applied(Enqueue(f, max, [c]));
  }

  lemma EmitIsWired(f: Flow, popped: multiset<Correction>, out: seq<Correction>)
    requires Wired(f) && EmittedOnce(f.emitted, f.emitted + PoppedIds(popped), popped, out)
    ensures Wired(Emit(f, popped, out))
  {
    var g := Emit(f, popped, out);
    hide Descending;
    forall c | c in g.wire ensures c.cid in g.emitted {
    }
    forall i | i in g.emitted ensures exists c :: c in g.wire && c.cid == i {
      if i in f.emitted {
        var c :| c in f.wire && c.cid == i;
        assert c in g.wire;
      } else {
        assert i in OutIds(out);
        var c :| c in out && c.cid == i;
        assert c in g.wire;
      }
    }
  }

  lemma EmitIsCovered(f: Flow, popped: multiset<Correction>, out: seq<Correction>)
    requires Covered(f) && popped <= f.queue
    ensures Covered(Emit(f, popped, out))
  {
    var g := Emit(f, popped, out);
    forall c | c in g.issued ensures c in g.queue || c.cid in g.emitted || c.cid in g.overflowed {
      if c in f.queue && c !in g.queue {
        assert c in popped;
      }
    }
  }

  lemma EmitKeeps(f: Flow, popped: multiset<Correction>, out: seq<Correction>)
    requires Sane(f) && popped <= f.queue && EmittedOnce(f.emitted, f.emitted + PoppedIds(popped), popped, out)
    ensures Sane(Emit(f, popped, out))
  {
    hide Wired, Covered, Descending, DeltaIn, Numbered, IsIssued, PoppedIds, OutIds;
    EmitIsWired(f, popped, out);
    EmitIsCovered(f, popped, out);
    var g := Emit(f, popped, out);
    forall c | c in g.wire ensures IsIssued(g.issued, c) {
      if c !in f.wire {
        assert c in popped && c in f.queue;
      }
    }
    assert Applied(g);
  }

  lemma DeliverKeeps(f: Flow, c: Correction)
    requires Sane(f) && c in f.wire
    ensures Sane(Deliver(f, c))
  {
    hide DeltaIn;
    var g := Deliver(f, c);
    forall k ensures RowOf(g.rows, k).count == DeltaIn(g.issued, g.processed, k) {
      DeltaInOneMore(f.issued, f.processed, c.cid, k);
    }
    assert Wired(g) && Covered(g);
  }

  // ------------------------------------------------------------------
  // Publishing results
  // ------------------------------------------------------------------

  function KeyOfResult(r: S.WindowResult): Key {
    Key(r.partition, r.start)
  }

  /** The published counts after the results `rs`. */
  ghost function Published(base: map<Key, nat>, rs: seq<S.WindowResult>): map<Key, nat> {
    if rs == [] then base else
      Published(base, rs[..|rs| - 1])[KeyOfResult(rs[|rs| - 1]) := rs[|rs| - 1].count]
  }

  lemma {:induction false} PublishedKeys(base: map<Key, nat>, rs: seq<S.WindowResult>, k: Key)
    ensures k in Published(base, rs) <==> k in base || exists r :: r in rs && KeyOfResult(r) == k
  {
    if rs != [] {
      var n := |rs| - 1;
      PublishedKeys(base, rs[..n], k);
      assert rs == rs[..n] + [rs[n]];
    }
  }

  lemma {:induction false} PublishedCount(base: map<Key, nat>, rs: seq<S.WindowResult>, k: Key)
    requires k in Published(base, rs)
    ensures (k in base && Published(base, rs)[k] == base[k]) ||
            exists r :: r in rs && KeyOfResult(r) == k && r.count == Published(base, rs)[k]
  {
    if rs != [] {
      var n := |rs| - 1;
      assert rs == rs[..n] + [rs[n]];
      if KeyOfResult(rs[n]) != k {
        PublishedCount(base, rs[..n], k);
      }
    }
  }

  /** Entries of one partition do not count for a window of another. */
  lemma {:induction false} NoneElsewhere(size: real, es: seq<Entry>, k: Key)
    requires size > 0.0 && forall e :: e in es ==> e.partition != k.partition
    ensures CountKey(size, es, k) == 0
  {
    if es != [] {
      assert es[|es| - 1] in es;
      NoneElsewhere(size, es[..|es| - 1], k);
    }
  }
}
