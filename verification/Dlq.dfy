/** The dead-letter queue, the downstream emitter and the correction protocol as objects
    (heuristic/dlq.py, heuristic/downstream_emitter.py). */
module Dlq {
  import opened DlqSpec

  // ------------------------------------------------------------------
  // Sorting by arrival
  // ------------------------------------------------------------------

  function Insert(es: seq<Entry>, e: Entry): seq<Entry> {
    if es == [] || es[|es| - 1].arrival <= e.arrival then es + [e]
    else Insert(es[..|es| - 1], e) + [es[|es| - 1]]
  }

  /** The stable sort of `list.sort`. */
  function SortByArrival(es: seq<Entry>): seq<Entry> {
    if es == [] then [] else Insert(SortByArrival(es[..|es| - 1]), es[|es| - 1])
  }

  lemma {:induction false} InsertKeepsEntries(es: seq<Entry>, e: Entry)
    ensures multiset(Insert(es, e)) == multiset(es) + multiset{e}
  {
    if es != [] && !(es[|es| - 1].arrival <= e.arrival) {
      var n := |es| - 1;
      InsertKeepsEntries(es[..n], e);
      assert es == es[..n] + [es[n]];
    }
  }

  /** Every entry of the result is an old entry or the new one. */
  lemma {:induction false} InsertedFrom(es: seq<Entry>, e: Entry, x: Entry)
    requires x in Insert(es, e)
    ensures x in es || x == e
  {
    if es != [] && !(es[|es| - 1].arrival <= e.arrival) {
      var n := |es| - 1;
      if x in Insert(es[..n], e) {
        InsertedFrom(es[..n], e, x);
      }
    }
  }

  lemma SortedSnoc(es: seq<Entry>, e: Entry)
    requires ByArrival(es) && forall x :: x in es ==> x.arrival <= e.arrival
    ensures ByArrival(es + [e])
  {
    forall i | 0 <= i < |es| ensures es[i].arrival <= e.arrival {
      assert es[i] in es;
    }
  }

  lemma SortedBelowLast(es: seq<Entry>, x: Entry)
    requires ByArrival(es) && x in es
    ensures x.arrival <= es[|es| - 1].arrival
  {
  }

  lemma {:induction false} InsertSorts(es: seq<Entry>, e: Entry)
    requires ByArrival(es)
    ensures ByArrival(Insert(es, e))
  {
    if es == [] {
    } else if es[|es| - 1].arrival <= e.arrival {
      forall x | x in es ensures x.arrival <= e.arrival {
        SortedBelowLast(es, x);
      }
      SortedSnoc(es, e);
    } else {
      var n := |es| - 1;
      InsertSorts(es[..n], e);
      forall x | x in Insert(es[..n], e) ensures x.arrival <= es[n].arrival {
        InsertedFrom(es[..n], e, x);
        if x in es[..n] {
          SortedBelowLast(es, x);
        }
      }
      SortedSnoc(Insert(es[..n], e), es[n]);
    }
  }

  lemma BagSnoc(es: seq<Entry>, e: Entry)
    ensures multiset(es + [e]) == multiset(es) + multiset{e}
  {
  }

  lemma {:induction false} SortKeeps(es: seq<Entry>)
    ensures ByArrival(SortByArrival(es)) && multiset(SortByArrival(es)) == multiset(es)
  {
    if es != [] {
      var rest, e := es[..|es| - 1], es[|es| - 1];
      SortKeeps(rest);
      assert es == rest + [e] && SortByArrival(es) == Insert(SortByArrival(rest), e);
      hide *;
      InsertKeepsEntries(SortByArrival(rest), e);
      InsertSorts(SortByArrival(rest), e);
      BagSnoc(rest, e);
    }
  }

  /** The entries `purge_expired` removes, and those it keeps, in order. */
  ghost function Older(es: seq<Entry>, cutoff: real): seq<Entry> {
    if es == [] then [] else
      Older(es[..|es| - 1], cutoff) + if es[|es| - 1].arrival < cutoff then [es[|es| - 1]] else []
  }

  ghost function Newer(es: seq<Entry>, cutoff: real): seq<Entry> {
    if es == [] then [] else
      Newer(es[..|es| - 1], cutoff) + if es[|es| - 1].arrival < cutoff then [] else [es[|es| - 1]]
  }

  lemma PurgeSnoc(es: seq<Entry>, i: nat, cutoff: real)
    requires i < |es|
    ensures Older(es[..i + 1], cutoff) == Older(es[..i], cutoff) + (if es[i].arrival < cutoff then [es[i]] else [])
    ensures Newer(es[..i + 1], cutoff) == Newer(es[..i], cutoff) + (if es[i].arrival < cutoff then [] else [es[i]])
  {
    assert es[..i + 1][..i] == es[..i];
  }

  /** Every entry is either purged or kept. */
  ghost predicate Splits(es: seq<Entry>, older: seq<Entry>, newer: seq<Entry>) {
    multiset(older) + multiset(newer) == multiset(es)
  }

  lemma SplitSnoc(es: seq<Entry>, older: seq<Entry>, newer: seq<Entry>, e: Entry)
    requires Splits(es, older, newer)
    ensures Splits(es + [e], older + [e], newer) && Splits(es + [e], older, newer + [e])
  {
    BagSnoc(es, e);
    BagSnoc(older, e);
    BagSnoc(newer, e);
  }

  lemma PurgeLast(es: seq<Entry>, cutoff: real)
    requires es != []
    ensures var rest, e := es[..|es| - 1], es[|es| - 1];
            && es == rest + [e]
            && (e.arrival < cutoff ==> Older(es, cutoff) == Older(rest, cutoff) + [e] &&
                                       Newer(es, cutoff) == Newer(rest, cutoff))
            && (e.arrival >= cutoff ==> Older(es, cutoff) == Older(rest, cutoff) &&
                                        Newer(es, cutoff) == Newer(rest, cutoff) + [e])
  {
  }

  lemma {:induction false} PurgeSplits(es: seq<Entry>, cutoff: real)
    ensures Splits(es, Older(es, cutoff), Newer(es, cutoff))
  {
    if es != [] {
      var rest, e := es[..|es| - 1], es[|es| - 1];
      PurgeSplits(rest, cutoff);
      PurgeLast(es, cutoff);
      hide *;
      SplitSnoc(rest, Older(rest, cutoff), Newer(rest, cutoff), e);
    }
  }

  /** The purged entries arrived before the cutoff, the others did not; both keep their order. */
  lemma {:induction false} PurgeSides(es: seq<Entry>, cutoff: real)
    ensures forall e :: e in Older(es, cutoff) ==> e.arrival < cutoff
    ensures forall e :: e in Newer(es, cutoff) ==> e.arrival >= cutoff
    ensures InOrder(Older(es, cutoff), es) && InOrder(Newer(es, cutoff), es)
  {
    if es == [] {
      assert InOrder([], []);
    } else {
      PurgeSides(es[..|es| - 1], cutoff);
      PurgeLast(es, cutoff);
    }
  }

  /** `xs` is what remains of `es` when some entries are left out. */
  ghost predicate InOrder(xs: seq<Entry>, es: seq<Entry>) {
    xs == [] ||
    (es != [] &&
     (InOrder(xs, es[..|es| - 1]) || (xs[|xs| - 1] == es[|es| - 1] && InOrder(xs[..|xs| - 1], es[..|es| - 1]))))
  }

  class DLQPipeline {
    var entries: seq<Entry>
    var entryCounter: nat
    /** Source of fresh correction ids. */
    var nextId: nat
    var correctionsSent: map<Key, Correction>

    constructor ()
      ensures entries == [] && entryCounter == 0 && nextId == 0 && correctionsSent == map[]
    {
      entries, entryCounter, nextId, correctionsSent := [], 0, 0, map[];
    }

    method Enqueue(e: Entry)
      modifies this`entries, this`entryCounter
      ensures entries == old(entries) + [e] && entryCounter == old(entryCounter) + 1
    {
      entries := entries + [e];
      entryCounter := entryCounter + 1;
    }

    method Drain(batchSize: nat) returns (batch: seq<Entry>)
      modifies this`entries
      ensures IsDrain(old(entries), batchSize, batch, entries)
    {
      if entries == [] {
        return [];
      }
      SortKeeps(entries);
      var sorted := SortByArrival(entries);
      assert |sorted| == |multiset(sorted)| == |entries|;
      var n := if batchSize <= |sorted| then batchSize else |sorted|;
      batch := sorted[..n];
      entries := sorted[n..];
      assert batch + entries == sorted;
    }

    /** `purge_expired` with the cutoff already computed. */
    method PurgeExpired(cutoff: real) returns (gone: seq<Entry>)
      modifies this`entries
      ensures gone == Older(old(entries), cutoff) && entries == Newer(old(entries), cutoff)
    {
      gone := [];
      var kept: seq<Entry> := [];
      for i := 0 to |entries|
        invariant entries == old(entries)
        invariant gone == Older(entries[..i], cutoff) && kept == Newer(entries[..i], cutoff)
      {
        PurgeSnoc(entries, i, cutoff);
        if entries[i].arrival < cutoff {
          gone := gone + [entries[i]];
        } else {
          kept := kept + [entries[i]];
        }
      }
      assert entries[..|entries|] == entries;
      entries := kept;
    }

    /** Groups the entries by window, then makes one correction per group. */
    method ComputeCorrections(es: seq<Entry>, size: real) returns (corrections: seq<Correction>)
      requires size > 0.0
      modifies this`nextId, this`correctionsSent
      ensures Corrects(size, es, corrections, old(nextId))
      ensures nextId == old(nextId) + |corrections|
      ensures forall k :: k in correctionsSent <==>
                k in old(correctionsSent) || exists i :: 0 <= i < |corrections| && corrections[i].key == k
    {
      hide Ids, Corrects, Grouped;
      var order, groups := GroupEntries(es, size);
      corrections := [];
      GroupKeys(size, es, order, groups);
      for i := 0 to |order|
        invariant |corrections| == i && nextId == old(nextId) + i
        invariant FromGroups(corrections, order[..i], groups, old(nextId))
        invariant forall k :: k in correctionsSent <==> k in old(correctionsSent) || k in order[..i]
      {
        var key := order[i];
        assert order[..i + 1] == order[..i] + [key];
        assert key in order;
        var correction := Correction(nextId, key, |groups[key]|, Ids(groups[key]));
        nextId := nextId + 1;
        corrections := corrections + [correction];
        correctionsSent := correctionsSent[key := correction];
      }
      assert order[..|order|] == order;
      GroupsCorrect(size, es, corrections, order, groups, old(nextId));
    }
  }

  /** One correction per key of `order`, in that order. */
  ghost predicate FromGroups(cs: seq<Correction>, order: seq<Key>, groups: map<Key, seq<Entry>>, firstId: nat) {
    && |cs| == |order|
    && forall j :: 0 <= j < |cs| ==>
         && order[j] in groups
         && cs[j] == Correction(firstId + j, order[j], |groups[order[j]]|, Ids(groups[order[j]]))
  }

  /** `groups` holds the groups of `es`, and `order` its keys. */
  ghost predicate Grouped(size: real, es: seq<Entry>, order: seq<Key>, groups: map<Key, seq<Entry>>)
    requires size > 0.0
  {
    && (forall k :: k in order <==> k in groups)
    && (forall k :: k in groups <==> CountKey(size, es, k) > 0)
    && (forall k :: k in groups ==> groups[k] == Group(size, es, k))
    && (forall i, j :: 0 <= i < j < |order| ==> order[i] != order[j])
  }

  lemma GroupKeys(size: real, es: seq<Entry>, order: seq<Key>, groups: map<Key, seq<Entry>>)
    requires size > 0.0 && Grouped(size, es, order, groups)
    ensures forall k :: k in order <==> k in groups
  {
  }

  lemma GroupsCorrect(size: real, es: seq<Entry>, cs: seq<Correction>, order: seq<Key>, groups: map<Key, seq<Entry>>,
                      firstId: nat)
    requires size > 0.0 && Grouped(size, es, order, groups) && FromGroups(cs, order, groups, firstId)
    ensures Corrects(size, es, cs, firstId)
    ensures forall k :: k in order <==> exists i :: 0 <= i < |cs| && cs[i].key == k
  {
    hide CountKey, Group;
    forall k ensures k in order <==> exists i :: 0 <= i < |cs| && cs[i].key == k {
      if k in order {
        var i :| 0 <= i < |order| && order[i] == k;
        assert cs[i].key == k;
      }
    }
    forall i | 0 <= i < |cs| ensures
      cs[i].delta == CountKey(size, es, cs[i].key) > 0 && cs[i].lateIds == Ids(Group(size, es, cs[i].key))
    {
      assert cs[i].key == order[i];
    }
  }

  lemma FirstOfGroup(size: real, es: seq<Entry>, e: Entry, order: seq<Key>, groups: map<Key, seq<Entry>>)
    requires size > 0.0 && Grouped(size, es, order, groups) && KeyOf(size, e) !in groups
    ensures var key := KeyOf(size, e); Grouped(size, es + [e], order + [key], groups[key := [e]])
  {
    var key := KeyOf(size, e);
    var keys, more := order + [key], groups[key := [e]];
    forall k ensures k in keys <==> k in more {
      assert k in keys <==> k in order || k == key;
    }
    forall k ensures k in more <==> CountKey(size, es + [e], k) > 0 {
      CountSnoc(size, es, e, k);
    }
    forall k | k in more ensures more[k] == Group(size, es + [e], k) {
      CountSnoc(size, es, e, k);
      assert k == key ==> Group(size, es, k) == [];
    }
    forall i | 0 <= i < |order| ensures keys[i] != key {
      assert order[i] in order;
    }
  }

  lemma MoreOfGroup(size: real, es: seq<Entry>, e: Entry, order: seq<Key>, groups: map<Key, seq<Entry>>)
    requires size > 0.0 && Grouped(size, es, order, groups) && KeyOf(size, e) in groups
    ensures var key := KeyOf(size, e); Grouped(size, es + [e], order, groups[key := groups[key] + [e]])
  {
    var key := KeyOf(size, e);
    var more := groups[key := groups[key] + [e]];
    forall k ensures k in more <==> CountKey(size, es + [e], k) > 0 {
      CountSnoc(size, es, e, k);
    }
    forall k | k in more ensures more[k] == Group(size, es + [e], k) {
      CountSnoc(size, es, e, k);
    }
  }

  /** The `groups` dictionary, with its keys in insertion order. */
  method GroupEntries(es: seq<Entry>, size: real) returns (order: seq<Key>, groups: map<Key, seq<Entry>>)
    requires size > 0.0
    ensures Grouped(size, es, order, groups)
  {
    order, groups := [], map[];
    for n := 0 to |es|
      invariant Grouped(size, es[..n], order, groups)
    {
      hide *;
      var key := KeyOf(size, es[n]);
      assert es[..n + 1] == es[..n] + [es[n]];
      if key in groups {
        MoreOfGroup(size, es[..n], es[n], order, groups);
        groups := groups[key := groups[key] + [es[n]]];
      } else {
        FirstOfGroup(size, es[..n], es[n], order, groups);
        order := order + [key];
        groups := groups[key := [es[n]]];
      }
    }
    assert es[..|es|] == es;
  }

  // ------------------------------------------------------------------
  // The emitter
  // ------------------------------------------------------------------

  ghost predicate IsLargest(q: multiset<Correction>, c: Correction) {
    c in q && forall d :: d in q ==> d.delta <= c.delta
  }

  lemma {:induction false} LargestExists(q: multiset<Correction>)
    requires q != multiset{}
    ensures exists c :: IsLargest(q, c)
    decreases |q|
  {
    var c :| c in q;
    var rest := q - multiset{c};
    assert forall x :: x in q ==> x == c || x in rest;
    if rest == multiset{} {
      assert IsLargest(q, c);
    } else {
      LargestExists(rest);
      var d :| IsLargest(rest, d);
      if c.delta <= d.delta {
        assert IsLargest(q, d);
      } else {
        assert IsLargest(q, c);
      }
    }
  }

  /** `heapq.heappop` on priorities `-delta_count`: some correction of the largest delta. */
  method PopLargest(q: multiset<Correction>) returns (c: Correction)
    requires q != multiset{}
    ensures IsLargest(q, c)
  {
    LargestExists(q);
    c :| c in q && forall d :: d in q ==> d.delta <= c.delta;
  }

  lemma MoveOne(all: multiset<Correction>, q: multiset<Correction>, popped: multiset<Correction>, c: Correction)
    requires all == q + popped && c in q
    ensures all == (q - multiset{c}) + (popped + multiset{c})
    ensures |popped + multiset{c}| == |popped| + 1
  {
  }

  class DownstreamEmitter {
    const maxQueue: nat
    /** The heap. */
    var queue: multiset<Correction>
    var emitted: map<nat, Correction>
    var emissionCount: nat
    var dropped: nat

    constructor (maxQueue: nat)
      ensures this.maxQueue == maxQueue && queue == multiset{} && emitted == map[] && emissionCount == dropped == 0
    {
      this.maxQueue, queue, emitted, emissionCount, dropped := maxQueue, multiset{}, map[], 0, 0;
    }

    method Enqueue(c: Correction)
      modifies this`queue, this`dropped
      ensures if |old(queue)| >= maxQueue then queue == old(queue) && dropped == old(dropped) + 1
              else queue == old(queue) + multiset{c} && dropped == old(dropped)
    {
      if |queue| >= maxQueue {
        dropped := dropped + 1;
        return;
      }
      queue := queue + multiset{c};
    }

    /** The largest deltas leave first; an id that was emitted before is taken off the queue silently. */
    method Drain(batchSize: nat) returns (out: seq<Correction>, ghost popped: multiset<Correction>)
      modifies this`queue, this`emitted, this`emissionCount
      ensures old(queue) == queue + popped
      ensures |popped| == if batchSize <= |old(queue)| then batchSize else |old(queue)|
      ensures LargestGone(popped, queue)
      ensures EmittedOnce(old(emitted).Keys, emitted.Keys, popped, out)
      ensures emissionCount == old(emissionCount) + |out|
    {
      out, popped := [], multiset{};
      assert EmittedOnce(emitted.Keys, emitted.Keys, popped, out);
      hide EmittedOnce, LargestGone;
      NoneGone(queue);
      var turns := if batchSize <= |queue| then batchSize else |queue|;
      for i := 0 to turns
        invariant old(queue) == queue + popped && |popped| == i
        invariant LargestGone(popped, queue)
        invariant EmittedOnce(old(emitted).Keys, emitted.Keys, popped, out)
        invariant emissionCount == old(emissionCount) + |out|
      {
        var c := PopLargest(queue);
        MoveOne(old(queue), queue, popped, c);
        EmitStep(old(emitted).Keys, emitted.Keys, popped, queue, out, c);
        popped := popped + multiset{c};
        out := EmitOne(c, out);
      }
    }

    /** One turn of the loop, after the pop has been chosen. */
    method EmitOne(c: Correction, out: seq<Correction>) returns (out': seq<Correction>)
      modifies this`queue, this`emitted, this`emissionCount
      ensures queue == old(queue) - multiset{c} && emitted.Keys == old(emitted).Keys + {c.cid}
      ensures out' == if c.cid in old(emitted) then out else out + [c]
      ensures emissionCount == old(emissionCount) + |out'| - |out|
    {
      queue := queue - multiset{c};
      out' := out;
      if c.cid !in emitted {
        emitted := emitted[c.cid := c];
        emissionCount := emissionCount + 1;
        out' := out + [c];
      }
    }
  }

  /** Nothing left on the queue has a larger delta than anything that was popped. */
  ghost predicate LargestGone(popped: multiset<Correction>, q: multiset<Correction>) {
    forall c, d :: c in popped && d in q ==> d.delta <= c.delta
  }

  lemma NoneGone(q: multiset<Correction>)
    ensures LargestGone(multiset{}, q)
  {
  }

  ghost function PoppedIds(popped: multiset<Correction>): set<nat> {
    set c | c in popped :: c.cid
  }

  ghost function OutIds(out: seq<Correction>): set<nat> {
    set c | c in out :: c.cid
  }

  /** Each id that was popped and not emitted before is emitted once, larger deltas first. */
  ghost predicate EmittedOnce(before: set<nat>, after: set<nat>, popped: multiset<Correction>, out: seq<Correction>) {
    && after == before + PoppedIds(popped)
    && OutIds(out) == PoppedIds(popped) - before
    && (forall c :: c in out ==> c in popped)
    && Descending(out)
  }

  ghost predicate Descending(out: seq<Correction>) {
    forall i, j :: 0 <= i < j < |out| ==> out[i].cid != out[j].cid && out[j].delta <= out[i].delta
  }

  lemma DescendingSnoc(out: seq<Correction>, c: Correction)
    requires Descending(out) && c.cid !in OutIds(out) && forall d :: d in out ==> c.delta <= d.delta
    ensures Descending(out + [c])
  {
    forall i | 0 <= i < |out| ensures out[i].cid != c.cid && c.delta <= out[i].delta {
      assert out[i] in out;
    }
  }

  lemma StillGone(popped: multiset<Correction>, q: multiset<Correction>, c: Correction)
    requires LargestGone(popped, q) && IsLargest(q, c)
    ensures LargestGone(popped + multiset{c}, q - multiset{c}) && forall d :: d in popped ==> c.delta <= d.delta
  {
  }

  lemma EmitStep(before: set<nat>, after: set<nat>, popped: multiset<Correction>, q: multiset<Correction>,
                 out: seq<Correction>, c: Correction)
    requires EmittedOnce(before, after, popped, out) && LargestGone(popped, q) && IsLargest(q, c)
    ensures EmittedOnce(before, after + {c.cid}, popped + multiset{c}, if c.cid in after then out else out + [c])
    ensures LargestGone(popped + multiset{c}, q - multiset{c})
  {
    assert PoppedIds(popped + multiset{c}) == PoppedIds(popped) + {c.cid};
    StillGone(popped, q, c);
    hide LargestGone, Descending, PoppedIds;
    if c.cid !in after {
      assert OutIds(out + [c]) == OutIds(out) + {c.cid};
      DescendingSnoc(out, c);
    }
  }

  // ------------------------------------------------------------------
  // The correction protocol of the sink (incremental pattern)
  // ------------------------------------------------------------------

  class CorrectionProtocol {
    var processed: set<nat>

    constructor ()
      ensures processed == {}
    {
      processed := {};
    }

    method IsDuplicate(cid: nat) returns (dup: bool)
      modifies this
      ensures dup == (cid in old(processed)) && processed == old(processed) + {cid}
    {
      dup := cid in processed;
      processed := processed + {cid};
    }

    method ApplyCorrection(c: Correction, current: Row) returns (r: Row)
      modifies this
      ensures processed == old(processed) + {c.cid}
      ensures r == Corrected(old(processed), c, current)
    {
      var dup := IsDuplicate(c.cid);
      if dup {
        return current;
      }
      r := Row(current.count + c.delta, current.version + 1);
    }
  }
}
