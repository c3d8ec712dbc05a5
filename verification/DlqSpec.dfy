/** Late events, corrections and what they add up to (heuristic/dlq.py), on values. */
module DlqSpec {
  import H = HeuristicSpec
  import opened Sets
  import Window

  /** A window of a partition. */
  datatype Key = Key(partition: int, start: real)

  type Entry = H.LateEvent

  datatype Correction = Correction(cid: nat, key: Key, delta: nat, lateIds: seq<string>)

  function KeyOf(size: real, e: Entry): Key
    requires size > 0.0
  {
    Key(e.partition, Window.Start(size, e.time))
  }

  /** How many entries belong to window `k`. */
  ghost function CountKey(size: real, es: seq<Entry>, k: Key): nat
    requires size > 0.0
  {
    if es == [] then 0 else
      CountKey(size, es[..|es| - 1], k) + if KeyOf(size, es[|es| - 1]) == k then 1 else 0
  }

  /** The entries of window `k`, in order. */
  ghost function Group(size: real, es: seq<Entry>, k: Key): (g: seq<Entry>)
    requires size > 0.0
    ensures |g| == CountKey(size, es, k)
  {
    if es == [] then [] else
      var rest := Group(size, es[..|es| - 1], k);
      if KeyOf(size, es[|es| - 1]) == k then rest + [es[|es| - 1]] else rest
  }

  function Ids(es: seq<Entry>): (ids: seq<string>)
    ensures |ids| == |es| && forall i :: 0 <= i < |es| ==> ids[i] == es[i].id
  {
    seq(|es|, i requires 0 <= i < |es| => es[i].id)
  }

  lemma CountSnoc(size: real, es: seq<Entry>, e: Entry, k: Key)
    requires size > 0.0
    ensures CountKey(size, es + [e], k) == CountKey(size, es, k) + if KeyOf(size, e) == k then 1 else 0
    ensures Group(size, es + [e], k) == if KeyOf(size, e) == k then Group(size, es, k) + [e] else Group(size, es, k)
  {
    assert (es + [e])[..|es|] == es;
  }

  lemma ConcatLast(a: seq<Entry>, b: seq<Entry>)
    requires b != []
    ensures var rest, e := b[..|b| - 1], b[|b| - 1]; b == rest + [e] && a + b == a + rest + [e]
  {
  }

  lemma {:induction false} CountConcat(size: real, a: seq<Entry>, b: seq<Entry>, k: Key)
    requires size > 0.0
    ensures CountKey(size, a + b, k) == CountKey(size, a, k) + CountKey(size, b, k)
  {
    if b == [] {
      assert a + b == a;
    } else {
      hide CountKey, Group, KeyOf;
      var rest, e := b[..|b| - 1], b[|b| - 1];
      CountConcat(size, a, rest, k);
      CountSnoc(size, a + rest, e, k);
      CountSnoc(size, rest, e, k);
      ConcatLast(a, b);
    }
  }

  /** A group holds the entries of its window, each as often as it occurs, and no others. */
  lemma {:induction false} GroupHolds(size: real, es: seq<Entry>, k: Key, e: Entry)
    requires size > 0.0
    ensures multiset(Group(size, es, k))[e] == if KeyOf(size, e) == k then multiset(es)[e] else 0
  {
    if es != [] {
      var rest, last := es[..|es| - 1], es[|es| - 1];
      assert es == rest + [last];
      GroupHolds(size, rest, k, e);
      CountSnoc(size, rest, last, k);
      hide Group, CountKey, KeyOf;
    }
  }

  /** Counts depend on the entries, not on their order. */
  lemma {:induction false} CountPermuted(size: real, a: seq<Entry>, b: seq<Entry>, k: Key)
    requires size > 0.0 && multiset(a) == multiset(b)
    ensures CountKey(size, a, k) == CountKey(size, b, k)
    decreases |a|
  {
    if a == [] {
      assert |multiset(b)| == |b|;
    } else {
      var n := |a| - 1;
      var e := a[n];
      assert a == a[..n] + [e];
      assert e in multiset(b);
      var j :| 0 <= j < |b| && b[j] == e;
      var l, r := b[..j], b[j + 1..];
      assert b == l + [e] + r;
      WithoutOne(a[..n], l, r, e, multiset(a));
      CountPermuted(size, a[..n], l + r, k);
      CountSnoc(size, l, e, k);
      CountConcat(size, l + [e], r, k);
      CountConcat(size, l, r, k);
    }
  }

  // ------------------------------------------------------------------
  // Draining and correcting
  // ------------------------------------------------------------------

  ghost predicate ByArrival(es: seq<Entry>) {
    forall i, j :: 0 <= i < j < |es| ==> es[i].arrival <= es[j].arrival
  }

  /** `batch` is the oldest `n` entries (or all), `rest` the others. */
  ghost predicate IsDrain(es: seq<Entry>, n: nat, batch: seq<Entry>, rest: seq<Entry>) {
    && multiset(batch + rest) == multiset(es)
    && |batch| == (if n <= |es| then n else |es|)
    && (es != [] ==> ByArrival(batch + rest))
  }

  /** One correction per window that occurs, carrying all its entries, with consecutive fresh ids. */
  ghost predicate Corrects(size: real, es: seq<Entry>, cs: seq<Correction>, firstId: nat)
    requires size > 0.0
  {
    && (forall i :: 0 <= i < |cs| ==>
          && cs[i].cid == firstId + i
          && cs[i].delta == CountKey(size, es, cs[i].key) > 0
          && cs[i].lateIds == Ids(Group(size, es, cs[i].key)))
    && (forall i, j :: 0 <= i < j < |cs| ==> cs[i].key != cs[j].key)
    && (forall k :: CountKey(size, es, k) > 0 ==> exists i :: 0 <= i < |cs| && cs[i].key == k)
  }

  /** The sum of the deltas for window `k`. */
  ghost function DeltaOf(cs: seq<Correction>, k: Key): nat {
    if cs == [] then 0 else DeltaOf(cs[..|cs| - 1], k) + if cs[|cs| - 1].key == k then cs[|cs| - 1].delta else 0
  }

  lemma {:induction false} DeltaOfDistinct(cs: seq<Correction>, k: Key)
    requires forall i, j :: 0 <= i < j < |cs| ==> cs[i].key != cs[j].key
    ensures forall i :: 0 <= i < |cs| && cs[i].key == k ==> DeltaOf(cs, k) == cs[i].delta
    ensures (forall i :: 0 <= i < |cs| ==> cs[i].key != k) ==> DeltaOf(cs, k) == 0
  {
    if cs != [] {
      DeltaOfDistinct(cs[..|cs| - 1], k);
    }
  }

  /** Corrections carry exactly the entries they were computed from. */
  lemma CorrectionsConserve(size: real, es: seq<Entry>, cs: seq<Correction>, firstId: nat, k: Key)
    requires size > 0.0 && Corrects(size, es, cs, firstId)
    ensures DeltaOf(cs, k) == CountKey(size, es, k)
  {
    DeltaOfDistinct(cs, k);
    if CountKey(size, es, k) > 0 {
      var i :| 0 <= i < |cs| && cs[i].key == k;
    }
  }

  // ------------------------------------------------------------------
  // The sink
  // ------------------------------------------------------------------

  datatype Row = Row(count: nat, version: nat)

  /** `apply_correction` in the incremental pattern, given the ids processed before. */
  function Corrected(processed: set<nat>, c: Correction, current: Row): Row {
    if c.cid in processed then current else Row(current.count + c.delta, current.version + 1)
  }
}
