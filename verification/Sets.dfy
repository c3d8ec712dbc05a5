/** Finite sets, maps and multisets: choosing, comparing, counting. */
module Sets {

  /** An element of a non-empty set, always the same one. */
  ghost function Pick<T>(s: set<T>): (x: T)
    requires s != {}
    ensures x in s
  {
    var x :| x in s; x
  }

  lemma {:induction false} CardinalityMonotone<T>(a: set<T>, b: set<T>)
    requires a <= b
    ensures |a| <= |b|
  {
    if a != {} {
      var x := Pick(a);
      CardinalityMonotone(a - {x}, b - {x});
    }
  }

  /** Maps with the same keys and the same value at every key are equal: by window start or time, ... */
  lemma SameByTime<V>(a: map<real, V>, b: map<real, V>)
    requires forall k :: k in a ==> k in b && a[k] == b[k]
    requires forall k :: k in b ==> k in a
    ensures a == b
  {
    forall k: real ensures k in a.Keys <==> k in b.Keys {
    }
    assert a.Keys == b.Keys;
    forall k | k in a ensures a[k] == b[k] {
    }
  }

  /** ... by partition, ... */
  lemma SameByPartition<V>(a: map<int, V>, b: map<int, V>)
    requires forall k :: k in a ==> k in b && a[k] == b[k]
    requires forall k :: k in b ==> k in a
    ensures a == b
  {
    forall k: int ensures k in a.Keys <==> k in b.Keys {
    }
    assert a.Keys == b.Keys;
    forall k | k in a ensures a[k] == b[k] {
    }
  }

  /** ... and by id. */
  lemma SameById<V>(a: map<string, V>, b: map<string, V>)
    requires forall k :: k in a ==> k in b && a[k] == b[k]
    requires forall k :: k in b ==> k in a
    ensures a == b
  {
    assert a.Keys == b.Keys;
    forall k | k in a ensures a[k] == b[k] {
    }
  }

  /** Taking one occurrence of `x` out of two arrangements of the same elements. */
  lemma WithoutOne<T>(a: seq<T>, l: seq<T>, r: seq<T>, x: T, all: multiset<T>)
    requires multiset(a + [x]) == all == multiset(l + [x] + r)
    ensures multiset(a) == multiset(l + r)
  {
    assert multiset(a) == all - multiset{x};
    assert multiset(l + r) == all - multiset{x};
  }
}
