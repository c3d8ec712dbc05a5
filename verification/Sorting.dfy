/** Iterating over a finite set of reals in increasing order (Python's `sorted`). */
module Sorting {
  import opened Sets

  ghost predicate IsLeast(s: set<real>, m: real) {
    m in s && forall x :: x in s ==> m <= x
  }

  lemma {:induction false} LeastExists(s: set<real>)
    requires s != {}
    ensures exists m :: IsLeast(s, m)
  {
    var x := Pick(s);
    if s != {x} {
      LeastExists(s - {x});
      var m :| IsLeast(s - {x}, m);
      assert forall y :: y in s ==> y == x || y in s - {x};
      if m <= x {
        assert IsLeast(s, m);
      } else {
        assert IsLeast(s, x);
      }
    } else {
      assert IsLeast(s, x);
    }
  }

  /** The element visited first by `for x in sorted(s)`. */
  method Least(s: set<real>) returns (m: real)
    requires s != {}
    ensures IsLeast(s, m)
  {
    LeastExists(s);
    m :| m in s && forall x <- s :: m <= x;
  }

  ghost predicate Increasing(xs: seq<real>) {
    forall i, j | 0 <= i < j < |xs| :: xs[i] < xs[j]
  }

  lemma IncreasingSnoc(xs: seq<real>, x: real)
    requires Increasing(xs) && forall y :: y in xs ==> y < x
    ensures Increasing(xs + [x])
  {
    forall i | 0 <= i < |xs| ensures xs[i] < x {
      assert xs[i] in xs;
    }
  }

  lemma IncreasingConcat(xs: seq<real>, ys: seq<real>)
    requires Increasing(xs) && Increasing(ys)
    requires forall x, y :: x in xs && y in ys ==> x < y
    ensures Increasing(xs + ys)
  {
    forall i, j | 0 <= i < j < |xs + ys| ensures (xs + ys)[i] < (xs + ys)[j] {
      if i < |xs| <= j {
        assert xs[i] in xs && ys[j - |xs|] in ys;
      }
    }
  }

  lemma HeadIn(xs: seq<real>)
    requires xs != []
    ensures xs[0] in xs
  {
  }

  /** An increasing sequence is determined by its elements. */
  lemma {:induction false} IncreasingUnique(xs: seq<real>, ys: seq<real>)
    requires Increasing(xs) && Increasing(ys)
    requires forall w :: w in xs <==> w in ys
    ensures xs == ys
  {
    if xs == [] || ys == [] {
      if xs != [] {
        HeadIn(xs);
      }
      if ys != [] {
        HeadIn(ys);
      }
    } else {
      var x, y := xs[0], ys[0];
      assert x in xs && y in ys && x in ys && y in xs;
      forall w ensures w in xs[1..] <==> w in ys[1..] {
        assert w in xs[1..] <==> w in xs && w != x;
        assert w in ys[1..] <==> w in ys && w != y;
      }
      IncreasingUnique(xs[1..], ys[1..]);
    }
  }

  /** `sorted(s)`: the one strictly increasing sequence over the elements of `s`. */
  ghost function Sorted(s: set<real>): (xs: seq<real>)
    ensures forall x :: x in xs <==> x in s
    ensures Increasing(xs)
  {
    if s == {} then [] else
      LeastExists(s);
      var m :| IsLeast(s, m);
      [m] + Sorted(s - {m})
  }
}
