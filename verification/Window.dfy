/** Tumbling windows over event time (common/window.py). */
module Window {
  import opened Sorting
  import opened Reals

  /** `window_start`: the multiple of `size` at or below `t`. */
  function Start(size: real, t: real): (w: real)
    requires size > 0.0
    ensures w <= t < w + size
    ensures Aligned(size, w)
  {
    Bracket(size, t);
    Nth(size, (t / size).Floor)
  }

  function Nth(size: real, k: int): real {
    k as real * size
  }

  ghost predicate Aligned(size: real, w: real) {
    exists k: int :: w == Nth(size, k)
  }

  lemma Bracket(size: real, t: real)
    requires size > 0.0
    ensures Nth(size, (t / size).Floor) <= t < Nth(size, (t / size).Floor) + size
  {
    var x := Quotient(t, size);
    var k := x.Floor;
    NthSucc(size, k);
    NthCompare(size, x, k);
    NthCompare(size, x, k + 1);
  }

  lemma NthCompare(size: real, x: real, k: int)
    requires size > 0.0
    ensures x < k as real ==> x * size < Nth(size, k)
    ensures k as real <= x ==> Nth(size, k) <= x * size
  {
    if x < k as real {
      ProductMonotone(x, k as real, size);
    } else {
      ProductWeaklyMonotone(k as real, x, size);
    }
  }

  /** An aligned window is the window of exactly the times in it. */
  lemma StartIff(size: real, t: real, w: real)
    requires size > 0.0 && Aligned(size, w)
    ensures Start(size, t) == w <==> w <= t < w + size
  {
    if w <= t < w + size {
      StartUnique(size, t, w);
    }
  }

  /** Windows do not overlap: an aligned window that holds `t` is the window of `t`. */
  lemma StartUnique(size: real, t: real, w: real)
    requires size > 0.0 && Aligned(size, w) && w <= t < w + size
    ensures w == Start(size, t)
  {
    if w < Start(size, t) {
      AlignedGap(size, w, Start(size, t));
    } else if Start(size, t) < w {
      AlignedGap(size, Start(size, t), w);
    }
  }

  /** Two aligned starts that differ, differ by a whole window. */
  lemma AlignedGap(size: real, v: real, w: real)
    requires size > 0.0 && Aligned(size, v) && Aligned(size, w) && v < w
    ensures v + size <= w
  {
    var j: int :| v == Nth(size, j);
    var k: int :| w == Nth(size, k);
    NthMonotone(size, k, j);
    NthMonotone(size, j + 1, k);
    NthSucc(size, j);
  }

  /** A later event never belongs to an earlier window. */
  lemma StartMonotone(size: real, s: real, t: real)
    requires size > 0.0 && s <= t
    ensures Start(size, s) <= Start(size, t)
  {
    if Start(size, t) < Start(size, s) {
      AlignedGap(size, Start(size, t), Start(size, s));
    }
  }

  lemma NthSucc(size: real, k: int)
    ensures Nth(size, k + 1) == Nth(size, k) + size
  {
    var next := (k as real + 1.0) * size;
    assert next == k as real * size + size;
  }

  lemma NthMonotone(size: real, j: int, k: int)
    requires size > 0.0
    ensures j <= k ==> Nth(size, j) <= Nth(size, k)
  {
    if j <= k {
      ProductWeaklyMonotone(j as real, k as real, size);
    }
  }

  lemma NextAligned(size: real, w: real)
    requires Aligned(size, w)
    ensures Aligned(size, w + size) && Aligned(size, w - size)
  {
    var k: int :| w == Nth(size, k);
    NthSucc(size, k);
    NthSucc(size, k - 1);
    assert w + size == Nth(size, k + 1);
    assert w - size == Nth(size, k - 1);
  }

  /** `[w, w + size)` is an aligned window that meets `[from, to)`, or reaches past `from` when the range is empty. */
  ghost predicate Overlaps(size: real, from: real, to: real, w: real) {
    Aligned(size, w) && w < to && from < w + size
  }

  /** The starts of all overlapping windows, each once, in increasing order. */
  ghost predicate ListsOverlapping(size: real, from: real, to: real, ws: seq<real>) {
    && Increasing(ws)
    && (forall w :: w in ws <==> Overlaps(size, from, to, w))
  }

  /** `windows_between`: the loop lists exactly the overlapping windows. */
  method WindowsBetween(size: real, start: real, end: real) returns (result: seq<real>)
    requires size > 0.0
    ensures ListsOverlapping(size, start, end, result)
  {
    var ws := Start(size, start);
    result := [];
    ghost var n := Steps(size, ws, end);
    forall w | Overlaps(size, start, end, w) ensures w >= ws {
      if w < ws {
        AlignedGap(size, w, ws);
      }
    }
    while ws < end
      invariant Aligned(size, ws) && start < ws + size
      invariant Increasing(result)
      invariant forall w <- result :: w < ws
      invariant forall w :: w in result <==> Overlaps(size, start, end, w) && w < ws
      invariant end <= ws + Nth(size, n)
      decreases n
    {
      assert n > 0;
      NextAligned(size, ws);
      assert Overlaps(size, start, end, ws);
      forall w | Overlaps(size, start, end, w) && w < ws + size
        ensures w in result + [ws]
      {
        if ws < w {
          AlignedGap(size, ws, w);
        }
      }
      IncreasingSnoc(result, ws);
      result := result + [ws];
      ws := ws + size;
      NthSucc(size, n - 1);
      n := n - 1;
    }
  }

  /** `windows_overlapping`: starting one window early and filtering changes nothing. */
  method WindowsOverlapping(size: real, from: real, to: real) returns (result: seq<(real, real)>)
    requires size > 0.0
    ensures ListsOverlapping(size, from, to, Starts(result))
    ensures forall p <- result :: p.1 == p.0 + size
  {
    var ws := Start(size, from) - size;
    NextAligned(size, Start(size, from));
    result := [];
    ghost var n := Steps(size, ws, to);
    while ws < to
      invariant Aligned(size, ws) && from < ws + 2.0 * size
      invariant Increasing(Starts(result))
      invariant forall w :: w in Starts(result) <==> Overlaps(size, from, to, w) && w < ws
      invariant forall p <- result :: p.1 == p.0 + size
      invariant to <= ws + Nth(size, n)
      decreases n
    {
      assert n > 0;
      var we := ws + size;
      NextAligned(size, ws);
      ghost var before := result;
      IncreasingSnoc(Starts(result), ws);
      if we > from {
        result := result + [(ws, we)];
        assert Starts(result) == Starts(before) + [ws];
      }
      forall w | Overlaps(size, from, to, w) && w < ws + size
        ensures w in Starts(result)
      {
        if ws < w {
          AlignedGap(size, ws, w);
        }
      }
      ws := ws + size;
      NthSucc(size, n - 1);
      n := n - 1;
    }
  }

  function Starts(result: seq<(real, real)>): (ws: seq<real>)
    ensures |ws| == |result|
    ensures forall i | 0 <= i < |ws| :: ws[i] == result[i].0
  {
    seq(|result|, i requires 0 <= i < |result| => result[i].0)
  }

  /** Enough iterations for `ws`, advanced by `size`, to reach `end`. */
  ghost function Steps(size: real, ws: real, end: real): (n: nat)
    requires size > 0.0
    ensures end <= ws + Nth(size, n)
  {
    if end <= ws then 0 else
      Bracket(size, end - ws);
      var k := ((end - ws) / size).Floor;
      NthMonotone(size, k, -1);
      NthSucc(size, -1);
      NthSucc(size, k);
      k + 1
  }

  /** The two listings agree on every range. */
  lemma BetweenIsOverlapping(size: real, from: real, to: real, xs: seq<real>, ys: seq<real>)
    requires ListsOverlapping(size, from, to, xs) && ListsOverlapping(size, from, to, ys)
    ensures xs == ys
  {
    IncreasingUnique(xs, ys);
  }

  /** Two window sizes put every event into the same window only if they are the same size. */
  lemma SizesMustAgree(a: real, b: real)
    requires a > 0.0 && b > 0.0
    ensures (forall t :: Start(a, t) == Start(b, t)) <==> a == b
  {
    if a < b {
      SmallerSizeDiffers(a, b);
    } else if b < a {
      SmallerSizeDiffers(b, a);
    }
  }

  lemma SmallerSizeDiffers(a: real, b: real)
    requires 0.0 < a < b
    ensures Start(a, a) != Start(b, a)
  {
    assert a == Nth(a, 1) && 0.0 == Nth(b, 0);
    StartUnique(a, a, a);
    StartUnique(b, a, 0.0);
  }
}
