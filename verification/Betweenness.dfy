/** A quantile of merged sketches lies between the same quantile of the parts. */
module Betweenness {
  import opened Histogram
  import opened Reals
  import opened SketchSpec

  ghost function SumOf(parts: seq<Hist>): Hist {
    if parts == [] then map[] else Plus(SumOf(parts[..|parts| - 1]), parts[|parts| - 1])
  }

  /** A rank is the least count that reaches the fraction q of n, and at least one. */
  lemma RankBounds(q: real, n: nat, x: real, c: int)
    requires 0.0 <= q <= 1.0 && n > 0 && x == q * n as real
    ensures c >= Rank(q, n) <==> c >= 1 && c as real >= x
  {
  }

  /** Reaching the rank in both parts reaches it in the sum; missing it in both parts misses it. */
  lemma RankAdds(q: real, m: nat, n: nat, s: nat, c: int, d: int)
    requires 0.0 <= q <= 1.0 && m > 0 && n > 0 && c >= 0 && d >= 0 && s == m + n
    ensures c >= Rank(q, m) && d >= Rank(q, n) ==> c + d >= Rank(q, s)
    ensures c < Rank(q, m) && d < Rank(q, n) ==> c + d < Rank(q, s)
  {
    hide Rank;
    var x, y, z := q * m as real, q * n as real, q * s as real;
    assert z == x + y;
    RankBounds(q, m, x, c);
    RankBounds(q, n, y, d);
    RankBounds(q, s, z, c + d);
    if q > 0.0 {
      ProductPositive(q, m as real);
      ProductPositive(q, n as real);
    }
  }

  lemma BetweenTwo(q: real, a: Hist, b: Hist, j: nat, k: nat, c: nat)
    requires 0.0 <= q <= 1.0 && IsHist(a) && IsHist(b) && Total(a) > 0 && Total(b) > 0
    requires IsRankBucket(a, Rank(q, Total(a)), j) && IsRankBucket(b, Rank(q, Total(b)), k)
    requires IsRankBucket(Plus(a, b), Rank(q, Total(a) + Total(b)), c)
    ensures j <= c || k <= c
    ensures c <= j || c <= k
  {
    hide Rank, Cum, Plus, IsHist, Total;
    var low, high := if j <= k then j else k, if j <= k then k else j;
    CumMonotone(a, j, high);
    CumMonotone(b, k, high);
    CumMonotone(a, low - 1, j - 1);
    CumMonotone(b, low - 1, k - 1);
    CumNonNegative(a, low - 1);
    CumNonNegative(b, low - 1);
    CumNonNegative(a, high);
    CumNonNegative(b, high);
    CumPlus(a, b, high);
    CumPlus(a, b, low - 1);
    RankAdds(q, Total(a), Total(b), Total(a) + Total(b), Cum(a, high), Cum(b, high));
    RankAdds(q, Total(a), Total(b), Total(a) + Total(b), Cum(a, low - 1), Cum(b, low - 1));
    if c < low {
      CumMonotone(Plus(a, b), c, low - 1);
    }
    if high < c {
      CumMonotone(Plus(a, b), high, c - 1);
    }
  }

  ghost predicate NonEmptyParts(parts: seq<Hist>) {
    forall i | 0 <= i < |parts| :: IsHist(parts[i]) && Total(parts[i]) > 0
  }

  lemma {:induction false} SumIsHist(parts: seq<Hist>)
    requires NonEmptyParts(parts)
    ensures IsHist(SumOf(parts)) && (parts != [] ==> Total(SumOf(parts)) > 0)
  {
    if parts != [] {
      var n := |parts| - 1;
      SumIsHist(parts[..n]);
      TotalPlus(SumOf(parts[..n]), parts[n]);
      if n == 0 {
        TotalZero(map[]);
      } else {
        assert Total(SumOf(parts[..n])) > 0;
      }
    }
  }

  ghost predicate RankBuckets(q: real, parts: seq<Hist>, ks: seq<nat>)
    requires 0.0 <= q <= 1.0 && NonEmptyParts(parts)
  {
    |ks| == |parts| && forall i | 0 <= i < |parts| :: IsRankBucket(parts[i], Rank(q, Total(parts[i])), ks[i])
  }

  lemma SplitLast(q: real, parts: seq<Hist>, ks: seq<nat>)
    requires 0.0 <= q <= 1.0 && parts != [] && NonEmptyParts(parts) && RankBuckets(q, parts, ks)
    ensures var n := |parts| - 1;
            && |ks| == n + 1
            && NonEmptyParts(parts[..n]) && RankBuckets(q, parts[..n], ks[..n])
            && IsHist(parts[n]) && Total(parts[n]) > 0
            && IsRankBucket(parts[n], Rank(q, Total(parts[n])), ks[n])
            && SumOf(parts) == Plus(SumOf(parts[..n]), parts[n])
  {
  }

  lemma {:induction false} BetweenUncollapsed(q: real, parts: seq<Hist>, ks: seq<nat>, c: nat)
    requires 0.0 <= q <= 1.0 && parts != [] && NonEmptyParts(parts) && RankBuckets(q, parts, ks)
    requires IsHist(SumOf(parts)) && Total(SumOf(parts)) > 0
    requires IsRankBucket(SumOf(parts), Rank(q, Total(SumOf(parts))), c)
    ensures exists i :: 0 <= i < |ks| && ks[i] <= c
    ensures exists i :: 0 <= i < |ks| && c <= ks[i]
    decreases |parts|
  {
    hide *;
    var n := |parts| - 1;
    SplitLast(q, parts, ks);
    var rest, last := SumOf(parts[..n]), parts[n];
    if n == 0 {
      SumOfNone(parts[..n]);
      PlusEmpty(last);
      var r := Rank(q, Total(last));
      RankMonotone(last, r, c, r, ks[0]);
      RankMonotone(last, r, ks[0], r, c);
    } else {
      SumIsHist(parts[..n]);
      TotalPlus(rest, last);
      var d := RankExists(rest, Rank(q, Total(rest)));
      BetweenUncollapsed(q, parts[..n], ks[..n], d);
      BetweenTwo(q, rest, last, d, ks[n], c);
      var i :| 0 <= i < n && ks[..n][i] <= d;
      var j :| 0 <= j < n && d <= ks[..n][j];
      assert ks[i] <= d <= ks[j];
    }
  }

  lemma SumOfNone(parts: seq<Hist>)
    requires parts == []
    ensures SumOf(parts) == map[]
  {
  }

  // ------------------------------------------------------------------
  // Parts that were collapsed themselves
  // ------------------------------------------------------------------

  /** `ks[i]` is the bucket at which the collapsed part `i` answers its own query. */
  ghost predicate AnswerBuckets(m: nat, q: real, parts: seq<Hist>, ks: seq<nat>)
    requires m > 0 && 0.0 <= q <= 1.0 && NonEmptyParts(parts)
  {
    && |ks| == |parts|
    && forall i | 0 <= i < |parts| :: IsRankBucket(Canon(parts[i], m), Rank(q, Total(parts[i])), ks[i])
  }

  lemma RankBucketsExist(q: real, parts: seq<Hist>) returns (ks: seq<nat>)
    requires 0.0 <= q <= 1.0 && NonEmptyParts(parts)
    ensures RankBuckets(q, parts, ks)
  {
    ks := [];
    while |ks| < |parts|
      invariant |ks| <= |parts|
      invariant forall i | 0 <= i < |ks| :: IsRankBucket(parts[i], Rank(q, Total(parts[i])), ks[i])
    {
      var k := RankExists(parts[|ks|], Rank(q, Total(parts[|ks|])));
      ks := ks + [k];
    }
  }

  lemma {:induction false} PartInSum(parts: seq<Hist>, i: nat)
    requires i < |parts|
    ensures parts[i].Keys <= SumOf(parts).Keys
  {
    if i < |parts| - 1 {
      PartInSum(parts[..|parts| - 1], i);
    }
  }

  /** Where a collapsed part answers, from where it would have answered uncollapsed. */
  lemma AnswerBucketIs(m: nat, q: real, parts: seq<Hist>, js: seq<nat>, ks: seq<nat>, i: nat)
    requires m > 0 && 0.0 <= q <= 1.0 && NonEmptyParts(parts) && i < |parts|
    requires RankBuckets(q, parts, js) && AnswerBuckets(m, q, parts, ks)
    ensures js[i] <= ks[i] && (ks[i] == js[i] || ks[i] <= Floor(SumOf(parts).Keys, m))
  {
    RankOfCanon(parts[i], m, Rank(q, Total(parts[i])), js[i], ks[i]);
    PartInSum(parts, i);
    FloorMonotone(parts[i].Keys, SumOf(parts).Keys, m);
  }

  /** What the parts hold after collapsing. */
  ghost function Stored(m: nat, parts: seq<Hist>): (stored: seq<Hist>)
    requires m > 0
    ensures |stored| == |parts| && forall i :: 0 <= i < |parts| ==> stored[i] == Canon(parts[i], m)
  {
    seq(|parts|, i requires 0 <= i < |parts| => Canon(parts[i], m))
  }

  lemma StoredSnoc(m: nat, parts: seq<Hist>)
    requires m > 0 && parts != []
    ensures var n := |parts| - 1; SumOf(Stored(m, parts)) == Plus(SumOf(Stored(m, parts[..n])), Canon(parts[n], m))
  {
    var n := |parts| - 1;
    assert Stored(m, parts)[..n] == Stored(m, parts[..n]);
  }

  /** The stored parts are histograms with the same totals, and their sum collapses to what the sum of all that
      was counted collapses to. */
  lemma {:induction false} SumOfStored(m: nat, parts: seq<Hist>)
    requires m > 0 && NonEmptyParts(parts)
    ensures NonEmptyParts(Stored(m, parts))
    ensures Canon(SumOf(Stored(m, parts)), m) == Canon(SumOf(parts), m)
    ensures Total(SumOf(Stored(m, parts))) == Total(SumOf(parts))
  {
    StoredNonEmpty(m, parts);
    if parts == [] {
      assert Stored(m, parts) == parts;
    } else {
      var n := |parts| - 1;
      SumOfStored(m, parts[..n]);
      StoredSnoc(m, parts);
      assert IsHist(parts[n]) && SumOf(parts) == Plus(SumOf(parts[..n]), parts[n]);
      hide *;
      StoredStep(m, SumOf(Stored(m, parts[..n])), SumOf(parts[..n]), parts[n]);
    }
  }

  lemma StoredNonEmpty(m: nat, parts: seq<Hist>)
    requires m > 0 && NonEmptyParts(parts)
    ensures NonEmptyParts(Stored(m, parts))
  {
    hide Canon, Total, IsHist;
    forall i | 0 <= i < |parts| ensures IsHist(Canon(parts[i], m)) && Total(Canon(parts[i], m)) == Total(parts[i]) {
      CanonIsHist(parts[i], m);
      CanonMeaning(parts[i], m);
    }
  }

  lemma StoredStep(m: nat, a: Hist, b: Hist, last: Hist)
    requires m > 0 && IsHist(last) && Canon(a, m) == Canon(b, m) && Total(a) == Total(b)
    ensures Canon(Plus(a, Canon(last, m)), m) == Canon(Plus(b, last), m)
    ensures Total(Plus(a, Canon(last, m))) == Total(Plus(b, last))
  {
    hide *;
    CanonPlus(a, Canon(last, m), m);
    CanonIdempotent(last, m);
    CanonPlus(b, last, m);
    CanonMeaning(last, m);
    TotalPlus(a, Canon(last, m));
    TotalPlus(b, last);
  }

  lemma AnswersOfStored(m: nat, q: real, parts: seq<Hist>, ks: seq<nat>)
    requires m > 0 && 0.0 <= q <= 1.0 && NonEmptyParts(parts) && AnswerBuckets(m, q, parts, ks)
    requires NonEmptyParts(Stored(m, parts))
    ensures RankBuckets(q, Stored(m, parts), ks)
  {
    forall i | 0 <= i < |parts| ensures Total(Canon(parts[i], m)) == Total(parts[i]) {
      CanonMeaning(parts[i], m);
    }
    hide Canon, Total, Rank, IsRankBucket;
  }

  /** With room for the buckets the parts hold, the merged answer lies between those of the parts. */
  lemma BetweenWithRoom(cfg: Config, q: real, parts: seq<Hist>, ks: seq<nat>, c: nat)
    requires cfg.Valid() && 0.0 <= q <= 1.0 && parts != [] && NonEmptyParts(parts)
    requires AnswerBuckets(cfg.maxBuckets, q, parts, ks)
    requires Total(SumOf(parts)) > 0 && |SumOf(Stored(cfg.maxBuckets, parts))| <= cfg.maxBuckets
    requires IsRankBucket(Canon(SumOf(parts), cfg.maxBuckets), Rank(q, Total(SumOf(parts))), c)
    ensures exists i :: 0 <= i < |ks| && ks[i] <= c
    ensures exists i :: 0 <= i < |ks| && c <= ks[i]
  {
    var m := cfg.maxBuckets;
    SumOfStored(m, parts);
    AnswersOfStored(m, q, parts, ks);
    SumIsHist(Stored(m, parts));
    CanonOfSmall(SumOf(Stored(m, parts)), m);
    hide Canon, Total, Rank, IsRankBucket, SumOf;
    BetweenUncollapsed(q, Stored(m, parts), ks, c);
  }

  /** For any number of non-empty parts, collapsed or not, the merged answer is at least the smallest answer
      of a part; it is at most the largest one unless collapsing raised it to the lowest surviving bucket,
      which cannot happen when the merge has room for the buckets the parts hold. */
  lemma MergedQuantileBetween(cfg: Config, q: real, parts: seq<Hist>, ks: seq<nat>, c: nat)
    requires cfg.Valid() && 0.0 <= q <= 1.0 && parts != [] && NonEmptyParts(parts)
    requires AnswerBuckets(cfg.maxBuckets, q, parts, ks)
    requires IsHist(SumOf(parts)) && Total(SumOf(parts)) > 0
    requires IsRankBucket(Canon(SumOf(parts), cfg.maxBuckets), Rank(q, Total(SumOf(parts))), c)
    ensures exists i :: 0 <= i < |ks| && cfg.Edge(ks[i]) <= cfg.Edge(c)
    ensures c == Floor(SumOf(parts).Keys, cfg.maxBuckets) || exists i :: 0 <= i < |ks| && cfg.Edge(c) <= cfg.Edge(ks[i])
    ensures |SumOf(Stored(cfg.maxBuckets, parts))| <= cfg.maxBuckets ==>
              exists i :: 0 <= i < |ks| && cfg.Edge(c) <= cfg.Edge(ks[i])
  {
    var sum := SumOf(parts);
    var r := Rank(q, Total(sum));
    var k := RankExists(sum, r);
    var js := RankBucketsExist(q, parts);
    RankOfCanon(sum, cfg.maxBuckets, r, k, c);
    BetweenUncollapsed(q, parts, js, k);
    var i :| 0 <= i < |js| && js[i] <= k;
    var j :| 0 <= j < |js| && k <= js[j];
    AnswerBucketIs(cfg.maxBuckets, q, parts, js, ks, i);
    AnswerBucketIs(cfg.maxBuckets, q, parts, js, ks, j);
    EdgeMonotone(cfg, ks[i], c);
    if |SumOf(Stored(cfg.maxBuckets, parts))| <= cfg.maxBuckets {
      BetweenWithRoom(cfg, q, parts, ks, c);
      var l :| 0 <= l < |ks| && c <= ks[l];
      EdgeMonotone(cfg, c, ks[l]);
    }
    if c <= ks[j] {
      EdgeMonotone(cfg, c, ks[j]);
    }
  }
}
