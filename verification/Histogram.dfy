/** Histograms over bucket indices and the canonical form that collapsing keeps. */
module Histogram {
  import opened Sets

  /** Bucket index to count; only non-empty buckets are present. */
  type Hist = map<int, int>

  ghost predicate IsHist(h: Hist) {
    forall k :: k in h ==> k >= 0 && h[k] > 0
  }

  function Count(h: Hist, k: int): int {
    if k in h then h[k] else 0
  }

  /** How many values lie in buckets up to and including `k`. */
  function Cum(h: Hist, k: int): int
    decreases k + 1
  {
    if k < 0 then 0 else Cum(h, k - 1) + Count(h, k)
  }

  function Plus(a: Hist, b: Hist): (h: Hist)
    ensures h.Keys == a.Keys + b.Keys
    ensures forall k :: Count(h, k) == Count(a, k) + Count(b, k)
    ensures IsHist(a) && IsHist(b) ==> IsHist(h)
  {
    map k | k in a.Keys + b.Keys :: Count(a, k) + Count(b, k)
  }

  function Single(k: int): Hist {
    map[k := 1]
  }

  lemma PlusCommutes(a: Hist, b: Hist)
    ensures Plus(a, b) == Plus(b, a)
  {
  }

  lemma PlusAssociates(a: Hist, b: Hist, c: Hist)
    ensures Plus(Plus(a, b), c) == Plus(a, Plus(b, c))
  {
    var l, r := Plus(Plus(a, b), c), Plus(a, Plus(b, c));
    assert l.Keys == r.Keys;
    forall k | k in l ensures l[k] == r[k] {
      assert Count(l, k) == Count(r, k);
    }
  }

  lemma PlusEmpty(a: Hist)
    ensures Plus(map[], a) == a == Plus(a, map[])
  {
  }

  lemma {:induction false} CumPlus(a: Hist, b: Hist, k: int)
    ensures Cum(Plus(a, b), k) == Cum(a, k) + Cum(b, k)
    decreases k + 1
  {
    if k >= 0 {
      CumPlus(a, b, k - 1);
    }
  }

  lemma {:induction false} CumMonotone(h: Hist, j: int, k: int)
    requires IsHist(h) && j <= k
    ensures Cum(h, j) <= Cum(h, k)
    decreases k - j
  {
    if j < k {
      CumMonotone(h, j, k - 1);
    }
  }

  /** No bucket lies above `k`. */
  ghost predicate Bounds(h: Hist, k: int) {
    forall j :: j in h ==> j <= k
  }

  ghost function Bound(keys: set<int>): (b: int)
    ensures b >= 0
    ensures forall j :: j in keys ==> j <= b
  {
    if keys == {} then 0 else
      var x := Pick(keys);
      var b := Bound(keys - {x});
      assert keys == (keys - {x}) + {x};
      if x <= b then b else x
  }

  lemma {:induction false} CumBeyond(h: Hist, j: int, k: int)
    requires Bounds(h, j) && j <= k
    ensures Cum(h, j) == Cum(h, k)
    decreases k - j
  {
    if j < k {
      CumBeyond(h, j, k - 1);
    }
  }

  lemma CumNonNegative(h: Hist, k: int)
    ensures IsHist(h) ==> Cum(h, k) >= 0
  {
    if IsHist(h) && k >= 0 {
      CumMonotone(h, -1, k);
    }
  }

  lemma CumAtBounds(h: Hist, b: int)
    requires Bounds(h, b)
    ensures forall k :: Bounds(h, k) ==> Cum(h, k) == Cum(h, b)
  {
    forall k | Bounds(h, k) ensures Cum(h, k) == Cum(h, b) {
      if k <= b {
        CumBeyond(h, k, b);
      } else {
        CumBeyond(h, b, k);
      }
    }
  }

  /** The number of values in the histogram. */
  ghost function Total(h: Hist): (n: int)
    ensures forall k :: Bounds(h, k) ==> Cum(h, k) == n
    ensures IsHist(h) ==> n >= 0
  {
    var b := Bound(h.Keys);
    assert Bounds(h, b);
    CumAtBounds(h, b);
    CumNonNegative(h, b);
    Cum(h, b)
  }

  lemma TotalPlus(a: Hist, b: Hist)
    ensures Total(Plus(a, b)) == Total(a) + Total(b)
  {
    var k := Bound(a.Keys + b.Keys);
    assert Bounds(a, k) && Bounds(b, k) && Bounds(Plus(a, b), k);
    CumPlus(a, b, k);
  }

  lemma TotalSingle(i: int)
    requires i >= 0
    ensures Total(Single(i)) == 1
  {
    assert Bounds(Single(i), i);
    CumOfSingle(i, i);
  }

  lemma {:induction false} CumOfSingle(i: int, k: int)
    requires i >= 0
    ensures Cum(Single(i), k) == if k < i then 0 else 1
    decreases k + 1
  {
    if k >= 0 {
      CumOfSingle(i, k - 1);
    }
  }

  lemma TotalZero(h: Hist)
    requires IsHist(h)
    ensures Total(h) == 0 <==> h == map[]
  {
    var b := Bound(h.Keys);
    assert Bounds(h, b);
    if h != map[] {
      var k := Pick(h.Keys);
      CumMonotone(h, k, b);
      CumMonotone(h, -1, k - 1);
    } else {
      CumZero(b);
    }
  }

  lemma {:induction false} CumZero(k: int)
    ensures Cum(map[], k) == 0
    decreases k + 1
  {
    if k >= 0 {
      CumZero(k - 1);
    }
  }

  // ------------------------------------------------------------------
  // Which buckets survive
  // ------------------------------------------------------------------

  ghost function Above(keys: set<int>, l: int): set<int> {
    set k | k in keys && k > l
  }

  /** `l` is the least index with fewer than `m` keys above it. */
  ghost predicate IsFloor(keys: set<int>, m: nat, l: int) {
    l >= 0 && |Above(keys, l)| < m && (l == 0 || |Above(keys, l - 1)| >= m)
  }

  lemma {:induction false} FloorExists(keys: set<int>, m: nat, l: int)
    requires l >= 0 && |Above(keys, l)| < m
    ensures exists f: int :: IsFloor(keys, m, f)
  {
    if l == 0 || |Above(keys, l - 1)| >= m {
      assert IsFloor(keys, m, l);
    } else {
      FloorExists(keys, m, l - 1);
    }
  }

  lemma AboveAntitone(small: set<int>, large: set<int>, j: int, k: int)
    requires small <= large && j <= k
    ensures Above(small, k) <= Above(large, j)
    ensures |Above(small, k)| <= |Above(large, j)|
  {
    CardinalityMonotone(Above(small, k), Above(large, j));
  }

  /** The smallest index a sketch of capacity `m` keeps apart; 0 while nothing has to be folded. */
  ghost function Floor(keys: set<int>, m: nat): (l: int)
    requires m > 0
    ensures IsFloor(keys, m, l)
  {
    var b := Bound(keys);
    assert Above(keys, b) == {};
    FloorExists(keys, m, b);
    var l: int :| IsFloor(keys, m, l); l
  }

  lemma FloorUnique(keys: set<int>, m: nat, l: int)
    requires m > 0 && IsFloor(keys, m, l)
    ensures l == Floor(keys, m)
  {
    var f := Floor(keys, m);
    if l < f {
      AboveAntitone(keys, keys, l, f - 1);
    } else if f < l {
      AboveAntitone(keys, keys, f, l - 1);
    }
  }

  lemma FloorMonotone(small: set<int>, large: set<int>, m: nat)
    requires m > 0 && small <= large
    ensures Floor(small, m) <= Floor(large, m)
  {
    var s, l := Floor(small, m), Floor(large, m);
    if l < s {
      AboveAntitone(small, large, l, s - 1);
    }
  }

  lemma FloorIsKey(keys: set<int>, m: nat)
    requires m > 0
    ensures Floor(keys, m) == 0 || Floor(keys, m) in keys
  {
    var f := Floor(keys, m);
    if f !in keys {
      assert Above(keys, f) == Above(keys, f - 1);
    }
  }

  // ------------------------------------------------------------------
  // Folding and the canonical form
  // ------------------------------------------------------------------

  ghost predicate CanFold(h: Hist, l: int) {
    l == 0 || l in h
  }

  /** Everything below `l` counted in bucket `l`. */
  function FoldAt(h: Hist, l: int): (r: Hist)
    ensures forall k :: k in r <==> k in h && k >= l
  {
    map k | k in h && k >= l :: if k == l then Cum(h, l) else h[k]
  }

  lemma {:induction false} CumFold(h: Hist, l: int, k: int)
    requires CanFold(h, l)
    ensures Cum(FoldAt(h, l), k) == if k >= l then Cum(h, k) else 0
    decreases k + 1
  {
    if k >= 0 {
      CumFold(h, l, k - 1);
    }
  }

  /** The canonical form of capacity `m`. */
  ghost function Canon(h: Hist, m: nat): Hist
    requires m > 0
  {
    FoldAt(h, Floor(h.Keys, m))
  }

  lemma CanonIsHist(h: Hist, m: nat)
    requires m > 0 && IsHist(h)
    ensures IsHist(Canon(h, m))
  {
    var f := Floor(h.Keys, m);
    CumMonotone(h, -1, f - 1);
  }

  lemma CumCanon(h: Hist, m: nat, k: int)
    requires m > 0
    ensures Cum(Canon(h, m), k) == if k >= Floor(h.Keys, m) then Cum(h, k) else 0
  {
    FloorIsKey(h.Keys, m);
    CumFold(h, Floor(h.Keys, m), k);
  }

  /** At most `m` buckets survive, exactly `m` when there were more; no dropped bucket lies above a
      kept one; only the smallest kept bucket gains; no value is lost. */
  lemma CanonMeaning(h: Hist, m: nat)
    requires m > 0 && IsHist(h)
    ensures var c := Canon(h, m);
            && c.Keys <= h.Keys
            && |c| == (if |h| <= m then |h| else m)
            && (forall k, j :: k in c && j in h && j !in c ==> j < k)
            && (forall k, j :: k in c && j in c && j < k ==> c[k] == h[k])
            && Total(c) == Total(h)
  {
    var c, f := Canon(h, m), Floor(h.Keys, m);
    FloorIsKey(h.Keys, m);
    var b := Bound(h.Keys + {f});
    assert Bounds(h, b) && Bounds(c, b);
    CumCanon(h, m, b);
    CanonSize(h, m);
    forall k, j | k in c && j in c && j < k ensures c[k] == h[k] {
      assert k > f;
    }
  }

  lemma CanonSize(h: Hist, m: nat)
    requires m > 0 && IsHist(h)
    ensures |Canon(h, m)| == if |h| <= m then |h| else m
  {
    var c, f := Canon(h, m), Floor(h.Keys, m);
    FloorIsKey(h.Keys, m);
    assert c.Keys <= h.Keys;
    CardinalityMonotone(c.Keys, h.Keys);
    if f in h {
      assert c.Keys == Above(h.Keys, f) + {f};
      if f > 0 {
        assert c.Keys == Above(h.Keys, f - 1);
      } else {
        assert c.Keys == h.Keys;
      }
    } else {
      assert c.Keys == h.Keys == Above(h.Keys, 0);
    }
  }

  lemma CanonOfSmall(h: Hist, m: nat)
    requires m > 0 && IsHist(h) && |h| <= m
    ensures Canon(h, m) == h
  {
    var c, f := Canon(h, m), Floor(h.Keys, m);
    CanonSize(h, m);
    assert c.Keys == h.Keys by {
      SubsetOfSameSize(c.Keys, h.Keys);
    }
    if f in h {
      NothingBelow(h, f);
    }
  }

  lemma {:induction false} NothingBelow(h: Hist, f: int)
    requires IsHist(h)
    requires forall k :: k in h ==> k >= f
    ensures Cum(h, f) == Count(h, f) && Cum(h, f - 1) == 0
    decreases f + 1
  {
    if f > 0 {
      NothingBelow(h, f - 1);
    }
  }

  lemma SubsetOfSameSize<T>(a: set<T>, b: set<T>)
    requires a <= b && |a| == |b|
    ensures a == b
  {
    assert b == a + (b - a);
    assert |b| == |a| + |b - a|;
  }

  /** Folding a prefix that will be folded anyway changes nothing. */
  lemma CanonAfterFold(h: Hist, l: int, m: nat)
    requires m > 0 && IsHist(h) && l in h && l <= Floor(h.Keys, m)
    ensures Canon(FoldAt(h, l), m) == Canon(h, m)
  {
    var g, f := FoldAt(h, l), Floor(h.Keys, m);
    FloorMonotone(g.Keys, h.Keys, m);
    assert Above(g.Keys, f) == Above(h.Keys, f);
    if f > 0 {
      assert Above(g.Keys, f - 1) == Above(h.Keys, f - 1);
    }
    FloorUnique(g.Keys, m, f);
    CumFold(h, l, f);
  }

  /** The buckets kept from a union can be read off the buckets kept from its parts. */
  lemma FloorOfKept(a: Hist, b: Hist, m: nat)
    requires m > 0
    ensures Floor(Canon(a, m).Keys + Canon(b, m).Keys, m) == Floor(a.Keys + b.Keys, m)
    ensures Floor(a.Keys, m) <= Floor(a.Keys + b.Keys, m)
    ensures Floor(b.Keys, m) <= Floor(a.Keys + b.Keys, m)
  {
    var kept, all := Canon(a, m).Keys + Canon(b, m).Keys, a.Keys + b.Keys;
    var f := Floor(all, m);
    FloorMonotone(a.Keys, all, m);
    FloorMonotone(b.Keys, all, m);
    assert Above(kept, f) == Above(all, f);
    if f > 0 {
      assert Above(kept, f - 1) == Above(all, f - 1);
    }
    FloorUnique(kept, m, f);
  }

  /** Merging canonical forms loses nothing: the canonical form of the sum is the canonical form of
      the sum of canonical forms. */
  lemma CanonPlus(a: Hist, b: Hist, m: nat)
    requires m > 0
    ensures Canon(Plus(Canon(a, m), Canon(b, m)), m) == Canon(Plus(a, b), m)
  {
    var ca, cb := Canon(a, m), Canon(b, m);
    var c, h := Plus(ca, cb), Plus(a, b);
    var f := Floor(h.Keys, m);
    FloorOfKept(a, b, m);
    CumCanon(a, m, f);
    CumCanon(b, m, f);
    CumPlus(ca, cb, f);
    CumPlus(a, b, f);
    var l, r := Canon(c, m), Canon(h, m);
    forall k ensures (k in l <==> k in r) && (k in l ==> l[k] == r[k]) {
      if k > f {
        assert Count(ca, k) == Count(a, k) && Count(cb, k) == Count(b, k);
        assert Count(c, k) == Count(h, k);
      }
    }
  }

  lemma CanonIdempotent(h: Hist, m: nat)
    requires m > 0 && IsHist(h)
    ensures Canon(Canon(h, m), m) == Canon(h, m)
  {
    CanonIsHist(h, m);
    CanonSize(h, m);
    CanonOfSmall(Canon(h, m), m);
  }

  /** A stored dictionary and count that stand for the full histogram `h` at capacity `m`. */
  ghost predicate Represents(m: nat, h: Hist, buckets: Hist, total: int)
    requires m > 0
  {
    IsHist(h) && buckets == Canon(h, m) && total == Total(h)
  }

  lemma RepresentsUnique(m: nat, h: Hist, buckets: Hist, total: int, buckets': Hist, total': int)
    requires m > 0 && Represents(m, h, buckets, total) && Represents(m, h, buckets', total')
    ensures buckets == buckets' && total == total'
  {
  }

  lemma RepresentsEmpty(m: nat)
    requires m > 0
    ensures Represents(m, map[], map[], 0)
  {
    CanonOfSmall(map[], m);
    TotalZero(map[]);
  }

  lemma RepresentsSingle(m: nat, i: int)
    requires m > 0 && i >= 0
    ensures Represents(m, Single(i), Single(i), 1)
  {
    CanonOfSmall(Single(i), m);
    TotalSingle(i);
  }

  /** Adding counters and collapsing represents the sum. */
  lemma RepresentsPlus(m: nat, h: Hist, b: Hist, t: int, h': Hist, b': Hist, t': int)
    requires m > 0 && Represents(m, h, b, t) && Represents(m, h', b', t')
    ensures IsHist(Plus(b, b'))
    ensures Represents(m, Plus(h, h'), Canon(Plus(b, b'), m), t + t')
  {
    CanonIsHist(h, m);
    CanonIsHist(h', m);
    CanonPlus(h, h', m);
    TotalPlus(h, h');
  }

  lemma PlusSingle(h: Hist, i: int)
    ensures h[i := (if i in h then h[i] else 0) + 1] == Plus(h, Single(i))
  {
  }

  lemma RepresentsOneMore(m: nat, h: Hist, b: Hist, t: int, i: int)
    requires m > 0 && i >= 0 && Represents(m, h, b, t)
    ensures var b' := b[i := (if i in b then b[i] else 0) + 1];
            IsHist(b') && Represents(m, Plus(h, Single(i)), Canon(b', m), t + 1)
  {
    hide Represents, Canon;
    RepresentsSingle(m, i);
    RepresentsPlus(m, h, b, t, Single(i), Single(i), 1);
    PlusSingle(b, i);
  }

  // ------------------------------------------------------------------
  // Ranks
  // ------------------------------------------------------------------

  /** `k` is the bucket at which the cumulative count first reaches `r`. */
  ghost predicate IsRankBucket(h: Hist, r: nat, k: nat) {
    Cum(h, k) >= r && Cum(h, k - 1) < r
  }

  lemma RankExists(h: Hist, r: nat) returns (k: nat)
    requires IsHist(h) && 0 < r <= Total(h)
    ensures IsRankBucket(h, r, k)
  {
    k := Bound(h.Keys);
    assert Bounds(h, k);
    while Cum(h, k - 1) >= r
      invariant Cum(h, k) >= r
      decreases k
    {
      k := k - 1;
    }
  }

  /** A larger rank never lies in a lower bucket; in particular the rank bucket is unique. */
  lemma RankMonotone(h: Hist, r: nat, k: nat, r': nat, k': nat)
    requires IsHist(h) && r <= r' && IsRankBucket(h, r, k) && IsRankBucket(h, r', k')
    ensures k <= k'
  {
    if k' < k {
      CumMonotone(h, k', k - 1);
    }
  }

  /** Collapsing moves a rank only when its bucket was folded away. */
  lemma RankOfCanon(h: Hist, m: nat, r: nat, k: nat, c: nat)
    requires m > 0 && r > 0 && IsHist(h)
    requires IsRankBucket(h, r, k) && IsRankBucket(Canon(h, m), r, c)
    ensures c == if k >= Floor(h.Keys, m) then k else Floor(h.Keys, m)
  {
    CanonIsHist(h, m);
    var f := Floor(h.Keys, m);
    var e := if k >= f then k else f;
    CumMonotone(h, k, e);
    CumCanon(h, m, e);
    CumCanon(h, m, e - 1);
    RankMonotone(Canon(h, m), r, c, r, e);
    RankMonotone(Canon(h, m), r, e, r, c);
  }
}
