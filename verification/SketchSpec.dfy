/** What the quantile sketch of local_ddsketch/sketch.py promises. */
module SketchSpec {
  import opened Extended
  import opened Histogram
  import opened Power
  import opened Reals
  import opened Sets

  datatype Config = Config(alpha: real, gamma: real, maxBuckets: int, minValue: real, maxValue: real) {
    /** What the constructor establishes: its four checks, and the derived base `_gamma`. */
    ghost predicate Valid() {
      && Accepts(alpha, maxBuckets, minValue, maxValue)
      && gamma > 1.0
      && gamma * (1.0 - alpha) == 1.0 + alpha
    }

    static predicate Accepts(alpha: real, maxBuckets: int, minValue: real, maxValue: real) {
      0.0 < alpha < 1.0 && maxBuckets >= 2 && minValue > 0.0 && maxValue > minValue
    }

    /** The value a query reports for bucket `k`. */
    function Edge(k: nat): real {
      minValue * Pow(gamma, k)
    }

    /** The ends of the documented relative error around `v`. */
    function LeastAllowed(v: real): real {
      (1.0 - alpha) * v
    }

    function MostAllowed(v: real): real {
      (1.0 + alpha) * v
    }

    /** Values outside the accepted range count as its nearest end. */
    function Clamp(v: real): (c: real)
      ensures minValue <= maxValue ==> minValue <= c <= maxValue
      ensures minValue <= v <= maxValue ==> c == v
    {
      var low := if v <= maxValue then v else maxValue;
      if low >= minValue then low else minValue
    }

    /** `k` is the index whose edges enclose `v`: the ceiling of the logarithm of `v / minValue`. */
    ghost predicate IsBucket(v: real, k: nat) {
      v <= Edge(k) && (k > 0 ==> Edge(k - 1) < v)
    }

    ghost function Bucket(v: real): (k: nat)
      requires Valid()
      ensures IsBucket(v, k)
    {
      BucketExists(this, v);
      var k: nat :| IsBucket(v, k); k
    }
  }

  lemma GammaAboveOne(alpha: real)
    requires 0.0 < alpha < 1.0
    ensures var g := (1.0 + alpha) / (1.0 - alpha); g > 1.0 && g * (1.0 - alpha) == 1.0 + alpha
  {
    var g := Quotient(1.0 + alpha, 1.0 - alpha);
    if g <= 1.0 {
      ProductWeaklyMonotone(g, 1.0, 1.0 - alpha);
    }
  }

  /** `_bucket_index` */
  method BucketIndex(cfg: Config, v: real) returns (k: nat)
    requires cfg.Valid()
    ensures k == cfg.Bucket(v)
  {
    k := CeilLog(cfg.gamma, v / cfg.minValue);
    LogIsBucket(cfg, v);
    BucketUnique(cfg, v, k);
  }

  lemma LogIsBucket(cfg: Config, v: real)
    requires cfg.Valid()
    ensures cfg.IsBucket(v, CeilLog(cfg.gamma, v / cfg.minValue))
  {
    var x := Quotient(v, cfg.minValue);
    var k := CeilLog(cfg.gamma, x);
    ProductWeaklyMonotone(x, Pow(cfg.gamma, k), cfg.minValue);
    if k > 0 {
      ProductMonotone(Pow(cfg.gamma, k - 1), x, cfg.minValue);
    }
  }

  lemma BucketExists(cfg: Config, v: real)
    requires cfg.Valid()
    ensures exists k: nat :: cfg.IsBucket(v, k)
  {
    LogIsBucket(cfg, v);
  }

  lemma EdgeMonotone(cfg: Config, j: nat, k: nat)
    requires cfg.Valid() && j <= k
    ensures cfg.Edge(j) <= cfg.Edge(k)
  {
    PowMonotone(cfg.gamma, j, k);
    ProductWeaklyMonotone(Pow(cfg.gamma, j), Pow(cfg.gamma, k), cfg.minValue);
  }

  lemma EdgeSucc(cfg: Config, k: nat)
    requires cfg.Valid()
    ensures cfg.Edge(k + 1) == cfg.gamma * cfg.Edge(k)
  {
    var g, p := cfg.gamma, Pow(cfg.gamma, k);
    assert Pow(g, k + 1) == g * p;
    var e := cfg.minValue * (g * p);
    assert e == g * (cfg.minValue * p);
  }

  /** Every value has one bucket. */
  lemma BucketUnique(cfg: Config, v: real, k: nat)
    requires cfg.Valid() && cfg.IsBucket(v, k)
    ensures k == cfg.Bucket(v)
  {
    var b := cfg.Bucket(v);
    if k < b {
      EdgeMonotone(cfg, k, b - 1);
    } else if b < k {
      EdgeMonotone(cfg, b, k - 1);
    }
  }

  lemma BucketMonotone(cfg: Config, v: real, w: real)
    requires cfg.Valid()
    ensures v <= w ==> cfg.Bucket(v) <= cfg.Bucket(w)
  {
    var j, k := cfg.Bucket(v), cfg.Bucket(w);
    if v <= w && k < j {
      EdgeMonotone(cfg, k, j - 1);
    }
  }

  lemma LowestBucket(cfg: Config, v: real)
    requires cfg.Valid() && cfg.minValue <= v && cfg.Bucket(v) == 0
    ensures v == cfg.Edge(0) == cfg.minValue
  {
  }

  // ------------------------------------------------------------------
  // The reference meaning of a sketch: the histogram of what was added
  // ------------------------------------------------------------------

  /** Every accepted value counted in its own bucket, with no capacity. */
  ghost function HistOf(cfg: Config, vals: seq<real>): (h: Hist)
    requires cfg.Valid()
    ensures IsHist(h)
  {
    if vals == [] then map[] else
      var rest := HistOf(cfg, vals[..|vals| - 1]);
      var v := vals[|vals| - 1];
      if v < 0.0 then rest else Plus(rest, Single(cfg.Bucket(cfg.Clamp(v))))
  }

  /** How many accepted values count as at most `x`. */
  ghost function CountAtMost(cfg: Config, vals: seq<real>, x: real): nat
    requires cfg.Valid()
  {
    if vals == [] then 0 else
      var v := vals[|vals| - 1];
      CountAtMost(cfg, vals[..|vals| - 1], x) + if v >= 0.0 && cfg.Clamp(v) <= x then 1 else 0
  }

  ghost function CountBelow(cfg: Config, vals: seq<real>, x: real): nat
    requires cfg.Valid()
  {
    if vals == [] then 0 else
      var v := vals[|vals| - 1];
      CountBelow(cfg, vals[..|vals| - 1], x) + if v >= 0.0 && cfg.Clamp(v) < x then 1 else 0
  }

  ghost function CountAccepted(vals: seq<real>): nat {
    if vals == [] then 0 else
      CountAccepted(vals[..|vals| - 1]) + if vals[|vals| - 1] >= 0.0 then 1 else 0
  }

  /** `v` is the value of rank `r` among the accepted values. */
  ghost predicate HasRank(cfg: Config, vals: seq<real>, r: nat, v: real)
    requires cfg.Valid()
  {
    cfg.minValue <= v && CountBelow(cfg, vals, v) < r <= CountAtMost(cfg, vals, v)
  }

  /** Counts below and up to a value are ordered as the values are. */
  lemma {:induction false} CountsOrdered(cfg: Config, vals: seq<real>, u: real, w: real)
    requires cfg.Valid() && u <= w
    ensures CountBelow(cfg, vals, u) <= CountAtMost(cfg, vals, u) <= CountAtMost(cfg, vals, w)
    ensures u < w ==> CountAtMost(cfg, vals, u) <= CountBelow(cfg, vals, w)
  {
    if vals != [] {
      CountsOrdered(cfg, vals[..|vals| - 1], u, w);
    }
  }

  lemma {:induction false} AllAtMostMaximum(cfg: Config, vals: seq<real>)
    requires cfg.Valid()
    ensures CountAtMost(cfg, vals, cfg.maxValue) == CountAccepted(vals)
  {
    if vals != [] {
      AllAtMostMaximum(cfg, vals[..|vals| - 1]);
    }
  }

  /** The largest accepted value below `w`. */
  lemma {:induction false} NextBelow(cfg: Config, vals: seq<real>, w: real) returns (u: real)
    requires cfg.Valid() && CountBelow(cfg, vals, w) > 0
    ensures cfg.minValue <= u < w
    ensures CountBelow(cfg, vals, u) < CountAtMost(cfg, vals, u) == CountBelow(cfg, vals, w)
  {
    var n := |vals| - 1;
    var x := cfg.Clamp(vals[n]);
    var counts := vals[n] >= 0.0 && x < w;
    if CountBelow(cfg, vals[..n], w) == 0 {
      u := x;
      CountsOrdered(cfg, vals[..n], u, w);
    } else {
      u := NextBelow(cfg, vals[..n], w);
      if counts && x > u {
        CountsOrdered(cfg, vals[..n], u, x);
        CountsOrdered(cfg, vals[..n], x, w);
        u := x;
      }
    }
  }

  /** Every rank from one to the number of accepted values is the rank of some value. */
  lemma RankHasValue(cfg: Config, vals: seq<real>, r: nat) returns (v: real)
    requires cfg.Valid() && 1 <= r <= CountAccepted(vals)
    ensures HasRank(cfg, vals, r, v) && v <= cfg.maxValue
  {
    v := cfg.maxValue;
    AllAtMostMaximum(cfg, vals);
    while CountBelow(cfg, vals, v) >= r
      invariant cfg.minValue <= v <= cfg.maxValue && r <= CountAtMost(cfg, vals, v)
      decreases CountBelow(cfg, vals, v)
    {
      v := NextBelow(cfg, vals, v);
    }
  }

  lemma {:induction false} TotalOfHistOf(cfg: Config, vals: seq<real>)
    requires cfg.Valid()
    ensures Total(HistOf(cfg, vals)) == CountAccepted(vals)
  {
    if vals == [] {
      TotalZero(map[]);
    } else {
      var n := |vals| - 1;
      TotalOfHistOf(cfg, vals[..n]);
      if vals[n] >= 0.0 {
        var k := cfg.Bucket(cfg.Clamp(vals[n]));
        TotalPlus(HistOf(cfg, vals[..n]), Single(k));
        TotalSingle(k);
      }
    }
  }

  lemma CumPlusSingle(h: Hist, j: nat, k: int)
    ensures Cum(Plus(h, Single(j)), k) == Cum(h, k) + if j <= k then 1 else 0
  {
    CumPlus(h, Single(j), k);
    CumOfSingle(j, k);
  }

  lemma {:induction false} RankCounts(cfg: Config, vals: seq<real>, v: real)
    requires cfg.Valid()
    ensures CountAtMost(cfg, vals, v) <= Cum(HistOf(cfg, vals), cfg.Bucket(v))
    ensures Cum(HistOf(cfg, vals), cfg.Bucket(v) - 1) <= CountBelow(cfg, vals, v)
  {
    var k: int := cfg.Bucket(v);
    if vals == [] {
      CumZero(k);
      CumZero(k - 1);
    } else {
      var n := |vals| - 1;
      RankCounts(cfg, vals[..n], v);
      if vals[n] >= 0.0 {
        var c := cfg.Clamp(vals[n]);
        CumPlusSingle(HistOf(cfg, vals[..n]), cfg.Bucket(c), k);
        CumPlusSingle(HistOf(cfg, vals[..n]), cfg.Bucket(c), k - 1);
        BucketMonotone(cfg, c, v);
        BucketMonotone(cfg, v, c);
      }
    }
  }

  /** The bucket of the rank-`r` value is where the uncollapsed histogram reaches `r`. */
  lemma RankBucketOfValue(cfg: Config, vals: seq<real>, r: nat, v: real)
    requires cfg.Valid() && HasRank(cfg, vals, r, v)
    ensures IsRankBucket(HistOf(cfg, vals), r, cfg.Bucket(v))
  {
    RankCounts(cfg, vals, v);
  }

  /** The rank a query asks for. */
  function Rank(q: real, n: nat): (r: nat)
    requires 0.0 <= q <= 1.0 && n > 0
    ensures 1 <= r <= n
  {
    ProductWeaklyMonotone(q, 1.0, n as real);
    AtLeastOne(Ceil(q * n as real))
  }

  /** It is the least positive rank that reaches the share `q` of the `n` values. */
  lemma RankIs(q: real, n: nat)
    requires 0.0 <= q <= 1.0 && n > 0
    ensures Rank(q, n) as real >= q * n as real
    ensures Rank(q, n) == 1 || (Rank(q, n) - 1) as real < q * n as real
  {
  }

  function AtLeastOne(r: int): nat {
    if r <= 0 then 1 else r
  }

  lemma CeilMonotone(x: real, y: real)
    requires x <= y
    ensures Ceil(x) <= Ceil(y)
  {
  }

  lemma RankMonotoneInQ(q: real, q': real, n: nat)
    requires 0.0 <= q <= q' <= 1.0 && n > 0
    ensures Rank(q, n) <= Rank(q', n)
  {
    ProductWeaklyMonotone(q, q', n as real);
    CeilMonotone(q * n as real, q' * n as real);
  }

  /** What a query on a sketch with these buckets returns. */
  ghost predicate Answers(cfg: Config, buckets: Hist, n: nat, q: real, e: real)
    requires cfg.Valid() && 0.0 <= q <= 1.0
  {
    if n == 0 then e == 0.0 else
      exists c: nat :: IsRankBucket(buckets, Rank(q, n), c) && e == cfg.Edge(c)
  }

  /** The one-sided guarantee: the answer for the rank-r value `v` is never below `v`, and it is
      below gamma * v unless the bucket of `v` was folded into a higher one. It equals `v`, the
      documented lower bound, only when `v` sits on a bucket edge. */
  lemma QuantileGuarantee(cfg: Config, vals: seq<real>, q: real, v: real, e: real)
    requires cfg.Valid() && 0.0 <= q <= 1.0
    requires CountAccepted(vals) > 0
    requires HasRank(cfg, vals, Rank(q, CountAccepted(vals)), v)
    requires Answers(cfg, Canon(HistOf(cfg, vals), cfg.maxBuckets), CountAccepted(vals), q, e)
    ensures v <= e
    ensures cfg.Bucket(v) >= Floor(HistOf(cfg, vals).Keys, cfg.maxBuckets) ==>
              e == cfg.Edge(cfg.Bucket(v)) && e < cfg.gamma * v
    ensures cfg.Bucket(v) < Floor(HistOf(cfg, vals).Keys, cfg.maxBuckets) ==>
              e == cfg.Edge(Floor(HistOf(cfg, vals).Keys, cfg.maxBuckets))
  {
    var h, r, k := HistOf(cfg, vals), Rank(q, CountAccepted(vals)), cfg.Bucket(v);
    var c: nat :| IsRankBucket(Canon(h, cfg.maxBuckets), r, c) && e == cfg.Edge(c);
    RankBucketOfValue(cfg, vals, r, v);
    RankOfCanon(h, cfg.maxBuckets, r, k, c);
    EdgeMonotone(cfg, k, c);
    if c == k {
      AnswerBelowGamma(cfg, v);
    }
  }

  lemma AnswerBelowGamma(cfg: Config, v: real)
    requires cfg.Valid() && cfg.minValue <= v
    ensures v <= cfg.Edge(cfg.Bucket(v)) < cfg.gamma * v
  {
    var k := cfg.Bucket(v);
    if k > 0 {
      EdgeSucc(cfg, k - 1);
      ProductMonotone(cfg.Edge(k - 1), v, cfg.gamma);
    } else {
      LowestBucket(cfg, v);
      ProductMonotone(1.0, cfg.gamma, v);
    }
  }

  /** Scaling the answer by 1 - alpha turns the one-sided factor into the documented relative error. */
  lemma ScaledAnswerWithinAlpha(cfg: Config, v: real, e: real)
    requires cfg.Valid() && 0.0 < v <= e < cfg.gamma * v
    ensures cfg.LeastAllowed(v) <= (1.0 - cfg.alpha) * e < cfg.MostAllowed(v)
  {
    var a := cfg.alpha;
    ProductWeaklyMonotone(v, e, 1.0 - a);
    ProductMonotone(e, cfg.gamma * v, 1.0 - a);
    var w := (cfg.gamma * v) * (1.0 - a);
    assert w == (cfg.gamma * (1.0 - a)) * v;
  }

  /** Answers never fall when q grows. */
  lemma QuantileMonotone(cfg: Config, buckets: Hist, n: nat, q: real, e: real, q': real, e': real)
    requires cfg.Valid() && IsHist(buckets) && 0.0 <= q <= q' <= 1.0
    requires Answers(cfg, buckets, n, q, e) && Answers(cfg, buckets, n, q', e')
    ensures e <= e'
  {
    if n > 0 {
      var c: nat :| IsRankBucket(buckets, Rank(q, n), c) && e == cfg.Edge(c);
      var c': nat :| IsRankBucket(buckets, Rank(q', n), c') && e' == cfg.Edge(c');
      RankMonotoneInQ(q, q', n);
      RankMonotone(buckets, Rank(q, n), c, Rank(q', n), c');
      EdgeMonotone(cfg, c, c');
    }
  }

  lemma OneValue(cfg: Config, x: real)
    requires cfg.Valid() && 0.0 <= x && cfg.Clamp(x) == x
    ensures CountAccepted([x]) == CountAtMost(cfg, [x], x) == 1 && CountBelow(cfg, [x], x) == 0
    ensures HistOf(cfg, [x]) == Single(cfg.Bucket(x))
  {
    assert [x][..0] == [];
    PlusEmpty(Single(cfg.Bucket(x)));
  }

  lemma RankInSingle(k: nat, m: nat, c: nat)
    requires m > 0
    ensures IsRankBucket(Canon(Single(k), m), 1, c) <==> c == k
  {
    CanonOfSmall(Single(k), m);
    CumOfSingle(k, c);
    CumOfSingle(k, c - 1);
  }

  /** A sketch that holds one in-range value `x` answers the upper edge of its bucket, so the answer
      is the documented lower bound exactly when `x` sits on that edge. */
  lemma SingleValueAnswer(cfg: Config, x: real, q: real, e: real)
    requires cfg.Valid() && cfg.minValue <= x <= cfg.maxValue && 0.0 <= q <= 1.0
    ensures Answers(cfg, Canon(HistOf(cfg, [x]), cfg.maxBuckets), 1, q, e) <==> e == cfg.Edge(cfg.Bucket(x))
    ensures e == cfg.Edge(cfg.Bucket(x)) ==> (e <= x <==> e == x)
  {
    OneValue(cfg, x);
    var one := Rank(q, 1);
    assert one == 1;
    forall c: nat ensures IsRankBucket(Canon(Single(cfg.Bucket(x)), cfg.maxBuckets), 1, c) <==> c == cfg.Bucket(x) {
      RankInSingle(cfg.Bucket(x), cfg.maxBuckets, c);
    }
  }

  /** The edge of a value's own bucket is within alpha of it exactly when the value is in the upper part of
      the bucket, at or above the edge below divided by 1 - alpha. */
  lemma EdgeErrorExactly(cfg: Config, v: real)
    requires cfg.Valid() && cfg.minValue <= v
    ensures var k := cfg.Bucket(v);
            cfg.Edge(k) <= cfg.MostAllowed(v) <==> (k == 0 || cfg.Edge(k - 1) <= cfg.LeastAllowed(v))
  {
    var k := cfg.Bucket(v);
    if k == 0 {
      LowestBucket(cfg, v);
      UpperSideHolds(cfg, v);
    } else {
      EdgeSucc(cfg, k - 1);
      ErrorArithmetic(cfg.alpha, cfg.gamma, cfg.Edge(k - 1), v);
    }
  }

  /** When the documented relative error holds for the answer `e` to a query whose rank-r value is `v`:
      exactly when the bucket of `v` was not folded and `v` is in the upper part of it. */
  lemma DocumentedErrorExactly(cfg: Config, vals: seq<real>, q: real, v: real, e: real)
    requires cfg.Valid() && 0.0 <= q <= 1.0
    requires CountAccepted(vals) > 0
    requires HasRank(cfg, vals, Rank(q, CountAccepted(vals)), v)
    requires Answers(cfg, Canon(HistOf(cfg, vals), cfg.maxBuckets), CountAccepted(vals), q, e)
    ensures var k := cfg.Bucket(v);
            cfg.LeastAllowed(v) <= e <= cfg.MostAllowed(v) <==>
              && k >= Floor(HistOf(cfg, vals).Keys, cfg.maxBuckets)
              && (k == 0 || cfg.Edge(k - 1) <= cfg.LeastAllowed(v))
  {
    var k, f := cfg.Bucket(v), Floor(HistOf(cfg, vals).Keys, cfg.maxBuckets);
    QuantileGuarantee(cfg, vals, q, v, e);
    LowerSideHolds(cfg, v);
    hide *;
    if k >= f {
      EdgeErrorExactly(cfg, v);
    } else {
      FoldedIsFar(cfg, v, f);
    }
  }

  lemma UpperSideHolds(cfg: Config, v: real)
    requires cfg.Valid() && cfg.minValue <= v
    ensures v <= cfg.MostAllowed(v)
  {
    ProductMonotone(1.0, 1.0 + cfg.alpha, v);
  }

  lemma LowerSideHolds(cfg: Config, v: real)
    requires cfg.Valid() && cfg.minValue <= v
    ensures cfg.LeastAllowed(v) <= v
  {
    ProductMonotone(1.0 - cfg.alpha, 1.0, v);
  }

  /** A value folded into a higher bucket is answered at least gamma times too high. */
  lemma FoldedIsFar(cfg: Config, v: real, f: nat)
    requires cfg.Valid() && cfg.minValue <= v && cfg.Bucket(v) < f
    ensures cfg.Edge(f) > cfg.MostAllowed(v)
  {
    var k := cfg.Bucket(v);
    GammaBeyondAlpha(cfg, v);
    NextEdge(cfg, v);
    hide *;
    EdgeMonotone(cfg, k + 1, f);
  }

  lemma NextEdge(cfg: Config, v: real)
    requires cfg.Valid() && cfg.minValue <= v
    ensures v * cfg.gamma <= cfg.Edge(cfg.Bucket(v) + 1)
  {
    var edge := cfg.Edge(cfg.Bucket(v));
    assert v <= edge;
    EdgeSucc(cfg, cfg.Bucket(v));
    hide *;
    ProductWeaklyMonotone(v, edge, cfg.gamma);
  }

  lemma GammaBeyondAlpha(cfg: Config, v: real)
    requires cfg.Valid() && cfg.minValue <= v
    ensures v * cfg.gamma > cfg.MostAllowed(v)
  {
    var a, g := cfg.alpha, cfg.gamma;
    ProductMonotone(1.0 - a, 1.0, g);
    ProductMonotone(1.0 + a, g, v);
  }

  lemma ErrorArithmetic(a: real, g: real, below: real, v: real)
    requires 0.0 < a < 1.0 && g * (1.0 - a) == 1.0 + a
    ensures g * below <= (1.0 + a) * v <==> below <= (1.0 - a) * v
  {
    var w, z := (1.0 - a) * v, (1.0 + a) * v;
    var x, y := w - below, z - g * below;
    var d, e := x * (1.0 + a), y * (1.0 - a);
    assert e == d by {
      var p := (g * (1.0 - a)) * below;
      assert e == z * (1.0 - a) - p;
      assert d == w * (1.0 + a) - below * (1.0 + a);
      assert z * (1.0 - a) == w * (1.0 + a);
    }
    SignOfProduct(x, 1.0 + a);
    SignOfProduct(y, 1.0 - a);
  }

  lemma SignOfProduct(x: real, c: real)
    requires c > 0.0
    ensures x * c >= 0.0 <==> x >= 0.0
  {
    if x >= 0.0 {
      ProductNonNegative(x, c);
    } else {
      ProductPositive(-x, c);
      var n := (-x) * c;
      assert n == -(x * c);
    }
  }

  /** It fails for alpha = 1/2: a sketch over [1, 100] that holds only 3/2 answers 3. */
  lemma DocumentedErrorFails() returns (cfg: Config, e: real)
    ensures cfg.Valid() && cfg.alpha == 0.5 && cfg.minValue <= 1.5 <= cfg.maxValue
    ensures Answers(cfg, Canon(HistOf(cfg, [1.5]), cfg.maxBuckets), 1, 0.5, e)
    ensures e > cfg.MostAllowed(1.5)
  {
    cfg, e := Config(0.5, 3.0, 2, 1.0, 100.0), 3.0;
    AnswerIsThree(cfg, 1.5);
  }

  lemma AnswerIsThree(cfg: Config, x: real)
    requires cfg.Valid() && cfg.gamma == 3.0 && cfg.minValue == 1.0 && 1.0 < x <= 3.0 <= cfg.maxValue
    ensures Answers(cfg, Canon(HistOf(cfg, [x]), cfg.maxBuckets), 1, 0.5, 3.0)
  {
    assert cfg.Edge(0) == 1.0;
    EdgeSucc(cfg, 0);
    BucketUnique(cfg, x, 1);
    SingleValueAnswer(cfg, x, 0.5, 3.0);
  }

  // ------------------------------------------------------------------
  // Order and grouping do not matter
  // ------------------------------------------------------------------

  lemma HistSnoc(cfg: Config, vals: seq<real>, v: real)
    requires cfg.Valid()
    ensures HistOf(cfg, vals + [v]) ==
            if v < 0.0 then HistOf(cfg, vals) else Plus(HistOf(cfg, vals), Single(cfg.Bucket(cfg.Clamp(v))))
  {
    assert (vals + [v])[..|vals|] == vals;
  }

  lemma {:induction false} HistOfConcat(cfg: Config, a: seq<real>, b: seq<real>)
    requires cfg.Valid()
    ensures HistOf(cfg, a + b) == Plus(HistOf(cfg, a), HistOf(cfg, b))
  {
    if b == [] {
      assert a + b == a;
      PlusEmpty(HistOf(cfg, a));
    } else {
      var n := |b| - 1;
      HistOfConcat(cfg, a, b[..n]);
      assert a + b == a + b[..n] + [b[n]];
      HistSnoc(cfg, a + b[..n], b[n]);
      if b[n] >= 0.0 {
        PlusAssociates(HistOf(cfg, a), HistOf(cfg, b[..n]), Single(cfg.Bucket(cfg.Clamp(b[n]))));
      }
    }
  }

  /** The values may be inserted in any order. */
  lemma {:induction false} InsertionOrderIrrelevant(cfg: Config, a: seq<real>, b: seq<real>)
    requires cfg.Valid() && multiset(a) == multiset(b)
    ensures HistOf(cfg, a) == HistOf(cfg, b)
    decreases |a|
  {
    if a == [] {
      assert |multiset(b)| == |b|;
    } else {
      var n := |a| - 1;
      var v := a[n];
      assert a == a[..n] + [v];
      assert v in multiset(b);
      var j :| 0 <= j < |b| && b[j] == v;
      var l, r := b[..j], b[j + 1..];
      assert b == l + [v] + r;
      WithoutOne(a[..n], l, r, v, multiset(a));
      InsertionOrderIrrelevant(cfg, a[..n], l + r);
      hide HistOf, Config.Bucket, Config.Clamp;
      MoveToEnd(cfg, l, r, v);
      HistSnoc(cfg, a[..n], v);
    }
  }

  lemma MoveToEnd(cfg: Config, l: seq<real>, r: seq<real>, v: real)
    requires cfg.Valid()
    ensures HistOf(cfg, l + [v] + r) == HistOf(cfg, l + r + [v])
  {
    var hl, hv, hr := HistOf(cfg, l), HistOf(cfg, [v]), HistOf(cfg, r);
    hide HistOf;
    HistOfConcat(cfg, l + [v], r);
    HistOfConcat(cfg, l, [v]);
    HistOfConcat(cfg, l + r, [v]);
    HistOfConcat(cfg, l, r);
    PlusAssociates(hl, hv, hr);
    PlusAssociates(hl, hr, hv);
    PlusCommutes(hv, hr);
  }

  /** Merging is exact: two collapsed sketches of `a` and `b`, merged and collapsed again, hold the same
      buckets as one sketch that was given any arrangement of all the values. */
  lemma MergeIsExact(cfg: Config, a: seq<real>, b: seq<real>, all: seq<real>)
    requires cfg.Valid() && multiset(all) == multiset(a) + multiset(b)
    ensures Canon(Plus(Canon(HistOf(cfg, a), cfg.maxBuckets), Canon(HistOf(cfg, b), cfg.maxBuckets)), cfg.maxBuckets) ==
            Canon(HistOf(cfg, all), cfg.maxBuckets)
  {
    CanonPlus(HistOf(cfg, a), HistOf(cfg, b), cfg.maxBuckets);
    HistOfConcat(cfg, a, b);
    InsertionOrderIrrelevant(cfg, all, a + b);
  }
}
