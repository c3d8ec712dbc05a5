/** The quantile sketch itself: a dictionary of buckets updated in place (local_ddsketch/sketch.py). */
module Sketch {
  import opened Histogram
  import opened Outcomes
  import opened Sets
  import opened SketchSpec

  /** `sorted(s)[0]` */
  method LeastIndex(s: set<int>) returns (m: int)
    requires s != {}
    ensures m in s && forall x :: x in s ==> m <= x
  {
    LeastIndexExists(s);
    m :| m in s && forall x :: x in s ==> m <= x;
  }

  lemma {:induction false} LeastIndexExists(s: set<int>)
    requires s != {}
    ensures exists m :: m in s && forall x :: x in s ==> m <= x
  {
    var y := Pick(s);
    if s != {y} {
      LeastIndexExists(s - {y});
      var m :| m in s - {y} && forall x :: x in s - {y} ==> m <= x;
      assert forall x :: x in s ==> x == y || x in s - {y};
      var l := if m <= y then m else y;
      assert l in s && forall x :: x in s ==> l <= x;
    } else {
      assert y in s && forall x :: x in s ==> y <= x;
    }
  }

  class DDSketch {
    const cfg: Config
    var buckets: Hist
    var totalCount: nat
    /** Everything ever counted, as if there were no capacity. */
    ghost var hist: Hist

    /** The stored buckets are the canonical form of everything counted. */
    ghost predicate Valid()
      reads this
    {
      && cfg.Valid()
      && Represents(cfg.maxBuckets, hist, buckets, totalCount)
    }

    constructor (cfg: Config)
      requires cfg.Valid()
      ensures Valid() && this.cfg == cfg && hist == buckets == map[] && totalCount == 0
    {
      this.cfg := cfg;
      buckets, totalCount, hist := map[], 0, map[];
      new;
      RepresentsEmpty(cfg.maxBuckets);
    }

    /** `__init__` with its checks. */
    static method Create(alpha: real, maxBuckets: int, minValue: real, maxValue: real) returns (r: Result<DDSketch>)
      ensures r.Ok? <==> Config.Accepts(alpha, maxBuckets, minValue, maxValue)
      ensures r.Ok? ==>
                && fresh(r.value) && r.value.Valid() && r.value.hist == map[]
                && r.value.cfg.(gamma := 0.0) == Config(alpha, 0.0, maxBuckets, minValue, maxValue)
    {
      if !Config.Accepts(alpha, maxBuckets, minValue, maxValue) {
        return Raised;
      }
      GammaAboveOne(alpha);
      var gamma := (1.0 + alpha) / (1.0 - alpha);
      var sketch := new DDSketch(Config(alpha, gamma, maxBuckets, minValue, maxValue));
      r := Ok(sketch);
    }

    method Add(value: real)
      requires Valid()
      modifies this
      ensures Valid()
      ensures hist == if value < 0.0 then old(hist) else Plus(old(hist), Single(cfg.Bucket(cfg.Clamp(value))))
      ensures value < 0.0 ==> buckets == old(buckets) && totalCount == old(totalCount)
    {
      if value < 0.0 {
        return;
      }
      var capped := cfg.Clamp(value);
      var idx := BucketIndex(cfg, capped);
      CountOne(idx);
    }

    /** The update half of `add`: one more value in bucket `idx`. */
    method CountOne(idx: nat)
      requires Valid()
      modifies this
      ensures Valid()
      ensures hist == Plus(old(hist), Single(idx))
    {
      hide Represents, Canon;
      RepresentsOneMore(cfg.maxBuckets, hist, buckets, totalCount, idx);
      buckets := buckets[idx := (if idx in buckets then buckets[idx] else 0) + 1];
      totalCount := totalCount + 1;
      MaybeCollapse();
      hist := Plus(hist, Single(idx));
    }

    method AddMany(values: seq<real>)
      requires Valid()
      modifies this
      ensures Valid()
      ensures hist == Plus(old(hist), HistOf(cfg, values))
    {
      PlusEmpty(hist);
      for i := 0 to |values|
        invariant Valid()
        invariant hist == Plus(old(hist), HistOf(cfg, values[..i]))
      {
        HistOfSnoc(cfg, values, i);
        PlusAssociates(old(hist), HistOf(cfg, values[..i]), Single(cfg.Bucket(cfg.Clamp(values[i]))));
        Add(values[i]);
      }
      assert values[..|values|] == values;
    }

    /** Collapsing the two lowest buckets until the capacity is met reaches the canonical form. */
    method MaybeCollapse()
      requires cfg.Valid() && IsHist(buckets)
      modifies this`buckets
      ensures buckets == Canon(old(buckets), cfg.maxBuckets)
    {
      hide Canon;
      while |buckets| > cfg.maxBuckets
        invariant IsHist(buckets)
        invariant Canon(buckets, cfg.maxBuckets) == Canon(old(buckets), cfg.maxBuckets)
        decreases |buckets|
      {
        var lo := LeastIndex(buckets.Keys);
        assert |buckets.Keys - {lo}| == |buckets| - 1;
        var hi := LeastIndex(buckets.Keys - {lo});
        assert forall k :: k in buckets ==> k == lo || k in buckets.Keys - {lo};
        FoldLowest(buckets, cfg.maxBuckets, lo, hi);
        assert (buckets[hi := buckets[hi] + buckets[lo]] - {lo}).Keys == buckets.Keys - {lo};
        buckets := buckets[hi := buckets[hi] + buckets[lo]];
        buckets := buckets - {lo};
      }
      CanonOfSmall(buckets, cfg.maxBuckets);
    }

    /** Answers by walking the buckets upwards; the fallback after the loop is never reached. */
    method Quantile(q: real) returns (r: Result<real>)
      requires Valid()
      ensures r.Ok? <==> 0.0 <= q <= 1.0
      ensures r.Ok? && totalCount == 0 ==> r.value == 0.0
      ensures r.Ok? ==> Answers(cfg, buckets, totalCount, q, r.value)
    {
      if !(0.0 <= q <= 1.0) {
        return Raised;
      }
      if totalCount == 0 {
        return Ok(0.0);
      }
      CanonMeaning(hist, cfg.maxBuckets);
      CanonIsHist(hist, cfg.maxBuckets);
      hide Canon, Config.Valid;
      var idx := RankBucket(Rank(q, totalCount));
      return Ok(cfg.Edge(idx));
    }

    /** The loop of `quantile`: the running count reaches the rank before the buckets run out. */
    method RankBucket(rank: nat) returns (idx: nat)
      requires IsHist(buckets) && 0 < rank <= Total(buckets)
      ensures IsRankBucket(buckets, rank, idx)
    {
      var cumulative := 0;
      var rest := buckets.Keys;
      ghost var top := -1;
      while rest != {}
        invariant rest <= buckets.Keys && top >= -1
        invariant forall k :: k in buckets ==> (k in rest <==> k > top)
        invariant cumulative == Cum(buckets, top) < rank
        decreases rest
      {
        var k := LeastIndex(rest);
        CumGap(buckets, top, k - 1);
        cumulative := cumulative + buckets[k];
        if cumulative >= rank {
          return k;
        }
        rest, top := rest - {k}, k;
      }
      assert Bounds(buckets, top);
      assert false;
    }

    /** The counter loop shared by `merge` and `merge_into`. */
    method AddCounts(items: Hist)
      modifies this`buckets
      ensures buckets == Plus(old(buckets), items)
    {
      var rest := items.Keys;
      while rest != {}
        invariant rest <= items.Keys
        invariant buckets == Plus(old(buckets), items - rest)
        decreases rest
      {
        ghost var some := Pick(rest);
        var idx :| idx in rest;
        ghost var before := buckets;
        buckets := buckets[idx := (if idx in buckets then buckets[idx] else 0) + items[idx]];
        assert (items - (rest - {idx})).Keys == (items - rest).Keys + {idx};
        rest := rest - {idx};
      }
      assert items - {} == items;
    }

    predicate Compatible(other: DDSketch) {
      cfg == other.cfg
    }

    /** `merge_into`: the counted histograms add up, whatever was collapsed before. */
    method MergeInto(other: DDSketch) returns (r: Result<()>)
      requires Valid() && other.Valid()
      modifies this
      ensures Valid()
      ensures r.Ok? <==> Compatible(other)
      ensures hist == if r.Ok? then Plus(old(hist), old(other.hist)) else old(hist)
      ensures r.Raised? ==> buckets == old(buckets) && totalCount == old(totalCount)
    {
      if Compatible(other) {
        Absorb(other);
        r := Ok(());
      } else {
        r := Raised;
      }
    }

    method Absorb(other: DDSketch)
      requires Valid() && other.Valid() && Compatible(other)
      modifies this
      ensures Valid() && hist == Plus(old(hist), old(other.hist))
    {
      hide Represents, Canon;
      RepresentsPlus(cfg.maxBuckets, hist, buckets, totalCount, other.hist, other.buckets, other.totalCount);
      ghost var sum := Plus(hist, other.hist);
      totalCount := totalCount + other.totalCount;
      AddCounts(other.buckets);
      MaybeCollapse();
      hist := sum;
    }

    /** `merge`: a new sketch, both arguments untouched. */
    method Merge(other: DDSketch) returns (r: Result<DDSketch>)
      requires Valid() && other.Valid()
      ensures r.Ok? <==> Compatible(other)
      ensures r.Ok? ==> fresh(r.value) && r.value.Valid() && r.value.cfg == cfg
      ensures r.Ok? ==> r.value.hist == Plus(hist, other.hist)
    {
      if Compatible(other) {
        var merged := MergeCompatible(other);
        r := Ok(merged);
      } else {
        r := Raised;
      }
    }

    method MergeCompatible(other: DDSketch) returns (merged: DDSketch)
      requires Valid() && other.Valid() && Compatible(other)
      ensures fresh(merged) && merged.Valid() && merged.cfg == cfg
      ensures merged.hist == Plus(hist, other.hist)
    {
      hide Represents, Canon;
      RepresentsPlus(cfg.maxBuckets, hist, buckets, totalCount, other.hist, other.buckets, other.totalCount);
      PlusEmpty(buckets);
      merged := new DDSketch(cfg);
      merged.totalCount := totalCount + other.totalCount;
      merged.AddCounts(buckets);
      merged.AddCounts(other.buckets);
      merged.MaybeCollapse();
      merged.hist := Plus(hist, other.hist);
    }

    /** `copy` of the wrapper: an empty sketch into which this one is merged. */
    method Copy() returns (c: DDSketch)
      requires Valid()
      ensures fresh(c) && c.Valid() && c.cfg == cfg
      ensures c.hist == hist && c.buckets == buckets && c.totalCount == totalCount
    {
      hide Plus, Represents, Config.Valid;
      HasRoom(cfg);
      c := new DDSketch(cfg);
      PlusEmpty(hist);
      var _ := c.MergeInto(this);
      RepresentsUnique(cfg.maxBuckets, hist, c.buckets, c.totalCount, buckets, totalCount);
    }
  }

  lemma HasRoom(cfg: Config)
    requires cfg.Valid()
    ensures cfg.maxBuckets > 0
  {
  }

  lemma HistOfSnoc(cfg: Config, values: seq<real>, i: nat)
    requires cfg.Valid() && i < |values|
    ensures HistOf(cfg, values[..i + 1]) ==
            if values[i] < 0.0 then HistOf(cfg, values[..i])
            else Plus(HistOf(cfg, values[..i]), Single(cfg.Bucket(cfg.Clamp(values[i]))))
  {
    assert values[..i + 1][..i] == values[..i];
  }

  /** Buckets that do not exist add nothing to the running count. */
  lemma {:induction false} CumGap(h: Hist, j: int, k: int)
    requires j <= k && forall i :: i in h ==> i <= j || k < i
    ensures Cum(h, j) == Cum(h, k)
    decreases k - j
  {
    if j < k {
      CumGap(h, j, k - 1);
    }
  }

  /** One round of the collapse loop is a fold at the second lowest index. */
  lemma FoldLowest(h: Hist, m: nat, lo: int, hi: int)
    requires m > 0 && IsHist(h) && |h| > m
    requires lo in h && hi in h && lo < hi
    requires forall k :: k in h ==> k == lo || hi <= k
    ensures var r := h[hi := h[hi] + h[lo]] - {lo};
            IsHist(r) && Canon(r, m) == Canon(h, m)
  {
    var r := h[hi := h[hi] + h[lo]] - {lo};
    CumGap(h, -1, lo - 1);
    CumGap(h, lo, hi - 1);
    assert r == FoldAt(h, hi);
    var f := Floor(h.Keys, m);
    assert hi <= f by {
      if f < hi {
        assert h.Keys - {lo} <= Above(h.Keys, f);
        CardinalityMonotone(h.Keys - {lo}, Above(h.Keys, f));
      }
    }
    CanonAfterFold(h, hi, m);
  }
}
