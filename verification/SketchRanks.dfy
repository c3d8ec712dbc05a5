/** What a quantile query answers in terms of the raw values that were added, with no clamping and no rank function. */
module SketchRanks {
  import opened Histogram
  import opened Reals
  import opened SketchSpec

  // ------------------------------------------------------------------
  // Raw values
  // ------------------------------------------------------------------

  /** How many accepted values are at most `x`. */
  ghost function AtMost(vals: seq<real>, x: real): nat {
    if vals == [] then 0 else
      var v := vals[|vals| - 1];
      AtMost(vals[..|vals| - 1], x) + if 0.0 <= v <= x then 1 else 0
  }

  /** How many accepted values are below `x`. */
  ghost function Below(vals: seq<real>, x: real): nat {
    if vals == [] then 0 else
      var v := vals[|vals| - 1];
      Below(vals[..|vals| - 1], x) + if 0.0 <= v < x then 1 else 0
  }

  /** `u` is a q-quantile of the accepted values: at least a share q of them, and at least one, is at most `u`, and
      less than that share, or none, is below it. */
  ghost predicate IsQuantile(vals: seq<real>, q: real, u: real) {
    var n := CountAccepted(vals);
    && AtMost(vals, u) >= 1 && AtMost(vals, u) as real >= q * n as real
    && (Below(vals, u) == 0 || (Below(vals, u) as real) < q * n as real)
  }

  // ------------------------------------------------------------------
  // From raw values to clamped ones
  // ------------------------------------------------------------------

  lemma ClampMonotone(cfg: Config, v: real, w: real)
    requires cfg.Valid() && v <= w
    ensures cfg.Clamp(v) <= cfg.Clamp(w)
  {
  }

  lemma {:induction false} ClampedCounts(cfg: Config, vals: seq<real>, u: real)
    requires cfg.Valid()
    ensures AtMost(vals, u) <= CountAtMost(cfg, vals, cfg.Clamp(u))
    ensures CountBelow(cfg, vals, cfg.Clamp(u)) <= Below(vals, u)
  {
    if vals != [] {
      var v := vals[|vals| - 1];
      ClampedCounts(cfg, vals[..|vals| - 1], u);
      if v <= u {
        ClampMonotone(cfg, v, u);
      } else {
        ClampMonotone(cfg, u, v);
      }
      hide Config.Clamp, Config.Valid;
    }
  }

  /** The rank of a query is the least one that reaches the share. */
  lemma RankReaches(q: real, n: nat, atMost: nat, below: nat)
    requires 0.0 <= q <= 1.0 && n > 0
    requires atMost >= 1 && atMost as real >= q * n as real && (below == 0 || (below as real) < q * n as real)
    ensures below < Rank(q, n) <= atMost
  {
    RankIs(q, n);
  }

  lemma QuantileHasRank(cfg: Config, vals: seq<real>, q: real, u: real)
    requires cfg.Valid() && 0.0 <= q <= 1.0 && CountAccepted(vals) > 0 && IsQuantile(vals, q, u)
    ensures HasRank(cfg, vals, Rank(q, CountAccepted(vals)), cfg.Clamp(u))
  {
    hide AtMost, Below, CountAtMost, CountBelow, CountAccepted, Rank;
    RankReaches(q, CountAccepted(vals), AtMost(vals, u), Below(vals, u));
    ClampedCounts(cfg, vals, u);
  }

  // ------------------------------------------------------------------
  // Every query has such a value
  // ------------------------------------------------------------------

  lemma {:induction false} RawCountsOrdered(vals: seq<real>, u: real, w: real)
    requires u <= w
    ensures Below(vals, u) <= AtMost(vals, u) <= AtMost(vals, w) <= CountAccepted(vals)
    ensures u < w ==> AtMost(vals, u) <= Below(vals, w)
  {
    if vals != [] {
      RawCountsOrdered(vals[..|vals| - 1], u, w);
    }
  }

  lemma CountsSnoc(vals: seq<real>, v: real, x: real)
    ensures AtMost(vals + [v], x) == AtMost(vals, x) + if 0.0 <= v <= x then 1 else 0
    ensures Below(vals + [v], x) == Below(vals, x) + if 0.0 <= v < x then 1 else 0
  {
    assert (vals + [v])[..|vals|] == vals;
  }

  /** The largest accepted value below `w`. */
  lemma {:induction false} NextValueBelow(vals: seq<real>, w: real) returns (u: real)
    requires Below(vals, w) > 0
    ensures 0.0 <= u < w && u in vals && AtMost(vals, u) == Below(vals, w) && Below(vals, u) < AtMost(vals, u)
    decreases |vals|
  {
    assert vals != [];
    hide AtMost, Below;
    var rest, v := vals[..|vals| - 1], vals[|vals| - 1];
    assert vals == rest + [v];
    CountsSnoc(rest, v, w);
    if Below(rest, w) == 0 {
      u := v;
      RawCountsOrdered(rest, u, w);
    } else {
      u := NextValueBelow(rest, w);
      if 0.0 <= v < w && v > u {
        RawCountsOrdered(rest, u, v);
        RawCountsOrdered(rest, v, w);
        u := v;
      }
    }
    CountsSnoc(rest, v, u);
    assert u in vals && Below(vals, u) < AtMost(vals, u) == Below(vals, w);
  }

  lemma {:induction false} AboveAll(vals: seq<real>) returns (w: real)
    ensures Below(vals, w) == CountAccepted(vals)
  {
    if vals == [] {
      w := 0.0;
    } else {
      var v := AboveAll(vals[..|vals| - 1]);
      w := if v <= vals[|vals| - 1] then vals[|vals| - 1] + 1.0 else v;
      RawCountsOrdered(vals[..|vals| - 1], v, w);
      RawCountsOrdered(vals[..|vals| - 1], w, w);
    }
  }

  /** Walking down from `u` to the least value that still reaches the share `x`. */
  lemma {:induction false} WalkDown(vals: seq<real>, x: real, u: real) returns (v: real)
    requires u in vals && u >= 0.0 && AtMost(vals, u) >= 1 && AtMost(vals, u) as real >= x
    ensures v in vals && v >= 0.0 && AtMost(vals, v) >= 1 && AtMost(vals, v) as real >= x
    ensures Below(vals, v) == 0 || (Below(vals, v) as real) < x
    decreases Below(vals, u)
  {
    hide AtMost, Below;
    if Below(vals, u) == 0 || (Below(vals, u) as real) < x {
      v := u;
    } else {
      var w := NextValueBelow(vals, u);
      v := WalkDown(vals, x, w);
    }
  }

  /** Every query has a quantile, and it is one of the values added. */
  lemma QuantileExists(vals: seq<real>, q: real) returns (u: real)
    requires 0.0 <= q <= 1.0 && CountAccepted(vals) > 0
    ensures IsQuantile(vals, q, u) && u in vals && u >= 0.0
  {
    hide AtMost, Below, CountAccepted;
    var n := CountAccepted(vals);
    var w := AboveAll(vals);
    var top := NextValueBelow(vals, w);
    ProductWeaklyMonotone(q, 1.0, n as real);
    u := WalkDown(vals, q * n as real, top);
  }

  // ------------------------------------------------------------------
  // The guarantee
  // ------------------------------------------------------------------

  lemma {:induction false} KeysUpTo(cfg: Config, vals: seq<real>, k: int)
    requires cfg.Valid() && k in HistOf(cfg, vals)
    ensures k <= cfg.Bucket(cfg.maxValue)
  {
    var n := |vals| - 1;
    if n >= 0 {
      if k in HistOf(cfg, vals[..n]) {
        KeysUpTo(cfg, vals[..n], k);
      } else {
        BucketMonotone(cfg, cfg.Clamp(vals[n]), cfg.maxValue);
      }
    }
  }

  /** The bucket of the largest value is never folded. */
  lemma LargestKept(cfg: Config, vals: seq<real>)
    requires cfg.Valid()
    ensures Floor(HistOf(cfg, vals).Keys, cfg.maxBuckets) <= cfg.Bucket(cfg.maxValue)
  {
    var h := HistOf(cfg, vals);
    FloorIsKey(h.Keys, cfg.maxBuckets);
    hide HistOf, Floor, Config.Bucket, Config.Valid;
    if Floor(h.Keys, cfg.maxBuckets) != 0 {
      KeysUpTo(cfg, vals, Floor(h.Keys, cfg.maxBuckets));
    }
  }

  /** The guarantee against the values as they were added. For a quantile inside the accepted range the answer is not
      below it, and less than gamma times it when its bucket is kept. A quantile below the range is answered by the
      least accepted value when the lowest bucket is kept; one above it by the edge of the largest value's bucket. */
  lemma RawGuarantee(cfg: Config, vals: seq<real>, q: real, u: real, e: real)
    requires cfg.Valid() && 0.0 <= q <= 1.0 && CountAccepted(vals) > 0 && IsQuantile(vals, q, u)
    requires Answers(cfg, Canon(HistOf(cfg, vals), cfg.maxBuckets), CountAccepted(vals), q, e)
    ensures u <= cfg.maxValue ==> u <= e
    ensures var floor := Floor(HistOf(cfg, vals).Keys, cfg.maxBuckets);
            && (cfg.minValue <= u <= cfg.maxValue && floor <= cfg.Bucket(u) ==> e < cfg.gamma * u)
            && (u < cfg.minValue && floor == 0 ==> e == cfg.minValue)
            && (u > cfg.maxValue ==> e == cfg.Edge(cfg.Bucket(cfg.maxValue)))
  {
    hide *;
    QuantileHasRank(cfg, vals, q, u);
    LargestKept(cfg, vals);
    ClampCases(cfg, u);
    LeastBucket(cfg);
    QuantileGuarantee(cfg, vals, q, cfg.Clamp(u), e);
  }

  lemma ClampCases(cfg: Config, u: real)
    requires cfg.Valid()
    ensures u <= cfg.maxValue ==> u <= cfg.Clamp(u)
    ensures cfg.minValue <= u <= cfg.maxValue ==> cfg.Clamp(u) == u
    ensures u < cfg.minValue ==> cfg.Clamp(u) == cfg.minValue
    ensures u > cfg.maxValue ==> cfg.Clamp(u) == cfg.maxValue
  {
  }

  lemma LeastBucket(cfg: Config)
    requires cfg.Valid()
    ensures cfg.Bucket(cfg.minValue) == 0 && cfg.Edge(0) == cfg.minValue
  {
    BucketUnique(cfg, cfg.minValue, 0);
  }
}
