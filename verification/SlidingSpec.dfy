/** What the sliding window of sub-sketches holds (local_ddsketch/compat.py), on values. */
module SlidingSpec {
  import opened Extended
  import opened Histogram
  import opened Outcomes
  import opened Reals
  import opened Sets
  import opened SketchSpec
  import Window

  datatype Params = Params(cfg: Config, window: real, granularity: real) {
    ghost predicate Valid() {
      cfg.Valid() && 0.0 < granularity <= window
    }
  }

  /** One sub-sketch histogram per granule start. */
  type Slices = map<real, Hist>

  datatype View = View(latest: Option<real>, slices: Slices)

  datatype Op = Add(value: real, timestamp: real) | Advance(now: real)

  // ------------------------------------------------------------------
  // The operations
  // ------------------------------------------------------------------

  ghost function Prune(slices: Slices, cutoff: real): Slices {
    map t | t in slices && t >= cutoff :: slices[t]
  }

  ghost function Touch(p: Params, slices: Slices, t: real, value: real): Slices
    requires p.Valid()
  {
    var h := if t in slices then slices[t] else map[];
    slices[t := if value < 0.0 then h else Plus(h, Single(p.cfg.Bucket(p.cfg.Clamp(value))))]
  }

  ghost function Step(p: Params, v: View, op: Op): View
    requires p.Valid()
  {
    match op
    case Add(value, timestamp) =>
      var newer := v.latest.Some? && timestamp > v.latest.value;
      var latest := if v.latest.None? || newer then timestamp else v.latest.value;
      var slices := if newer then Prune(v.slices, latest - p.window) else v.slices;
      if timestamp < latest - p.window then View(Some(latest), slices)
      else View(Some(latest), Touch(p, slices, Window.Start(p.granularity, timestamp), value))
    case Advance(now) =>
      var latest := if v.latest.None? || now > v.latest.value then now else v.latest.value;
      View(Some(latest), Prune(v.slices, latest - p.window))
  }

  ghost function Run(p: Params, ops: seq<Op>): View
    requires p.Valid()
  {
    if ops == [] then View(None, map[]) else Step(p, Run(p, ops[..|ops| - 1]), ops[|ops| - 1])
  }

  // ------------------------------------------------------------------
  // What the window must hold, read off the calls alone
  // ------------------------------------------------------------------

  /** The non-negative values of all `add` calls whose timestamp lies in granule `t`. */
  ghost function Granule(p: Params, ops: seq<Op>, t: real): (h: Hist)
    requires p.Valid()
    ensures IsHist(h)
  {
    if ops == [] then map[] else
      var rest := Granule(p, ops[..|ops| - 1], t);
      var op := ops[|ops| - 1];
      if op.Add? && op.value >= 0.0 && Window.Start(p.granularity, op.timestamp) == t
      then Plus(rest, Single(p.cfg.Bucket(p.cfg.Clamp(op.value)))) else rest
  }

  /** The largest time seen so far. */
  ghost function Latest(ops: seq<Op>): Option<real> {
    if ops == [] then None else
      var rest := Latest(ops[..|ops| - 1]);
      var op := ops[|ops| - 1];
      var now := if op.Add? then op.timestamp else op.now;
      if rest.None? || now > rest.value then Some(now) else rest
  }

  ghost function Slice(slices: Slices, t: real): Hist {
    if t in slices then slices[t] else map[]
  }

  ghost predicate AtMost(a: Hist, b: Hist) {
    forall k :: Count(a, k) <= Count(b, k)
  }

  /** Every slice that starts inside the window is complete; a slice never holds foreign values; no
      slice reaches back a whole granule before the window. */
  ghost predicate Sound(p: Params, ops: seq<Op>, slices: Slices, latest: real)
    requires p.Valid()
  {
    && (forall t :: t in slices ==> IsHist(slices[t]) && AtMost(slices[t], Granule(p, ops, t)))
    && (forall t :: t in slices ==>
          Window.Aligned(p.granularity, t) && latest - p.window - p.granularity < t <= latest)
    && (forall t {:trigger Granule(p, ops, t)} :: t >= latest - p.window ==> Slice(slices, t) == Granule(p, ops, t))
  }

  ghost predicate Covers(p: Params, ops: seq<Op>, v: View)
    requires p.Valid()
  {
    && v.latest == Latest(ops)
    && if v.latest.None? then v.slices == map[] && ops == [] else Sound(p, ops, v.slices, v.latest.value)
  }

  lemma {:induction false} Coverage(p: Params, ops: seq<Op>)
    requires p.Valid()
    ensures Covers(p, ops, Run(p, ops))
  {
    if ops != [] {
      var n := |ops| - 1;
      Coverage(p, ops[..n]);
      StepCovers(p, ops[..n], Run(p, ops[..n]), ops[n]);
      assert ops[..n] + [ops[n]] == ops;
    }
  }

  lemma StepCovers(p: Params, ops: seq<Op>, v: View, op: Op)
    requires p.Valid() && Covers(p, ops, v)
    ensures Covers(p, ops + [op], Step(p, v, op))
  {
    hide Sound, Prune, Touch, Granule, Window.Start, Params.Valid;
    assert (ops + [op])[..|ops|] == ops;
    var now := if op.Add? then op.timestamp else op.now;
    var newer := v.latest.Some? && now > v.latest.value;
    var latest := if v.latest.None? || newer then now else v.latest.value;
    var slices := if newer || op.Advance? then Prune(v.slices, latest - p.window) else v.slices;
    if v.latest.None? {
      NothingYet(p, latest);
    } else {
      PruneSound(p, ops, v.slices, v.latest.value, latest);
    }
    match op
    case Advance(t) => AdvanceSound(p, ops, slices, latest, t);
    case Add(value, timestamp) =>
      if timestamp < latest - p.window {
        DropSound(p, ops, slices, latest, value, timestamp);
      } else {
        TouchSound(p, ops, slices, latest, value, timestamp);
      }
  }

  lemma NothingYet(p: Params, latest: real)
    requires p.Valid()
    ensures Sound(p, [], map[], latest) && Prune(map[], latest - p.window) == map[]
  {
  }

  lemma PruneSound(p: Params, ops: seq<Op>, slices: Slices, before: real, latest: real)
    requires p.Valid() && Sound(p, ops, slices, before) && before <= latest
    ensures Sound(p, ops, Prune(slices, latest - p.window), latest)
  {
    hide IsHist, AtMost, Window.Aligned;
    var pruned := Prune(slices, latest - p.window);
    forall t {:trigger Granule(p, ops, t)} | t >= latest - p.window ensures Slice(pruned, t) == Granule(p, ops, t) {
      assert Slice(slices, t) == Granule(p, ops, t);
    }
  }

  lemma AdvanceSound(p: Params, ops: seq<Op>, slices: Slices, latest: real, now: real)
    requires p.Valid() && Sound(p, ops, slices, latest)
    ensures Sound(p, ops + [Advance(now)], slices, latest)
  {
    hide IsHist, AtMost, Window.Aligned;
    var after := ops + [Advance(now)];
    assert after[..|ops|] == ops;
    forall t ensures Granule(p, after, t) == Granule(p, ops, t) {
    }
  }

  lemma GranuleSnoc(p: Params, ops: seq<Op>, value: real, timestamp: real, t: real)
    requires p.Valid()
    ensures Granule(p, ops + [Add(value, timestamp)], t) ==
              if value >= 0.0 && Window.Start(p.granularity, timestamp) == t
              then Plus(Granule(p, ops, t), Single(p.cfg.Bucket(p.cfg.Clamp(value)))) else Granule(p, ops, t)
  {
    assert (ops + [Add(value, timestamp)])[..|ops|] == ops;
  }

  /** The values added with a timestamp in the granule that starts at `t`, as they were given. */
  ghost function GranuleValues(p: Params, ops: seq<Op>, t: real): seq<real> {
    if ops == [] then [] else
      var rest, op := GranuleValues(p, ops[..|ops| - 1], t), ops[|ops| - 1];
      if op.Add? && t <= op.timestamp < t + p.granularity then rest + [op.value] else rest
  }

  /** A granule is the histogram of those values, so what a sketch says of raw values holds of every slice. */
  lemma {:induction false} GranuleIsHist(p: Params, ops: seq<Op>, t: real)
    requires p.Valid() && Window.Aligned(p.granularity, t)
    ensures Granule(p, ops, t) == HistOf(p.cfg, GranuleValues(p, ops, t))
  {
    hide Window.Start, Window.Aligned, Config.Valid, Config.Bucket, Config.Clamp;
    if ops != [] {
      var rest, op := ops[..|ops| - 1], ops[|ops| - 1];
      GranuleIsHist(p, rest, t);
      if op.Add? {
        Window.StartIff(p.granularity, op.timestamp, t);
        HistSnoc(p.cfg, GranuleValues(p, rest, t), op.value);
      }
    }
  }

  /** A value older than the window belongs to a granule that starts before the window. */
  lemma DropSound(p: Params, ops: seq<Op>, slices: Slices, latest: real, value: real, timestamp: real)
    requires p.Valid() && Sound(p, ops, slices, latest) && timestamp < latest - p.window
    ensures Sound(p, ops + [Add(value, timestamp)], slices, latest)
  {
    var after := ops + [Add(value, timestamp)];
    var start := Window.Start(p.granularity, timestamp);
    hide Window.Start, Window.Aligned, Granule;
    forall t | t in slices ensures AtMost(slices[t], Granule(p, after, t)) {
      GranuleSnoc(p, ops, value, timestamp, t);
    }
    forall t {:trigger Granule(p, after, t)} | t >= latest - p.window ensures Slice(slices, t) == Granule(p, after, t) {
      GranuleSnoc(p, ops, value, timestamp, t);
    }
  }

  lemma TouchSound(p: Params, ops: seq<Op>, slices: Slices, latest: real, value: real, timestamp: real)
    requires p.Valid() && Sound(p, ops, slices, latest) && latest - p.window <= timestamp <= latest
    ensures Sound(p, ops + [Add(value, timestamp)],
                  Touch(p, slices, Window.Start(p.granularity, timestamp), value), latest)
  {
    var start := Window.Start(p.granularity, timestamp);
    var ops' := ops + [Add(value, timestamp)];
    var after := Touch(p, slices, start, value);
    TouchAtMost(p, ops, slices, latest, value, timestamp);
    hide Window.Start, Window.Aligned, Granule, AtMost, IsHist;
    forall t {:trigger Granule(p, ops', t)} | t >= latest - p.window ensures Slice(after, t) == Granule(p, ops', t) {
      GranuleSnoc(p, ops, value, timestamp, t);
      assert Slice(slices, t) == Granule(p, ops, t);
    }
  }

  lemma TouchAtMost(p: Params, ops: seq<Op>, slices: Slices, latest: real, value: real, timestamp: real)
    requires p.Valid() && Sound(p, ops, slices, latest) && latest - p.window <= timestamp <= latest
    ensures var start, ops' := Window.Start(p.granularity, timestamp), ops + [Add(value, timestamp)];
            var after := Touch(p, slices, start, value);
            forall t :: t in after ==>
              && IsHist(after[t]) && AtMost(after[t], Granule(p, ops', t))
              && Window.Aligned(p.granularity, t) && latest - p.window - p.granularity < t <= latest
  {
    var start, ops' := Window.Start(p.granularity, timestamp), ops + [Add(value, timestamp)];
    var after := Touch(p, slices, start, value);
    hide Window.Start, Window.Aligned, Granule;
    forall t | t in after ensures IsHist(after[t]) && AtMost(after[t], Granule(p, ops', t)) {
      GranuleSnoc(p, ops, value, timestamp, t);
      assert t != start ==> after[t] == slices[t];
    }
  }

  // ------------------------------------------------------------------
  // How many slices can exist
  // ------------------------------------------------------------------

  lemma {:induction false} AlignedCount(g: real, lo: real, n: nat, keys: set<real>)
    requires g > 0.0
    requires forall t :: t in keys ==> Window.Aligned(g, t) && lo < t <= lo + Window.Nth(g, n)
    ensures |keys| <= n
    decreases n
  {
    if n == 0 {
      if keys != {} {
        var t := Pick(keys);
      }
    } else {
      var first := set t | t in keys && t <= lo + g;
      Window.NthSucc(g, n - 1);
      AlignedCount(g, lo + g, n - 1, keys - first);
      if first != {} {
        var t := Pick(first);
        forall u | u in first ensures u == t {
          if u < t {
            Window.AlignedGap(g, u, t);
          } else if t < u {
            Window.AlignedGap(g, t, u);
          }
        }
        assert first == {t};
      }
      assert keys == (keys - first) + first;
    }
  }

  /** At most ceil(W/g) + 1 sub-sketches ever exist. */
  lemma SliceBound(p: Params, ops: seq<Op>)
    requires p.Valid()
    ensures |Run(p, ops).slices| <= Ceil(p.window / p.granularity) + 1
  {
    Coverage(p, ops);
    var v := Run(p, ops);
    CeilCovers(p.granularity, p.window);
    if v.latest.Some? {
      KeysBound(p.granularity, p.window, v.latest.value, v.slices.Keys);
    }
  }

  lemma KeysBound(g: real, w: real, latest: real, keys: set<real>)
    requires 0.0 < g <= w
    requires forall t :: t in keys ==> Window.Aligned(g, t) && latest - w - g < t <= latest
    ensures |keys| <= Ceil(w / g) + 1
  {
    var n := Ceil(w / g);
    CeilCovers(g, w);
    Window.NthSucc(g, n);
    hide Window.Nth, Ceil;
    AlignedCount(g, latest - w - g, n + 1, keys);
  }

  lemma CeilCovers(g: real, w: real)
    requires 0.0 < g <= w
    ensures Ceil(w / g) > 0 && w <= Window.Nth(g, Ceil(w / g))
  {
    var x := Quotient(w, g);
    if x <= 0.0 {
      ProductWeaklyMonotone(x, 0.0, g);
    }
    Window.NthCompare(g, x, Ceil(x));
    ProductWeaklyMonotone(x, Ceil(x) as real, g);
  }

  // ------------------------------------------------------------------
  // Merging the slices
  // ------------------------------------------------------------------

  /** All slices added up. */
  ghost function Merged(slices: Slices): Hist {
    if slices == map[] then map[] else
      var t := Pick(slices.Keys);
      Plus(Merged(slices - {t}), slices[t])
  }

  /** The sum does not depend on the order in which the dictionary is walked. */
  lemma {:induction false} MergedAnyOrder(slices: Slices, t: real)
    requires t in slices
    ensures Merged(slices) == Plus(Merged(slices - {t}), slices[t])
    decreases |slices|
  {
    var u := Pick(slices.Keys);
    if u != t {
      var both := slices - {t, u};
      assert slices - {t} - {u} == both && slices - {u} - {t} == both;
      MergedAnyOrder(slices - {u}, t);
      MergedAnyOrder(slices - {t}, u);
      PlusAssociates(Merged(both), slices[t], slices[u]);
      PlusCommutes(slices[t], slices[u]);
      PlusAssociates(Merged(both), slices[u], slices[t]);
    }
  }

  lemma {:induction false} MergedIsHist(slices: Slices)
    requires forall t :: t in slices ==> IsHist(slices[t])
    ensures IsHist(Merged(slices))
    decreases |slices|
  {
    if slices != map[] {
      var t := Pick(slices.Keys);
      MergedIsHist(slices - {t});
    }
  }

  /** What a query over the window answers: the quantile of all slices merged. */
  ghost predicate WindowAnswers(cfg: Config, slices: Slices, q: real, e: real)
    requires cfg.Valid() && 0.0 <= q <= 1.0
  {
    var h := Merged(slices);
    Total(h) >= 0 && Answers(cfg, Canon(h, cfg.maxBuckets), Total(h), q, e)
  }

  lemma WindowAnswerUnique(cfg: Config, slices: Slices, q: real, e: real, e': real)
    requires cfg.Valid() && 0.0 <= q <= 1.0 && (forall t :: t in slices ==> IsHist(slices[t]))
    requires WindowAnswers(cfg, slices, q, e) && WindowAnswers(cfg, slices, q, e')
    ensures e == e'
  {
    var h := Merged(slices);
    MergedIsHist(slices);
    CanonIsHist(h, cfg.maxBuckets);
    QuantileMonotone(cfg, Canon(h, cfg.maxBuckets), Total(h), q, e, q, e');
    QuantileMonotone(cfg, Canon(h, cfg.maxBuckets), Total(h), q, e', q, e);
  }
}
