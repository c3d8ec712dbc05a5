/** The sliding window object: sub-sketches by granule start, pruning, and the quantile cache
    (local_ddsketch/compat.py). Clock readings are parameters. */
module SlidingWindow {
  import opened Histogram
  import opened Outcomes
  import opened Sets
  import opened Sketch
  import opened SketchSpec
  import opened SlidingSpec
  import Window

  const CACHE_TTL: real := 0.2
  const COMMON_QS: set<real> := {0.50, 0.95, 0.99, 0.999}

  class SlidingWindowDDSketch {
    const cfg: Config
    const windowSeconds: real
    const granularity: real
    var sketches: map<real, DDSketch>
    var latestTime: Option<real>
    var cachedQuantiles: map<real, real>
    var cacheTs: real

    ghost function P(): Params {
      Params(cfg, windowSeconds, granularity)
    }

    ghost predicate Shape()
      reads this`sketches, sketches.Values
    {
      && P().Valid()
      && (forall t :: t in sketches ==> sketches[t].Valid() && sketches[t].cfg == cfg)
      && (forall t, u :: t in sketches && u in sketches && t != u ==> sketches[t] != sketches[u])
    }

    ghost function Hists(): Slices
      reads this`sketches, sketches.Values
    {
      map t | t in sketches :: sketches[t].hist
    }

    ghost function Abs(): View
      reads this, sketches.Values
    {
      View(latestTime, Hists())
    }

    /** A live cache holds only answers for the present slices. */
    ghost predicate CacheSound()
      reads this`sketches, this`cachedQuantiles, this`cacheTs, sketches.Values
      requires Shape()
    {
      cacheTs == 0.0 ||
      (cacheTs >= CACHE_TTL && forall q :: q in cachedQuantiles ==>
         0.0 <= q <= 1.0 && WindowAnswers(cfg, Hists(), q, cachedQuantiles[q]))
    }

    ghost predicate Valid()
      reads this`sketches, this`cachedQuantiles, this`cacheTs, sketches.Values
    {
      Shape() && CacheSound()
    }

    constructor (cfg: Config, windowSeconds: real, granularity: real)
      requires Params(cfg, windowSeconds, granularity).Valid()
      ensures Valid() && this.cfg == cfg && this.windowSeconds == windowSeconds && this.granularity == granularity
      ensures Abs() == View(None, map[])
    {
      this.cfg, this.windowSeconds, this.granularity := cfg, windowSeconds, granularity;
      sketches, latestTime, cachedQuantiles, cacheTs := map[], None, map[], 0.0;
    }

    lemma SizesPositive()
      requires Shape()
      ensures P().Valid() && cfg.Valid() && granularity > 0.0
    {
    }

    lemma SoundWithoutCache()
      requires Shape() && cacheTs == 0.0
      ensures Valid()
    {
    }

    /** `_prune`: drop expired sub-sketches and forget the cache when any was dropped. */
    method PruneExpired()
      requires Valid() && latestTime.Some?
      modifies this`sketches, this`cacheTs
      ensures Valid() && sketches.Values <= old(sketches.Values)
      ensures Hists() == Prune(old(Hists()), latestTime.value - windowSeconds)
      ensures if Hists() == old(Hists()) then cacheTs == old(cacheTs) else cacheTs == 0.0
    {
      hide Shape, Hists, Prune, WindowAnswers;
      var any := DropBefore(latestTime.value - windowSeconds);
      if any {
        cacheTs := 0.0;
        SoundWithoutCache();
      }
    }

    method DropBefore(cutoff: real) returns (any: bool)
      requires Shape()
      modifies this`sketches
      ensures Shape() && sketches.Values <= old(sketches.Values)
      ensures Hists() == Prune(old(Hists()), cutoff)
      ensures any <==> Hists() != old(Hists())
    {
      hide DDSketch.Valid, SlidingSpec.Params.Valid;
      var expired := set ts | ts in sketches && ts < cutoff;
      any := expired != {};
      ghost var before := Hists();
      sketches := sketches - expired;
      SameByTime(Hists(), Prune(before, cutoff));
      if any {
        ghost var t := Pick(expired);
        assert t in before && t !in Hists();
      } else {
        SameByTime(Hists(), before);
      }
    }

    method Add(value: real, timestamp: real)
      requires Valid()
      modifies this, sketches.Values
      ensures Valid() && fresh(sketches.Values - old(sketches.Values))
      ensures Abs() == Step(P(), old(Abs()), SlidingSpec.Add(value, timestamp))
    {
      hide Valid, Hists, Touch, Prune;
      if latestTime.None? {
        latestTime := Some(timestamp);
      }
      if timestamp > latestTime.value {
        latestTime := Some(timestamp);
        PruneExpired();
      }
      if timestamp >= latestTime.value - windowSeconds {
        AddToSlice(value, timestamp);
      }
    }

    /** The tail of `add`: the value joins its sub-sketch, and the cache is forgotten. */
    method AddToSlice(value: real, timestamp: real)
      requires Valid()
      modifies this`sketches, this`cacheTs, sketches.Values
      ensures Valid() && fresh(sketches.Values - old(sketches.Values))
      ensures Hists() == Touch(P(), old(Hists()), Window.Start(granularity, timestamp), value)
    {
      hide Shape, Hists, Touch, Window.Start, WindowAnswers, CacheSound;
      SizesPositive();
      CountInSlice(Window.Start(granularity, timestamp), value);
      cacheTs := 0.0;
      SoundWithoutCache();
    }

    /** Sub-sketches are made on demand. */
    method MakeSlice(start: real)
      requires Shape()
      modifies this`sketches
      ensures Shape() && fresh(sketches.Values - old(sketches.Values))
      ensures start in sketches
      ensures Hists() == if start in old(Hists()) then old(Hists()) else old(Hists())[start := map[]]
    {
      hide DDSketch.Valid, Config.Valid, SlidingSpec.Params.Valid;
      SizesPositive();
      if start !in sketches {
        ghost var before := Hists();
        var empty := new DDSketch(cfg);
        sketches := sketches[start := empty];
        SameByTime(Hists(), before[start := map[]]);
      }
    }

    method AddAt(start: real, value: real)
      requires Shape() && start in sketches
      modifies sketches.Values
      ensures Shape() && Hists() == Touch(P(), old(Hists()), start, value)
    {
      hide DDSketch.Valid, Plus, Single, Config.Bucket, Config.Clamp, Config.Valid, SlidingSpec.Params.Valid;
      ghost var before := Hists();
      sketches[start].Add(value);
      forall t | t in sketches && t != start ensures sketches[t].hist == before[t] {
        assert sketches[t] != sketches[start];
      }
      SizesPositive();
      SameByTime(Hists(), Touch(P(), before, start, value));
    }

    method CountInSlice(start: real, value: real)
      requires Shape()
      modifies this`sketches, sketches.Values
      ensures Shape() && fresh(sketches.Values - old(sketches.Values))
      ensures Hists() == Touch(P(), old(Hists()), start, value)
    {
      hide Shape, Hists, Touch;
      SizesPositive();
      MakeSlice(start);
      if start !in old(Hists()) {
        TouchMade(P(), old(Hists()), start, value);
      }
      AddAt(start, value);
    }

    method Advance(now: real)
      requires Valid()
      modifies this
      ensures Valid() && sketches.Values <= old(sketches.Values)
      ensures Abs() == Step(P(), old(Abs()), SlidingSpec.Advance(now))
    {
      hide Valid, Hists, Prune;
      if latestTime.None? || now > latestTime.value {
        latestTime := Some(now);
      }
      PruneExpired();
    }

    /** The merge of all sub-sketches, in whatever order the dictionary lists them. */
    method MergeAll() returns (merged: DDSketch)
      requires Shape() && sketches != map[]
      ensures fresh(merged) && merged.Valid() && merged.cfg == cfg
      ensures merged.hist == Merged(Hists())
    {
      hide DDSketch.Valid, Merged, Config.Valid;
      ghost var all := Hists();
      ghost var some := Pick(sketches.Keys);
      var first :| first in sketches;
      merged := sketches[first].Copy();
      var rest := sketches.Keys - {first};
      ghost var done := map[first := all[first]];
      MergedOne(first, all[first]);
      while rest != {}
        invariant rest <= sketches.Keys
        invariant done.Keys == sketches.Keys - rest && forall t :: t in done ==> done[t] == all[t]
        invariant fresh(merged) && merged.Valid() && merged.cfg == cfg
        invariant merged.hist == Merged(done)
        decreases rest
      {
        ghost var next := Pick(rest);
        var t :| t in rest;
        var _ := merged.MergeInto(sketches[t]);
        assert done[t := all[t]] - {t} == done;
        MergedAnyOrder(done[t := all[t]], t);
        done := done[t := all[t]];
        rest := rest - {t};
      }
      assert done.Keys == all.Keys;
      SameByTime(done, all);
    }

    /** The cached query answers exactly as a fresh merge of all sub-sketches would. `checked` and
        `stored` are the two readings of the clock. */
    method Quantile(q: real, checked: real, stored: real) returns (r: Result<real>)
      requires Valid() && checked >= CACHE_TTL && stored >= CACHE_TTL
      modifies this`cachedQuantiles, this`cacheTs
      ensures Valid()
      ensures sketches == map[] ==> r == Ok(0.0)
      ensures sketches != map[] ==> (r.Ok? <==> 0.0 <= q <= 1.0)
      ensures sketches != map[] && r.Ok? ==> WindowAnswers(cfg, Hists(), q, r.value)
    {
      hide DDSketch.Valid, Merged, WindowAnswers, Answers, Config.Valid;
      if sketches == map[] {
        return Ok(0.0);
      }
      if q in cachedQuantiles && checked - cacheTs < CACHE_TTL {
        assert cacheTs != 0.0;
        return Ok(cachedQuantiles[q]);
      }
      r := Refresh(q, stored);
    }

    /** The rest of `quantile`: merge, recompute the common quantiles, and remember this one as well. */
    method Refresh(q: real, stored: real) returns (r: Result<real>)
      requires Valid() && stored >= CACHE_TTL && sketches != map[]
      modifies this`cachedQuantiles, this`cacheTs
      ensures Valid() && Hists() == old(Hists())
      ensures r.Ok? <==> 0.0 <= q <= 1.0
      ensures r.Ok? ==> WindowAnswers(cfg, Hists(), q, r.value)
    {
      hide Shape, Hists, DDSketch.Valid, Merged, WindowAnswers, Answers, Config.Valid;
      SizesPositive();
      var merged := MergeAll();
      ghost var hists := Hists();
      cachedQuantiles := CommonQuantiles(merged, hists);
      r := merged.Quantile(q);
      if r.Ok? {
        AnswersForMerged(merged, hists, q, r.value);
        cachedQuantiles := cachedQuantiles[q := r.value];
        cacheTs := stored;
      }
      assert Hists() == hists;
    }

    /** The quantiles that every refresh of the cache computes. */
    method CommonQuantiles(merged: DDSketch, ghost hists: Slices) returns (answers: map<real, real>)
      requires cfg.Valid() && merged.Valid() && merged.cfg == cfg && merged.hist == Merged(hists)
      ensures forall x :: x in answers ==> 0.0 <= x <= 1.0 && WindowAnswers(cfg, hists, x, answers[x])
    {
      hide DDSketch.Valid, Merged, WindowAnswers, Config.Valid;
      answers := map[];
      var todo := COMMON_QS;
      while todo != {}
        invariant todo <= COMMON_QS
        invariant forall x :: x in answers ==> 0.0 <= x <= 1.0 && WindowAnswers(cfg, hists, x, answers[x])
        decreases todo
      {
        ghost var next := Pick(todo);
        var cq :| cq in todo;
        var a := merged.Quantile(cq);
        AnswersForMerged(merged, hists, cq, a.value);
        answers := answers[cq := a.value];
        todo := todo - {cq};
      }
    }
  }

  /** A sub-sketch that is missing counts as an empty one. */
  lemma TouchMade(p: Params, slices: Slices, t: real, value: real)
    requires p.Valid() && t !in slices
    ensures Touch(p, slices[t := map[]], t, value) == Touch(p, slices, t, value)
  {
  }

  lemma AnswersForMerged(merged: DDSketch, hists: Slices, q: real, e: real)
    requires merged.Valid() && merged.hist == Merged(hists) && 0.0 <= q <= 1.0
    requires Answers(merged.cfg, merged.buckets, merged.totalCount, q, e)
    ensures WindowAnswers(merged.cfg, hists, q, e)
  {
  }

  lemma MergedOne(t: real, h: Hist)
    ensures Merged(map[t := h]) == h
  {
    MergedAnyOrder(map[t := h], t);
    assert map[t := h] - {t} == map[];
    PlusEmpty(h);
  }
}
