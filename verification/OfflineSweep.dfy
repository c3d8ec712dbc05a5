/** The offline sweeps over a recorded dataset (reports/analyze_dataset.py) and how they relate to the
    online engine. */
module OfflineSweep {
  import opened Extended
  import opened Outcomes
  import opened StrictRuns
  import opened StrictSpec
  import opened StrictTwoRuns
  import Window

  datatype SweepRow = SweepRow(delta: real, total: nat, onTime: nat, late: nat)

  datatype PartStats = PartStats(total: nat, onTime: nat)

  const PARTITIONS := 12

  // ------------------------------------------------------------------
  // What the sweeps count
  // ------------------------------------------------------------------

  /** The largest event time of a prefix of the dataset. */
  function RunningMax(et: seq<real>): Ext {
    if et == [] then NegInf else RunningMax(et[..|et| - 1]).Max(Fin(et[|et| - 1]))
  }

  /** An event is on time when its window ends after the largest earlier event time minus delta. */
  predicate OnTimeAfter(size: real, delta: real, before: Ext, t: real)
    requires size > 0.0
  {
    before.Minus(delta).Lt(Fin(Window.Start(size, t) + size))
  }

  ghost function SweepOnTime(size: real, delta: real, et: seq<real>): (c: nat)
    requires size > 0.0
    ensures c <= |et|
  {
    if et == [] then 0 else
      var n := |et| - 1;
      SweepOnTime(size, delta, et[..n]) + if OnTimeAfter(size, delta, RunningMax(et[..n]), et[n]) then 1 else 0
  }

  /** The events of one partition, in order. */
  ghost function Sub(et: seq<real>, parts: seq<int>, pid: int): seq<real>
    requires |parts| == |et|
  {
    if et == [] then [] else
      var n := |et| - 1;
      var rest := Sub(et[..n], parts[..n], pid);
      if parts[n] == pid then rest + [et[n]] else rest
  }

  lemma SweepSnoc(size: real, delta: real, et: seq<real>, t: real)
    requires size > 0.0
    ensures SweepOnTime(size, delta, et + [t]) ==
            SweepOnTime(size, delta, et) + if OnTimeAfter(size, delta, RunningMax(et), t) then 1 else 0
    ensures RunningMax(et + [t]) == RunningMax(et).Max(Fin(t))
  {
    assert (et + [t])[..|et|] == et;
  }

  lemma SubSnoc(et: seq<real>, parts: seq<int>, i: nat, pid: int)
    requires |parts| == |et| && i < |et|
    ensures Sub(et[..i + 1], parts[..i + 1], pid) ==
            if parts[i] == pid then Sub(et[..i], parts[..i], pid) + [et[i]] else Sub(et[..i], parts[..i], pid)
  {
    assert et[..i + 1][..i] == et[..i] && parts[..i + 1][..i] == parts[..i];
  }

  // ------------------------------------------------------------------
  // The sweeps
  // ------------------------------------------------------------------

  /** The inner loop of the sweep. */
  method CountOnTime(et: seq<real>, maxBefore: seq<Ext>, size: real, delta: real) returns (count: nat)
    requires size > 0.0
    requires |maxBefore| == |et| && forall k :: 0 <= k < |et| ==> maxBefore[k] == RunningMax(et[..k])
    ensures count == SweepOnTime(size, delta, et)
  {
    count := 0;
    for i := 0 to |et|
      invariant count == SweepOnTime(size, delta, et[..i])
    {
      SweepSnoc(size, delta, et[..i], et[i]);
      assert et[..i + 1] == et[..i] + [et[i]];
      if OnTimeAfter(size, delta, maxBefore[i], et[i]) {
        count := count + 1;
      }
    }
    assert et[..|et|] == et;
  }

  /** `sweep_strict_all`; an empty dataset raises. */
  method SweepStrictAll(et: seq<real>, deltas: seq<real>, size: real) returns (r: Result<seq<SweepRow>>)
    requires size > 0.0
    ensures r.Ok? <==> et != []
    ensures r.Ok? ==> |r.value| == |deltas|
    ensures r.Ok? ==> forall j :: 0 <= j < |deltas| ==>
              var c := SweepOnTime(size, deltas[j], et);
              r.value[j] == SweepRow(deltas[j], |et|, c, |et| - c)
  {
    if et == [] {
      return Raised;
    }
    var n := |et|;
    var maxBefore := [];
    var running := NegInf;
    for i := 0 to n
      invariant |maxBefore| == i && forall k :: 0 <= k < i ==> maxBefore[k] == RunningMax(et[..k])
      invariant running == RunningMax(et[..i])
    {
      maxBefore := maxBefore + [running];
      running := running.Max(Fin(et[i]));
      SweepSnoc(size, 0.0, et[..i], et[i]);
      assert et[..i + 1] == et[..i] + [et[i]];
    }
    var rows := [];
    hide SweepOnTime, RunningMax;
    for j := 0 to |deltas|
      invariant |rows| == j
      invariant forall k :: 0 <= k < j ==>
                  var c := SweepOnTime(size, deltas[k], et); rows[k] == SweepRow(deltas[k], n, c, n - c)
    {
      var count := CountOnTime(et, maxBefore, size, deltas[j]);
      rows := rows + [SweepRow(deltas[j], n, count, n - count)];
    }
    r := Ok(rows);
  }

  ghost predicate PartStatsFor(size: real, delta: real, et: seq<real>, parts: seq<int>, stats: map<int, PartStats>)
    requires size > 0.0 && |parts| == |et|
  {
    forall pid ::
      && (pid in stats <==> pid in parts)
      && (pid in stats ==>
            var sub := Sub(et, parts, pid); stats[pid] == PartStats(|sub|, SweepOnTime(size, delta, sub)))
  }

  /** `strict_partition_analysis` for one delta: each partition is swept against its own running
      maximum, as if it were a dataset of its own. */
  method PartitionPass(et: seq<real>, parts: seq<int>, delta: real, size: real) returns (stats: map<int, PartStats>)
    requires size > 0.0 && |parts| == |et| && forall i :: 0 <= i < |parts| ==> 0 <= parts[i] < PARTITIONS
    ensures PartStatsFor(size, delta, et, parts, stats)
  {
    hide Tracked, OnTimeAfter, Sub, SweepOnTime, RunningMax, PartStatsFor;
    var partMax: map<int, Ext> := map[];
    for pid := 0 to PARTITIONS
      invariant forall k :: k in partMax <==> 0 <= k < pid
      invariant forall k :: k in partMax ==> partMax[k] == NegInf
    {
      partMax := partMax[pid := NegInf];
    }
    stats := map[];
    TrackedInit(size, delta, et[..0], parts[..0], partMax);
    for i := 0 to |et|
      invariant forall pid :: pid in partMax <==> 0 <= pid < PARTITIONS
      invariant Tracked(size, delta, et[..i], parts[..i], partMax, stats)
    {
      var pid := parts[i];
      TrackedStep(size, delta, et, parts, i, partMax, stats);
      var earlier := if pid in stats then stats[pid] else PartStats(0, 0);
      var hit := if OnTimeAfter(size, delta, partMax[pid], et[i]) then 1 else 0;
      stats := stats[pid := PartStats(earlier.total + 1, earlier.onTime + hit)];
      if partMax[pid].Lt(Fin(et[i])) {
        partMax := partMax[pid := Fin(et[i])];
      }
    }
    assert et[..|et|] == et && parts[..|et|] == parts;
    TrackedDone(size, delta, et, parts, partMax, stats);
  }

  /** The loop of the partition pass: running maxima and counters of every partition. */
  ghost predicate Tracked(size: real, delta: real, et: seq<real>, parts: seq<int>, partMax: map<int, Ext>,
                          stats: map<int, PartStats>)
    requires size > 0.0 && |parts| == |et|
  {
    && PartStatsFor(size, delta, et, parts, stats)
    && (forall pid :: pid in partMax ==> partMax[pid] == RunningMax(Sub(et, parts, pid)))
    && (forall pid :: pid !in parts ==> Sub(et, parts, pid) == [])
  }

  lemma TrackedInit(size: real, delta: real, et: seq<real>, parts: seq<int>, partMax: map<int, Ext>)
    requires size > 0.0 && et == [] && parts == [] && forall pid :: pid in partMax ==> partMax[pid] == NegInf
    ensures Tracked(size, delta, et, parts, partMax, map[])
  {
  }

  lemma TrackedDone(size: real, delta: real, et: seq<real>, parts: seq<int>, partMax: map<int, Ext>,
                    stats: map<int, PartStats>)
    requires size > 0.0 && |parts| == |et| && Tracked(size, delta, et, parts, partMax, stats)
    ensures PartStatsFor(size, delta, et, parts, stats)
  {
  }

  lemma TrackedStep(size: real, delta: real, et: seq<real>, parts: seq<int>, i: nat, partMax: map<int, Ext>,
                    stats: map<int, PartStats>)
    requires size > 0.0 && |parts| == |et| && i < |et| && parts[i] in partMax
    requires Tracked(size, delta, et[..i], parts[..i], partMax, stats)
    ensures var pid := parts[i];
            var earlier := if pid in stats then stats[pid] else PartStats(0, 0);
            var hit := if OnTimeAfter(size, delta, partMax[pid], et[i]) then 1 else 0;
            Tracked(size, delta, et[..i + 1], parts[..i + 1],
                    if partMax[pid].Lt(Fin(et[i])) then partMax[pid := Fin(et[i])] else partMax,
                    stats[pid := PartStats(earlier.total + 1, earlier.onTime + hit)])
  {
    hide OnTimeAfter, RunningMax, Sub, SweepOnTime;
    var pid := parts[i];
    SubsSnoc(et, parts, i);
    SweepSnoc(size, delta, Sub(et[..i], parts[..i], pid), et[i]);
    SweepNone(size, delta);
    assert pid !in parts[..i] ==> Sub(et[..i], parts[..i], pid) == [];
    assert parts[..i + 1] == parts[..i] + [pid];
  }

  lemma SweepNone(size: real, delta: real)
    requires size > 0.0
    ensures SweepOnTime(size, delta, []) == 0
  {
  }

  lemma SubsSnoc(et: seq<real>, parts: seq<int>, i: nat)
    requires |parts| == |et| && i < |et|
    ensures forall k :: Sub(et[..i + 1], parts[..i + 1], k) ==
              if parts[i] == k then Sub(et[..i], parts[..i], k) + [et[i]] else Sub(et[..i], parts[..i], k)
  {
    forall k ensures Sub(et[..i + 1], parts[..i + 1], k) ==
      if parts[i] == k then Sub(et[..i], parts[..i], k) + [et[i]] else Sub(et[..i], parts[..i], k)
    {
      SubSnoc(et, parts, i, k);
    }
  }

  method StrictPartitionAnalysis(et: seq<real>, parts: seq<int>, deltas: seq<real>, size: real)
    returns (r: Result<seq<map<int, PartStats>>>)
    requires size > 0.0 && |parts| == |et| && forall i :: 0 <= i < |parts| ==> 0 <= parts[i] < PARTITIONS
    ensures r.Ok? <==> et != []
    ensures r.Ok? ==> |r.value| == |deltas|
    ensures r.Ok? ==> forall j :: 0 <= j < |deltas| ==> PartStatsFor(size, deltas[j], et, parts, r.value[j])
  {
    if et == [] {
      return Raised;
    }
    var rows := [];
    for j := 0 to |deltas|
      invariant |rows| == j && forall k :: 0 <= k < j ==> PartStatsFor(size, deltas[k], et, parts, rows[k])
    {
      var stats := PartitionPass(et, parts, deltas[j], size);
      rows := rows + [stats];
    }
    r := Ok(rows);
  }

  // ------------------------------------------------------------------
  // Per-partition watermarks never lose more than a global one
  // ------------------------------------------------------------------

  ghost function PartSum(size: real, delta: real, et: seq<real>, parts: seq<int>, k: nat): nat
    requires size > 0.0 && |parts| == |et|
  {
    if k == 0 then 0 else PartSum(size, delta, et, parts, k - 1) + SweepOnTime(size, delta, Sub(et, parts, k - 1))
  }

  lemma {:induction false} SubMaxBelow(et: seq<real>, parts: seq<int>, pid: int)
    requires |parts| == |et|
    ensures RunningMax(Sub(et, parts, pid)).Le(RunningMax(et))
  {
    if et != [] {
      var n := |et| - 1;
      SubMaxBelow(et[..n], parts[..n], pid);
      var rest := Sub(et[..n], parts[..n], pid);
      SweepSnoc(1.0, 0.0, rest, et[n]);
    }
  }

  lemma SubLast(et: seq<real>, parts: seq<int>, pid: int)
    requires |parts| == |et| && et != []
    ensures var n := |et| - 1;
            Sub(et, parts, pid) ==
            if parts[n] == pid then Sub(et[..n], parts[..n], pid) + [et[n]] else Sub(et[..n], parts[..n], pid)
  {
  }

  /** Whether the last event counts in its partition. */
  ghost function LastHit(size: real, delta: real, et: seq<real>, parts: seq<int>): nat
    requires size > 0.0 && |parts| == |et| && et != []
  {
    var n := |et| - 1;
    if OnTimeAfter(size, delta, RunningMax(Sub(et[..n], parts[..n], parts[n])), et[n]) then 1 else 0
  }

  lemma SweepLast(size: real, delta: real, et: seq<real>, parts: seq<int>, pid: int)
    requires size > 0.0 && |parts| == |et| && et != []
    ensures var n := |et| - 1;
            SweepOnTime(size, delta, Sub(et, parts, pid)) ==
            SweepOnTime(size, delta, Sub(et[..n], parts[..n], pid)) +
            if parts[n] == pid then LastHit(size, delta, et, parts) else 0
  {
    var n := |et| - 1;
    SubLast(et, parts, pid);
    SweepSnoc(size, delta, Sub(et[..n], parts[..n], pid), et[n]);
    hide Sub, SweepOnTime, RunningMax, OnTimeAfter;
  }

  lemma {:induction false} PartSumSnoc(size: real, delta: real, et: seq<real>, parts: seq<int>, k: nat)
    requires size > 0.0 && |parts| == |et| && et != []
    ensures var n := |et| - 1;
            PartSum(size, delta, et, parts, k) ==
            PartSum(size, delta, et[..n], parts[..n], k) +
            if 0 <= parts[n] < k then LastHit(size, delta, et, parts) else 0
  {
    if k > 0 {
      PartSumSnoc(size, delta, et, parts, k - 1);
      SweepLast(size, delta, et, parts, k - 1);
      hide Sub, SweepOnTime, LastHit;
    }
  }

  lemma {:induction false} PartitionsNeverLoseMore(size: real, delta: real, et: seq<real>, parts: seq<int>)
    requires size > 0.0 && |parts| == |et| && forall i :: 0 <= i < |parts| ==> 0 <= parts[i] < PARTITIONS
    ensures PartSum(size, delta, et, parts, PARTITIONS) >= SweepOnTime(size, delta, et)
  {
    if et != [] {
      var n := |et| - 1;
      PartitionsNeverLoseMore(size, delta, et[..n], parts[..n]);
      PartSumSnoc(size, delta, et, parts, PARTITIONS);
      SubMaxBelow(et[..n], parts[..n], parts[n]);
    }
  }

  // ------------------------------------------------------------------
  // The sweep is the online engine
  // ------------------------------------------------------------------

  ghost function EventTimes(ops: seq<Op>): seq<real> {
    if ops == [] then [] else
      var op := ops[|ops| - 1];
      if op.Arrive? then EventTimes(ops[..|ops| - 1]) + [op.e.time] else EventTimes(ops[..|ops| - 1])
  }

  ghost function ArrivedIds(ops: seq<Op>): set<string> {
    if ops == [] then {} else
      var op := ops[|ops| - 1];
      ArrivedIds(ops[..|ops| - 1]) + if op.Arrive? then {op.e.id} else {}
  }

  /** Fresh ids, no queue drops, no flush, and no global watermark ahead of the local one. */
  ghost predicate CleanTrace(p: Params, ops: seq<Op>) {
    forall i | 0 <= i < |ops| ::
      && !ops[i].FlushAll?
      && (ops[i].Hear? ==> ops[i].g.Le(MaxCommit(ops[..i]).Minus(p.delta)))
      && (ops[i].Arrive? ==> ops[i].queueLen <= p.maxQueue && ops[i].e.id !in ArrivedIds(ops[..i]))
  }

  /** No punctuation runs ahead of the events already fed. */
  ghost predicate PunctuationBehind(ops: seq<Op>) {
    forall i | 0 <= i < |ops| && ops[i].Arrive? :: MaxCommit(ops[..i]).Le(RunningMax(EventTimes(ops[..i])))
  }

  /** Every event is preceded by the punctuation of the running maximum. */
  ghost predicate PunctuationExact(ops: seq<Op>) {
    forall i | 0 <= i < |ops| && ops[i].Arrive? :: MaxCommit(ops[..i]) == RunningMax(EventTimes(ops[..i]))
  }

  lemma CleanPrefix(p: Params, ops: seq<Op>, n: nat)
    requires CleanTrace(p, ops) && n <= |ops|
    ensures CleanTrace(p, ops[..n]) && NoFlush(ops[..n]) && Paced(p, ops[..n])
  {
    forall i | 0 <= i < n ensures ops[..n][..i] == ops[..i] {
    }
  }

  lemma PunctuationPrefix(ops: seq<Op>, n: nat)
    requires n <= |ops|
    ensures PunctuationBehind(ops) ==> PunctuationBehind(ops[..n])
    ensures PunctuationExact(ops) ==> PunctuationExact(ops[..n])
  {
    forall i | 0 <= i < n ensures ops[..n][..i] == ops[..i] {
    }
  }

  lemma {:induction false} AcceptedWereArrived(p: Params, ops: seq<Op>)
    requires p.Valid()
    ensures AcceptedIds(p, ops) <= ArrivedIds(ops)
  {
    if ops != [] {
      AcceptedWereArrived(p, ops[..|ops| - 1]);
    }
  }

  /** A fresh event is accepted exactly when its window has not been passed. */
  lemma FreshFate(p: Params, ops: seq<Op>, e: Event, queueLen: int)
    requires p.Valid() && NoFlush(ops) && Paced(p, ops) && queueLen <= p.maxQueue && e.id !in ArrivedIds(ops)
    ensures Classify(p, Run(p, ops), e, queueLen) ==
            if OnTimeAfter(p.size, p.delta, MaxCommit(ops), e.time) then Accepted else Late
  {
    AcceptedWereArrived(p, ops);
    SeenWereAccepted(p, ops);
    LateIffPassed(p, ops, e.time);
  }

  lemma LastArrival(p: Params, ops: seq<Op>)
    requires ops != [] && ops[|ops| - 1].Arrive? && CleanTrace(p, ops) && PunctuationBehind(ops)
    ensures var n := |ops| - 1;
            && ops[n].queueLen <= p.maxQueue && ops[n].e.id !in ArrivedIds(ops[..n])
            && MaxCommit(ops[..n]).Le(RunningMax(EventTimes(ops[..n])))
            && (PunctuationExact(ops) ==> MaxCommit(ops[..n]) == RunningMax(EventTimes(ops[..n])))
  {
  }

  lemma OnTimeAntitone(size: real, delta: real, a: Ext, b: Ext, t: real)
    requires size > 0.0 && a.Le(b) && OnTimeAfter(size, delta, b, t)
    ensures OnTimeAfter(size, delta, a, t)
  {
  }

  /** On fresh events the engine accepts at least what the sweep counts, and exactly that when each
      event follows a punctuation of the running maximum. */
  lemma {:induction false} SweepBoundsEngine(p: Params, ops: seq<Op>)
    requires p.Valid() && CleanTrace(p, ops) && PunctuationBehind(ops)
    ensures Run(p, ops).metrics.onTime >= SweepOnTime(p.size, p.delta, EventTimes(ops))
    ensures PunctuationExact(ops) ==> Run(p, ops).metrics.onTime == SweepOnTime(p.size, p.delta, EventTimes(ops))
  {
    if ops != [] {
      var n := |ops| - 1;
      CleanPrefix(p, ops, n);
      PunctuationPrefix(ops, n);
      SweepBoundsEngine(p, ops[..n]);
      hide Step, Classify, OnTimeAfter, CleanTrace, Paced, PunctuationBehind, PunctuationExact;
      StepMetrics(p, Run(p, ops[..n]), ops[n]);
      if ops[n].Arrive? {
        LastArrival(p, ops);
        if OnTimeAfter(p.size, p.delta, RunningMax(EventTimes(ops[..n])), ops[n].e.time) {
          OnTimeAntitone(p.size, p.delta, MaxCommit(ops[..n]), RunningMax(EventTimes(ops[..n])), ops[n].e.time);
        }
        FreshFate(p, ops[..n], ops[n].e, ops[n].queueLen);
        SweepSnoc(p.size, p.delta, EventTimes(ops[..n]), ops[n].e.time);
      }
    }
  }

  /** The schedule of the report: after each event a punctuation with the running maximum. */
  ghost function ReportTrace(es: seq<Event>): seq<Op> {
    if es == [] then [] else
      var n := |es| - 1;
      ReportTrace(es[..n]) + [Arrive(es[n], 0, false), Punctuation(MaxTime(es))]
  }

  ghost function Times(es: seq<Event>): seq<real> {
    seq(|es|, i requires 0 <= i < |es| => es[i].time)
  }

  ghost function MaxTime(es: seq<Event>): real
    requires es != []
  {
    MaxIsFinite(Times(es));
    RunningMax(Times(es)).r
  }

  lemma MaxIsFinite(et: seq<real>)
    requires et != []
    ensures RunningMax(et).Fin?
  {
  }

  lemma MaxTimeIs(es: seq<Event>)
    requires es != []
    ensures Fin(MaxTime(es)) == RunningMax(Times(es))
  {
    MaxIsFinite(Times(es));
  }

  lemma TraceSnoc(before: seq<Op>, op: Op)
    ensures var ops := before + [op];
            && EventTimes(ops) == (if op.Arrive? then EventTimes(before) + [op.e.time] else EventTimes(before))
            && ArrivedIds(ops) == ArrivedIds(before) + (if op.Arrive? then {op.e.id} else {})
            && MaxCommit(ops) == if op.Punctuation? then MaxCommit(before).Max(Fin(op.commit)) else MaxCommit(before)
  {
    assert (before + [op])[..|before|] == before;
  }

  lemma CleanSnoc(p: Params, before: seq<Op>, op: Op)
    requires CleanTrace(p, before) && PunctuationExact(before) && !op.FlushAll? && !op.Hear?
    requires op.Arrive? ==> op.queueLen <= p.maxQueue && op.e.id !in ArrivedIds(before)
    requires op.Arrive? ==> MaxCommit(before) == RunningMax(EventTimes(before))
    ensures CleanTrace(p, before + [op]) && PunctuationExact(before + [op])
  {
    hide EventTimes, ArrivedIds, MaxCommit, RunningMax;
    var ops := before + [op];
    assert ops[..|before|] == before;
    forall i | 0 <= i < |before| ensures ops[..i] == before[..i] && ops[i] == before[i] {
    }
  }

  /** One more event and its punctuation keep a trace clean and exact. */
  lemma ExtendExact(p: Params, before: seq<Op>, e: Event, top: real)
    requires CleanTrace(p, before) && PunctuationExact(before) && p.maxQueue >= 0
    requires MaxCommit(before) == RunningMax(EventTimes(before)) && e.id !in ArrivedIds(before)
    requires Fin(top) == RunningMax(EventTimes(before)).Max(Fin(e.time))
    ensures var ops := before + [Arrive(e, 0, false), Punctuation(top)];
            && EventTimes(ops) == EventTimes(before) + [e.time]
            && ArrivedIds(ops) == ArrivedIds(before) + {e.id}
            && MaxCommit(ops) == Fin(top)
            && CleanTrace(p, ops) && PunctuationExact(ops)
  {
    hide CleanTrace, PunctuationExact, EventTimes, ArrivedIds, MaxCommit, RunningMax;
    var arrive, punct := Arrive(e, 0, false), Punctuation(top);
    var mid := before + [arrive];
    TraceSnoc(before, arrive);
    TraceSnoc(mid, punct);
    CleanSnoc(p, before, arrive);
    CleanSnoc(p, mid, punct);
    assert mid + [punct] == before + [arrive, punct];
  }

  ghost predicate FreshIds(es: seq<Event>) {
    forall i, j :: 0 <= i < j < |es| ==> es[i].id != es[j].id
  }

  /** The trace of the report replays `es`, introduces only their ids, and is clean and exact. */
  ghost predicate Replays(p: Params, es: seq<Event>, ops: seq<Op>) {
    && EventTimes(ops) == Times(es)
    && MaxCommit(ops) == RunningMax(Times(es))
    && (forall id :: id in ArrivedIds(ops) ==> exists i :: 0 <= i < |es| && es[i].id == id)
    && CleanTrace(p, ops) && PunctuationExact(ops)
  }

  lemma ReplaysSnoc(p: Params, es: seq<Event>, e: Event, before: seq<Op>)
    requires p.maxQueue >= 0 && Replays(p, es, before) && forall i :: 0 <= i < |es| ==> es[i].id != e.id
    ensures Replays(p, es + [e], before + [Arrive(e, 0, false), Punctuation(MaxTime(es + [e]))])
  {
    var all := es + [e];
    MaxTimeIs(all);
    assert Times(all) == Times(es) + [e.time];
    SweepSnoc(1.0, 0.0, Times(es), e.time);
    hide RunningMax, CleanTrace, PunctuationExact, EventTimes, ArrivedIds, MaxCommit, Times, MaxTime;
    ExtendExact(p, before, e, MaxTime(all));
    forall id | id in ArrivedIds(before) ensures exists i :: 0 <= i < |all| && all[i].id == id {
      var i :| 0 <= i < |es| && es[i].id == id;
      assert all[i].id == id;
    }
    assert all[|es|].id == e.id;
  }

  lemma {:induction false} ReportTraceReplays(p: Params, es: seq<Event>)
    requires p.maxQueue >= 0 && FreshIds(es)
    ensures Replays(p, es, ReportTrace(es))
  {
    if es != [] {
      var n := |es| - 1;
      ReportTraceReplays(p, es[..n]);
      assert es == es[..n] + [es[n]];
      hide Replays, MaxTime;
      ReplaysSnoc(p, es[..n], es[n], ReportTrace(es[..n]));
    }
  }

  /** `sweep_strict_all` counts what the engine accepts when it is fed the same distinct events with a
      punctuation of the running maximum after each one. */
  lemma SweepIsEngine(p: Params, es: seq<Event>)
    requires p.Valid() && p.maxQueue >= 0 && FreshIds(es)
    ensures Run(p, ReportTrace(es)).metrics.onTime == SweepOnTime(p.size, p.delta, Times(es))
  {
    ReportTraceReplays(p, es);
    SweepBoundsEngine(p, ReportTrace(es));
  }
}
