/** The aggregator object (heuristic/aggregator.py). Clock readings are parameters. */
module Aggregator {
  import opened AggregatorSpec
  import opened CoordinatorSpec
  import opened Extended
  import opened GuardedMin
  import opened Sets

  class HeuristicAggregator {
    var partitions: map<int, PartitionWatermark>
    var wGlobalH: Ext
    var wGlobalHPrev: Ext

    ghost function Abs(): Agg
      reads this
    {
      Agg(partitions, wGlobalH, wGlobalHPrev)
    }

    constructor ()
      ensures Abs() == AGG_INIT
    {
      partitions, wGlobalH, wGlobalHPrev := map[], NegInf, NegInf;
    }

    method ReceiveWorkerWatermark(r: Report, now: real, later: real)
      modifies this
      ensures Abs() == ReceiveReport(old(Abs()), r, now, later)
    {
      if r.partition !in partitions {
        partitions := partitions[r.partition := PartitionWatermark(r.worker, r.wH, now, Active)];
      } else {
        var p := partitions[r.partition];
        partitions := partitions[r.partition := p.(wH := p.wH.Max(r.wH), lastUpdate := now, worker := r.worker,
                                                   status := Active)];
      }
      UpdateStatuses(later);
      ComputeGlobal();
    }

    method UpdateStatuses(now: real)
      modifies this`partitions
      ensures partitions == Aged(old(partitions), now)
    {
      var todo := partitions.Keys;
      while todo != {}
        invariant todo <= partitions.Keys == old(partitions).Keys
        invariant forall p :: p in partitions ==>
                    partitions[p] == if p in todo then old(partitions)[p] else Aged(old(partitions), now)[p]
        decreases todo
      {
        ghost var some := Pick(todo);
        var p :| p in todo;
        var age := now - partitions[p].lastUpdate;
        var status := if age <= 0.5 then Active else if age <= 2.0 then Stale else if age <= 30.0 then Idle else Failed;
        partitions := partitions[p := partitions[p].(status := status)];
        todo := todo - {p};
      }
      SameByPartition(partitions, Aged(old(partitions), now));
    }

    method ComputeGlobal()
      modifies this`wGlobalH, this`wGlobalHPrev
      ensures Abs() == Recompute(old(Abs()))
    {
      var live := Live(partitions);
      if live != {} {
        var candidate := LeastWatermark(WatermarksOf(partitions), live);
        GuardIs(wGlobalHPrev, WatermarksOf(partitions), live, candidate);
        wGlobalH := wGlobalHPrev.Max(candidate);
        wGlobalHPrev := wGlobalH;
      }
    }
  }
}
