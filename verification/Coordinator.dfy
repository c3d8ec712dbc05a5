/** The coordinator object (strict/coordinator.py). Clock readings are parameters. */
module Coordinator {
  import opened CoordinatorSpec
  import opened Extended
  import opened GuardedMin
  import opened Sets

  class StrictCoordinator {
    var partitions: map<int, PartitionInfo>
    var wGlobal: Ext
    var wGlobalPrev: Ext
    var term: int
    var fencingTokens: map<string, int>
    var fencingViolations: nat
    var workerLastSeen: map<string, real>

    ghost function Abs(): Coord
      reads this
    {
      Coord(partitions, wGlobal, wGlobalPrev, term, fencingTokens, fencingViolations, workerLastSeen)
    }

    constructor ()
      ensures Abs() == COORD_INIT
    {
      partitions, wGlobal, wGlobalPrev, term := map[], NegInf, NegInf, 0;
      fencingTokens, fencingViolations, workerLastSeen := map[], 0, map[];
    }

    method ReceiveHeartbeat(hb: Heartbeat, now: real, later: real)
      modifies this
      ensures Abs() == Receive(old(Abs()), hb, now, later)
    {
      if hb.worker in fencingTokens {
        if hb.token < fencingTokens[hb.worker] {
          fencingViolations := fencingViolations + 1;
          return;
        }
      }
      var seen := if hb.worker in fencingTokens then fencingTokens[hb.worker] else 0;
      fencingTokens := fencingTokens[hb.worker := if seen >= hb.token then seen else hb.token];
      if hb.token > term {
        term := hb.token;
      }
      workerLastSeen := workerLastSeen[hb.worker := now];
      RecordReports(hb, now);
      UpdateStatuses(later);
      ComputeGlobalWatermark();
    }

    /** The loop over the reported partitions. */
    method RecordReports(hb: Heartbeat, now: real)
      modifies this`partitions
      ensures partitions == Reported(old(partitions), hb, now)
    {
      var todo := hb.partitions.Keys;
      ghost var before := partitions;
      while todo != {}
        invariant todo <= hb.partitions.Keys
        invariant partitions.Keys == before.Keys + (hb.partitions.Keys - todo)
        invariant forall p :: p in partitions ==>
                    partitions[p] == if p in hb.partitions && p !in todo then Report(before, hb, p, now) else before[p]
        decreases todo
      {
        ghost var some := Pick(todo);
        var p :| p in todo;
        var w := hb.partitions[p];
        if p !in partitions {
          partitions := partitions[p := PartitionInfo(hb.worker, w, now, Active, p in hb.idle)];
        } else {
          var info := partitions[p];
          partitions := partitions[p := info.(watermark := info.watermark.Max(w), lastUpdate := now,
                                              worker := hb.worker, status := Active, temporaryIdle := p in hb.idle)];
        }
        todo := todo - {p};
      }
      SameByPartition(partitions, Reported(before, hb, now));
    }

    method UpdateStatuses(now: real)
      modifies this`partitions
      ensures partitions == WithStatuses(old(partitions), now)
    {
      var todo := partitions.Keys;
      while todo != {}
        invariant todo <= partitions.Keys == old(partitions).Keys
        invariant forall p :: p in partitions ==>
                    partitions[p] == if p in todo then old(partitions)[p] else WithStatuses(old(partitions), now)[p]
        decreases todo
      {
        ghost var some := Pick(todo);
        var p :| p in todo;
        var age := now - partitions[p].lastUpdate;
        var status := if age <= 0.5 then Active else if age <= 2.0 then Stale else if age <= 30.0 then Idle else Failed;
        partitions := partitions[p := partitions[p].(status := status)];
        todo := todo - {p};
      }
      SameByPartition(partitions, WithStatuses(old(partitions), now));
    }

    method ComputeGlobalWatermark()
      modifies this`wGlobal, this`wGlobalPrev
      ensures Abs() == ComputeGlobal(old(Abs()))
    {
      var counted := Counted(partitions);
      if counted != {} {
        var candidate := LeastWatermark(Locals(partitions), counted);
        GuardIs(wGlobalPrev, Locals(partitions), counted, candidate);
        wGlobal := wGlobalPrev.Max(candidate);
        wGlobalPrev := wGlobal;
      }
    }
  }
}
