/** The heuristic aggregator on values (heuristic/aggregator.py). The age thresholds are the coordinator's. */
module AggregatorSpec {
  import opened CoordinatorSpec
  import opened Extended
  import opened GuardedMin

  datatype PartitionWatermark = PartitionWatermark(worker: string, wH: Ext, lastUpdate: real, status: Status)

  datatype Report = Report(worker: string, partition: int, wH: Ext)

  datatype Agg = Agg(parts: map<int, PartitionWatermark>, wGlobal: Ext, wPrev: Ext)

  const AGG_INIT := Agg(map[], NegInf, NegInf)

  function Recorded(parts: map<int, PartitionWatermark>, r: Report, now: real): map<int, PartitionWatermark> {
    var w := if r.partition in parts then parts[r.partition].wH.Max(r.wH) else r.wH;
    parts[r.partition := PartitionWatermark(r.worker, w, now, Active)]
  }

  function Aged(parts: map<int, PartitionWatermark>, now: real): map<int, PartitionWatermark> {
    map p | p in parts :: parts[p].(status := StatusAt(now - parts[p].lastUpdate))
  }

  function WatermarksOf(parts: map<int, PartitionWatermark>): LocalWatermarks {
    map p | p in parts :: parts[p].wH
  }

  /** Unlike the coordinator, the aggregator leaves idle partitions out. */
  function Live(parts: map<int, PartitionWatermark>): (s: set<int>)
    ensures s <= parts.Keys
  {
    set p | p in parts && (parts[p].status.Active? || parts[p].status.Stale?)
  }

  ghost function Recompute(g: Agg): Agg {
    if Live(g.parts) == {} then g else
      var w := Guard(g.wPrev, WatermarksOf(g.parts), Live(g.parts));
      g.(wGlobal := w, wPrev := w)
  }

  /** `receive_worker_watermark`; `now` and `later` are its two readings of the clock. */
  ghost function ReceiveReport(g: Agg, r: Report, now: real, later: real): Agg {
    Recompute(g.(parts := Aged(Recorded(g.parts, r, now), later)))
  }
}
