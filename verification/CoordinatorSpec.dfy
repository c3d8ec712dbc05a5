/** The strict coordinator on values (strict/coordinator.py). */
module CoordinatorSpec {
  import opened Extended
  import opened GuardedMin

  datatype Status = Active | Stale | Idle | Failed

  datatype PartitionInfo = PartitionInfo(
    worker: string, watermark: Ext, lastUpdate: real, status: Status, temporaryIdle: bool)

  datatype Heartbeat = Heartbeat(worker: string, partitions: map<int, Ext>, token: int, idle: set<int>)

  datatype Coord = Coord(
    parts: map<int, PartitionInfo>, wGlobal: Ext, wPrev: Ext, term: int,
    tokens: map<string, int>, violations: nat, lastSeen: map<string, real>)

  const COORD_INIT := Coord(map[], NegInf, NegInf, 0, map[], 0, map[])

  function StatusAt(age: real): Status {
    if age <= 0.5 then Active else if age <= 2.0 then Stale else if age <= 30.0 then Idle else Failed
  }

  predicate Fresh(c: Coord, hb: Heartbeat) {
    hb.worker in c.tokens ==> hb.token >= c.tokens[hb.worker]
  }

  /** One entry of a heartbeat. */
  function Report(parts: map<int, PartitionInfo>, hb: Heartbeat, p: int, now: real): PartitionInfo
    requires p in hb.partitions
  {
    var w := hb.partitions[p];
    PartitionInfo(hb.worker, if p in parts then parts[p].watermark.Max(w) else w, now, Active, p in hb.idle)
  }

  function Reported(parts: map<int, PartitionInfo>, hb: Heartbeat, now: real): map<int, PartitionInfo> {
    map p | p in parts.Keys + hb.partitions.Keys ::
      if p in hb.partitions then Report(parts, hb, p, now) else parts[p]
  }

  function WithStatuses(parts: map<int, PartitionInfo>, now: real): map<int, PartitionInfo> {
    map p | p in parts :: parts[p].(status := StatusAt(now - parts[p].lastUpdate))
  }

  function Locals(parts: map<int, PartitionInfo>): map<int, Ext> {
    map p | p in parts :: parts[p].watermark
  }

  /** The partitions the minimum ranges over: not failed and not temporarily idle. */
  function Counted(parts: map<int, PartitionInfo>): (s: set<int>)
    ensures s <= parts.Keys
  {
    set p | p in parts && !parts[p].status.Failed? && !parts[p].temporaryIdle
  }

  ghost function ComputeGlobal(c: Coord): Coord {
    if Counted(c.parts) == {} then c else
      var w := Guard(c.wPrev, Locals(c.parts), Counted(c.parts));
      c.(wGlobal := w, wPrev := w)
  }

  /** `receive_heartbeat`; `now` and `later` are its two readings of the clock. */
  ghost function Receive(c: Coord, hb: Heartbeat, now: real, later: real): Coord {
    if !Fresh(c, hb) then c.(violations := c.violations + 1) else
      var seen := if hb.worker in c.tokens then c.tokens[hb.worker] else 0;
      var token := if seen >= hb.token then seen else hb.token;
      ComputeGlobal(c.(
        tokens := c.tokens[hb.worker := token],
        term := if hb.token > c.term then hb.token else c.term,
        lastSeen := c.lastSeen[hb.worker := now],
        parts := WithStatuses(Reported(c.parts, hb, now), later)))
  }
}
