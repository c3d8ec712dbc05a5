/** The strict watermark engine as a state machine on values (strict/engine.py). */
module StrictSpec {
  import opened Extended
  import opened Sorting
  import Window

  datatype Event = Event(id: string, time: real, status: int)

  datatype WindowState = WindowState(count: nat, status500: nat)

  datatype WindowResult = WindowResult(partition: int, start: real, end: real, count: nat, status500: nat)

  datatype Metrics = Metrics(
    totalReceived: nat, onTime: nat, lateDropped: nat, duplicates: nat, backpressureDrops: nat,
    nonMonotonicPunctuation: nat, punctuationTotal: nat)

  datatype Params = Params(size: real, delta: real, maxQueue: int, partition: int) {
    predicate Valid() {
      size > 0.0
    }
  }

  const DEDUP_TTL: real := 60.0

  datatype State = State(
    lastCommit: Ext, localWatermark: Ext, watermark: Ext, maxEventTime: Ext,
    open: map<real, WindowState>, closed: map<real, WindowResult>, seen: map<string, real>,
    metrics: Metrics, emitted: seq<WindowResult>)

  const NO_COUNTS := Metrics(0, 0, 0, 0, 0, 0, 0)
  const INIT := State(NegInf, NegInf, NegInf, NegInf, map[], map[], map[], NO_COUNTS, [])

  // ------------------------------------------------------------------
  // Closing windows
  // ------------------------------------------------------------------

  function ResultOf(p: Params, w: real, st: WindowState): WindowResult {
    WindowResult(p.partition, w, w + p.size, st.count, st.status500)
  }

  function Closing(p: Params, open: map<real, WindowState>, watermark: Ext): set<real> {
    set w | w in open && Fin(w + p.size).Le(watermark)
  }

  /** The results of the windows `ws`, in that order. */
  ghost function Results(p: Params, open: map<real, WindowState>, ws: seq<real>): (rs: seq<WindowResult>)
    requires forall w :: w in ws ==> w in open
    ensures |rs| == |ws| && forall i :: 0 <= i < |ws| ==> rs[i] == ResultOf(p, ws[i], open[ws[i]])
  {
    seq(|ws|, i requires 0 <= i < |ws| => assert ws[i] in ws; ResultOf(p, ws[i], open[ws[i]]))
  }

  /** Windows `ws` leave the open set, become closed, and are emitted in increasing order. */
  ghost function Close(p: Params, s: State, ws: set<real>): State
    requires ws <= s.open.Keys
  {
    s.(open := s.open - ws,
       closed := s.closed + map w | w in ws :: ResultOf(p, w, s.open[w]),
       emitted := s.emitted + Results(p, s.open, Sorted(ws)))
  }

  ghost function Advance(p: Params, s: State): State {
    Close(p, s.(watermark := s.localWatermark), Closing(p, s.open, s.localWatermark))
  }

  ghost function Flush(p: Params, s: State): State {
    Close(p, s, s.open.Keys)
  }

  // ------------------------------------------------------------------
  // Events, punctuation, purging
  // ------------------------------------------------------------------

  datatype Outcome = Accepted | Late | Duplicate | QueueFull

  function StartOf(p: Params, e: Event): real
    requires p.Valid()
  {
    Window.Start(p.size, e.time)
  }

  predicate IsLate(p: Params, s: State, t: real)
    requires p.Valid()
  {
    Fin(Window.Start(p.size, t) + p.size).Le(s.watermark) || Window.Start(p.size, t) in s.closed
  }

  /** The fate of an event: queue first, then the watermark filter, then the id filter. */
  function Classify(p: Params, s: State, e: Event, queueLen: int): Outcome
    requires p.Valid()
  {
    if queueLen > p.maxQueue then QueueFull
    else if IsLate(p, s, e.time) then Late
    else if e.id in s.seen then Duplicate
    else Accepted
  }

  function CountEvent(st: WindowState, e: Event): WindowState {
    WindowState(st.count + 1, st.status500 + if e.status == 500 then 1 else 0)
  }

  ghost function Accept(p: Params, s: State, e: Event): State
    requires p.Valid()
  {
    var w := StartOf(p, e);
    var st := if w in s.open then s.open[w] else WindowState(0, 0);
    s.(seen := s.seen[e.id := e.time],
       maxEventTime := s.maxEventTime.Max(Fin(e.time)),
       open := s.open[w := CountEvent(st, e)],
       metrics := s.metrics.(onTime := s.metrics.onTime + 1))
  }

  /** `process`; `checkpointDue` is the outcome of the ten-second clock test. */
  ghost function Process(p: Params, s0: State, e: Event, queueLen: int, checkpointDue: bool): State
    requires p.Valid()
  {
    var s := s0.(metrics := s0.metrics.(totalReceived := s0.metrics.totalReceived + 1));
    match Classify(p, s, e, queueLen)
    case QueueFull => s.(metrics := s.metrics.(backpressureDrops := s.metrics.backpressureDrops + 1))
    case Late => s.(metrics := s.metrics.(lateDropped := s.metrics.lateDropped + 1))
    case Duplicate => s.(metrics := s.metrics.(duplicates := s.metrics.duplicates + 1))
    case Accepted =>
      var a := Advance(p, Accept(p, s, e));
      if checkpointDue then Purge(a) else a
  }

  ghost function Punctuate(p: Params, s0: State, commit: real): State {
    var s := s0.(metrics := s0.metrics.(punctuationTotal := s0.metrics.punctuationTotal + 1));
    if s.lastCommit.Lt(Fin(commit)) then
      Advance(p, s.(lastCommit := Fin(commit), localWatermark := Fin(commit - p.delta)))
    else
      s.(metrics := s.metrics.(nonMonotonicPunctuation := s.metrics.nonMonotonicPunctuation + 1))
  }

  /** The reference time of a purge: the watermark, or the newest event while there is none. */
  function PurgeBase(s: State): Ext {
    if s.watermark.NegInf? then s.maxEventTime else s.watermark
  }

  function Expired(s: State): set<string> {
    set id | id in s.seen && Fin(s.seen[id]).Lt(PurgeBase(s).Minus(DEDUP_TTL))
  }

  function Purge(s: State): State {
    s.(seen := s.seen - Expired(s))
  }

  // ------------------------------------------------------------------
  // Runs
  // ------------------------------------------------------------------

  /** What happens to an engine. `Hear` is the global watermark that the worker writes into its engines. */
  datatype Op =
    | Arrive(e: Event, queueLen: int, checkpointDue: bool)
    | Punctuation(commit: real)
    | Checkpoint
    | FlushAll
    | Hear(g: Ext)

  ghost function Step(p: Params, s: State, op: Op): State
    requires p.Valid()
  {
    match op
    case Arrive(e, queueLen, due) => Process(p, s, e, queueLen, due)
    case Punctuation(commit) => Punctuate(p, s, commit)
    case Checkpoint => Purge(s)
    case FlushAll => Flush(p, s)
    case Hear(g) => s.(watermark := s.watermark.Max(g))
  }

  ghost function Run(p: Params, ops: seq<Op>): State
    requires p.Valid()
  {
    if ops == [] then INIT else Step(p, Run(p, ops[..|ops| - 1]), ops[|ops| - 1])
  }

  ghost predicate NoFlush(ops: seq<Op>) {
    forall i | 0 <= i < |ops| :: !ops[i].FlushAll?
  }

  lemma EmptyRun(p: Params)
    requires p.Valid()
    ensures Run(p, []) == INIT
  {
  }

  lemma RunSnoc(p: Params, ops: seq<Op>, op: Op)
    requires p.Valid()
    ensures Run(p, ops + [op]) == Step(p, Run(p, ops), op)
  {
    assert (ops + [op])[..|ops|] == ops;
  }

  /** The fate of the last operation of a run, when it is an event. */
  ghost function LastOutcome(p: Params, ops: seq<Op>): Outcome
    requires p.Valid() && ops != [] && ops[|ops| - 1].Arrive?
  {
    var op := ops[|ops| - 1];
    Classify(p, Run(p, ops[..|ops| - 1]), op.e, op.queueLen)
  }

  /** How many events of a run met the fate `o`. */
  ghost function CountOutcomes(p: Params, ops: seq<Op>, o: Outcome): nat
    requires p.Valid()
  {
    if ops == [] then 0 else
      CountOutcomes(p, ops[..|ops| - 1], o) +
      if ops[|ops| - 1].Arrive? && LastOutcome(p, ops) == o then 1 else 0
  }

  /** The accepted events of a run, in order. */
  ghost function AcceptedEvents(p: Params, ops: seq<Op>): seq<Event>
    requires p.Valid()
  {
    if ops == [] then [] else
      var rest := AcceptedEvents(p, ops[..|ops| - 1]);
      var op := ops[|ops| - 1];
      if op.Arrive? && LastOutcome(p, ops) == Accepted then rest + [op.e] else rest
  }

  /** The counters the events `es` give to window `w`. */
  ghost function Tally(p: Params, es: seq<Event>, w: real): WindowState
    requires p.Valid()
  {
    if es == [] then WindowState(0, 0) else
      var rest := Tally(p, es[..|es| - 1], w);
      var e := es[|es| - 1];
      if StartOf(p, e) == w then CountEvent(rest, e) else rest
  }
}
