/** Crash-safe output of closed windows (strict/engine.py): the durable steps of closing a window,
    crashes between any two of them, and the recovery scan after a restart, which may crash too. */
module Recovery {
  import opened Sets
  import opened StrictRecords
  import opened StrictSpec

  datatype Rec = Rec(result: WindowResult, eviction: Eviction)

  /** What is deployed, and whether a metadata checkpoint exists at restart. */
  datatype Env = Env(tiered: bool, output: bool, metadata: bool) {
    predicate Complete() {
      tiered && output && metadata
    }
  }

  datatype Point = ToUpload | ToEmit | ToMark | ToPurge

  datatype Pc =
    | Idle
    | Closing(w: real, at: Point)
    | Down
    | Recovering(todo: set<real>)
    | RecoverEmit(w: real, todo: set<real>)

  /** `records` and `files` are durable, `sink` is downstream, `closed` and `known` are memory; `first`
      is history: the result of the first durable record of each window. */
  datatype Sys = Sys(
    records: map<real, Rec>, files: set<real>, sink: map<real, WindowResult>,
    closed: map<real, WindowResult>, known: set<real>, pc: Pc, first: map<real, WindowResult>)

  datatype Action =
    | BeginClose(r: WindowResult)
    | Upload(ok: bool)
    | Emit
    | Mark
    | PurgeRecord
    | Crash(kept: set<real>)
    | Restart
    | RecoverPersist(w: real, ok: bool)
    | RecoverDeliver
    | RecoverDone

  /** The sink is idempotent by window: the first delivery wins. */
  function Deliver(sink: map<real, WindowResult>, w: real, r: WindowResult): map<real, WindowResult> {
    if w in sink then sink else sink[w := r]
  }

  /** The eviction state that recovery writes, and whether the file exists afterwards. */
  function Recovered(env: Env, s: Sys, w: real, ok: bool): (Eviction, bool)
    requires w in s.records
  {
    if !env.tiered then (Uploaded, w in s.files)
    else if w in s.files then
      (Uploaded, true)
    else
      (Uploading, ok)
  }

  predicate Enabled(env: Env, s: Sys, a: Action) {
    match a
    case BeginClose(_) => s.pc.Idle?
    case Upload(_) => s.pc.Closing? && s.pc.at.ToUpload?
    case Emit => s.pc.Closing? && s.pc.at.ToEmit?
    case Mark => s.pc.Closing? && s.pc.at.ToMark?
    case PurgeRecord => s.pc.Closing? && (s.pc.at.ToMark? || s.pc.at.ToPurge?)
    case Crash(_) => true
    case Restart => s.pc.Down?
    case RecoverPersist(w, _) => s.pc.Recovering? && w in s.pc.todo && w in s.records && w in s.closed
    case RecoverDeliver => s.pc.RecoverEmit? && s.pc.w in s.closed
    case RecoverDone => s.pc.Recovering? && forall w :: w in s.pc.todo ==> w !in s.closed
  }

  function Next(env: Env, s: Sys, a: Action): Sys
    requires Enabled(env, s, a)
  {
    match a
    case BeginClose(r) =>
      s.(records := s.records[r.start := Rec(r, Uploading)],
         closed := s.closed[r.start := r],
         first := if r.start in s.first then s.first else s.first[r.start := r],
         pc := Closing(r.start, ToUpload))
    case Upload(ok) =>
      s.(files := if ok && env.tiered then s.files + {s.pc.w} else s.files, pc := Closing(s.pc.w, ToEmit))
    case Emit =>
      if env.output && s.pc.w in s.closed then
        s.(sink := Deliver(s.sink, s.pc.w, s.closed[s.pc.w]), known := s.known + {s.pc.w},
           pc := Closing(s.pc.w, ToMark))
      else s.(pc := Closing(s.pc.w, ToMark))
    case Mark =>
      var w := s.pc.w;
      s.(records := if w in s.closed then s.records[w := Rec(s.closed[w], Uploaded)] else s.records,
         pc := Closing(w, ToPurge))
    case PurgeRecord => s.(records := s.records - {s.pc.w}, pc := Idle)
    case Crash(kept) => s.(closed := map[], known := s.known * kept, pc := Down)
    case Restart =>
      s.(closed := if env.metadata then map w | w in s.records :: s.records[w].result else map[],
         pc := Recovering(s.records.Keys))
    case RecoverPersist(w, ok) =>
      var (eviction, exists_) := Recovered(env, s, w, ok);
      s.(records := s.records[w := Rec(s.closed[w], eviction)],
         files := if exists_ then s.files + {w} else s.files,
         pc := if env.tiered then RecoverEmit(w, s.pc.todo - {w}) else Recovering(s.pc.todo - {w}))
    case RecoverDeliver =>
      var w := s.pc.w;
      if env.output && w !in s.known then
        s.(sink := Deliver(s.sink, w, s.closed[w]), known := s.known + {w}, pc := Recovering(s.pc.todo))
      else s.(pc := Recovering(s.pc.todo))
    case RecoverDone => s.(pc := Idle)
  }

  const FRESH := Sys(map[], {}, map[], map[], {}, Idle, map[])

  ghost predicate Reaches(env: Env, actions: seq<Action>, s: Sys) {
    if actions == [] then s == FRESH else
      var n := |actions| - 1;
      exists r :: Reaches(env, actions[..n], r) && Enabled(env, r, actions[n]) && s == Next(env, r, actions[n])
  }

  // ------------------------------------------------------------------
  // Safety
  // ------------------------------------------------------------------

  /** Delivered windows carry their first durable result, and an undelivered one is still on record. */
  ghost predicate Core(s: Sys) {
    && s.known <= s.sink.Keys
    && (forall w :: w in s.sink ==> w in s.first && s.sink[w] == s.first[w])
    && (forall w :: w in s.records ==> w in s.first)
    && (forall w :: w in s.first && w !in s.sink ==> w in s.records && s.records[w].result == s.first[w])
  }

  ghost predicate ClosedKnowsRecords(s: Sys) {
    forall w :: w in s.records ==> w in s.closed && s.closed[w] == s.records[w].result
  }

  /** Windows that may still be undelivered at each control point. */
  ghost predicate PendingOnly(s: Sys) {
    match s.pc
    case Idle => forall w :: w in s.first ==> w in s.sink
    case Closing(v, at) =>
      && v in s.records
      && (forall w :: w in s.first ==> w in s.sink || w == v)
      && (at.ToMark? || at.ToPurge? ==> v in s.sink)
    case Down => true
    case Recovering(todo) =>
      todo <= s.records.Keys && forall w :: w in s.first ==> w in s.sink || w in todo
    case RecoverEmit(v, todo) =>
      v in s.records && todo <= s.records.Keys && forall w :: w in s.first ==> w in s.sink || w in todo || w == v
  }

  ghost predicate Inv(s: Sys) {
    Core(s) && PendingOnly(s) && (!s.pc.Down? ==> ClosedKnowsRecords(s))
  }

  lemma CloseKeepsInv(env: Env, s: Sys, a: Action)
    requires env.Complete() && Inv(s) && Enabled(env, s, a)
    requires a.BeginClose? || a.Upload? || a.Emit? || a.Mark? || a.PurgeRecord?
    ensures Inv(Next(env, s, a))
  {
  }

  lemma RestartKeepsInv(env: Env, s: Sys, a: Action)
    requires env.Complete() && Inv(s) && Enabled(env, s, a)
    requires a.Crash? || a.Restart? || a.RecoverDone?
    ensures Inv(Next(env, s, a))
  {
  }

  lemma RecoverKeepsInv(env: Env, s: Sys, a: Action)
    requires env.Complete() && Inv(s) && Enabled(env, s, a)
    requires a.RecoverPersist? || a.RecoverDeliver?
    ensures Inv(Next(env, s, a))
  {
  }

  lemma {:induction false} ReachableInv(env: Env, actions: seq<Action>, s: Sys)
    requires env.Complete() && Reaches(env, actions, s)
    ensures Inv(s)
    decreases |actions|
  {
    if actions != [] {
      var n := |actions| - 1;
      var r :| Reaches(env, actions[..n], r) && Enabled(env, r, actions[n]) && s == Next(env, r, actions[n]);
      ReachableInv(env, actions[..n], r);
      hide Inv, Next, Enabled;
      match actions[n]
      case BeginClose(_) => CloseKeepsInv(env, r, actions[n]);
      case Upload(_) => CloseKeepsInv(env, r, actions[n]);
      case Emit => CloseKeepsInv(env, r, actions[n]);
      case Mark => CloseKeepsInv(env, r, actions[n]);
      case PurgeRecord => CloseKeepsInv(env, r, actions[n]);
      case Crash(_) => RestartKeepsInv(env, r, actions[n]);
      case Restart => RestartKeepsInv(env, r, actions[n]);
      case RecoverDone => RestartKeepsInv(env, r, actions[n]);
      case RecoverPersist(_, _) => RecoverKeepsInv(env, r, actions[n]);
      case RecoverDeliver => RecoverKeepsInv(env, r, actions[n]);
    }
  }

  /** With tiered storage, an output manager and checkpoint metadata: whatever crashes happened, when
      the engine is idle again every window that ever had a durable record has been delivered with the
      counts of its first one; and at no moment does the sink hold anything else. */
  lemma CrashSafeOutput(env: Env, actions: seq<Action>, s: Sys)
    requires env.Complete() && Reaches(env, actions, s)
    ensures forall w :: w in s.sink ==> w in s.first && s.sink[w] == s.first[w]
    ensures s.pc.Idle? ==> s.sink == s.first
  {
    ReachableInv(env, actions, s);
    if s.pc.Idle? {
      SameByTime(s.sink, s.first);
    }
  }

  // ------------------------------------------------------------------
  // What recovery says of the files
  // ------------------------------------------------------------------

  /** During a scan with tiered storage: a window already scanned is recorded as uploaded only if its file exists. */
  ghost predicate Confirmed(s: Sys) {
    match s.pc
    case Recovering(todo) =>
      forall w :: w in s.records && w in s.closed && w !in todo && s.records[w].eviction.Uploaded? ==> w in s.files
    case RecoverEmit(_, todo) =>
      forall w :: w in s.records && w in s.closed && w !in todo && s.records[w].eviction.Uploaded? ==> w in s.files
    case _ => true
  }

  lemma {:induction false} ScanConfirms(env: Env, actions: seq<Action>, s: Sys)
    requires env.tiered && Reaches(env, actions, s)
    ensures Confirmed(s)
    decreases |actions|
  {
    if actions != [] {
      var n := |actions| - 1;
      var r :| Reaches(env, actions[..n], r) && Enabled(env, r, actions[n]) && s == Next(env, r, actions[n]);
      ScanConfirms(env, actions[..n], r);
      hide Reaches, Next, Enabled, Confirmed;
      ConfirmStep(env, r, actions[n]);
    }
  }

  lemma ConfirmStep(env: Env, s: Sys, a: Action)
    requires env.tiered && Confirmed(s) && Enabled(env, s, a)
    ensures Confirmed(Next(env, s, a))
  {
  }

  /** Scanning one window: its record then says uploaded exactly when there is no tiered storage or its file was there,
      and its file is there afterwards exactly when it was before or the new upload succeeds. */
  lemma ScanOne(env: Env, s: Sys, w: real, ok: bool)
    requires Enabled(env, s, RecoverPersist(w, ok))
    ensures var t := Next(env, s, RecoverPersist(w, ok));
            && t.records[w].result == s.closed[w]
            && (t.records[w].eviction.Uploaded? <==> !env.tiered || w in s.files)
            && (w in t.files <==> w in s.files || (env.tiered && ok))
  {
  }

  /** Uploading at closing: the file is there afterwards exactly when it was before or the upload to tiered storage
      succeeds; and no step of any kind removes a file. */
  lemma FilesGrow(env: Env, s: Sys, a: Action)
    requires Enabled(env, s, a)
    ensures s.files <= Next(env, s, a).files
    ensures a.Upload? ==> (s.pc.w in Next(env, s, a).files <==> s.pc.w in s.files || (env.tiered && a.ok))
  {
  }

  /** When a scan with tiered storage ends, every scanned window that is recorded as uploaded has its file. */
  lemma RecoveryConfirms(env: Env, actions: seq<Action>, s: Sys, w: real)
    requires env.tiered && Reaches(env, actions, s) && s.pc.Recovering? && Enabled(env, s, RecoverDone)
    requires w in s.records && w in s.closed && s.records[w].eviction.Uploaded?
    ensures w in s.files
  {
    ScanConfirms(env, actions, s);
    hide Reaches;
  }

  // ------------------------------------------------------------------
  // When recovery delivers
  // ------------------------------------------------------------------

  /** A recovery that runs to its end without a crash, whatever the uploads do. */
  ghost predicate RecoversTo(env: Env, s: Sys, actions: seq<Action>, t: Sys)
    decreases |actions|
  {
    if actions == [] then s == t && s.pc.Idle?
    else
      && (actions[0].RecoverPersist? || actions[0].RecoverDeliver? || actions[0].RecoverDone?)
      && Enabled(env, s, actions[0]) && RecoversTo(env, Next(env, s, actions[0]), actions[1..], t)
  }

  /** The windows recovery will hand over from this point on. */
  ghost predicate WillDeliver(env: Env, s: Sys, w: real) {
    || w in s.sink
    || (env.tiered && env.output && w in s.closed && w !in s.known &&
        ((s.pc.Recovering? && w in s.pc.todo) || (s.pc.RecoverEmit? && (w == s.pc.w || w in s.pc.todo))))
  }

  lemma StepWillDeliver(env: Env, s: Sys, a: Action, w: real)
    requires Enabled(env, s, a) && (a.RecoverPersist? || a.RecoverDeliver? || a.RecoverDone?)
    requires s.pc.RecoverEmit? ==> env.tiered
    ensures WillDeliver(env, s, w) <==> WillDeliver(env, Next(env, s, a), w)
    ensures Next(env, s, a).pc.RecoverEmit? ==> env.tiered
  {
  }

  lemma {:induction false} RecoveryDelivers(env: Env, s: Sys, actions: seq<Action>, t: Sys, w: real)
    requires RecoversTo(env, s, actions, t)
    requires s.pc.RecoverEmit? ==> env.tiered
    ensures w in t.sink <==> WillDeliver(env, s, w)
    decreases |actions|
  {
    if actions != [] {
      StepWillDeliver(env, s, actions[0], w);
      RecoveryDelivers(env, Next(env, s, actions[0]), actions[1..], t, w);
    }
  }

  /** A recorded window that had not reached the sink when the engine went down is delivered by a
      complete recovery exactly when tiered storage, output manager and metadata are all present. */
  lemma RecoveryDeliversIff(env: Env, s: Sys, actions: seq<Action>, t: Sys, w: real)
    requires s.pc.Down? && w in s.records && w !in s.sink && w !in s.known
    requires RecoversTo(env, Next(env, s, Restart), actions, t)
    ensures w in t.sink <==> env.Complete()
  {
    RecoveryDelivers(env, Next(env, s, Restart), actions, t, w);
  }

  // ------------------------------------------------------------------
  // A recovery can always be completed
  // ------------------------------------------------------------------

  lemma {:induction false} ScanCompletes(env: Env, s: Sys) returns (actions: seq<Action>, t: Sys)
    requires s.pc.Recovering? && forall w :: w in s.closed ==> w in s.records
    ensures RecoversTo(env, s, actions, t)
    decreases s.pc.todo
  {
    if forall w :: w in s.pc.todo ==> w !in s.closed {
      actions, t := [RecoverDone], Next(env, s, RecoverDone);
      assert RecoversTo(env, t, [], t);
    } else {
      var w :| w in s.pc.todo && w in s.closed;
      var persist := RecoverPersist(w, true);
      var u := Next(env, s, persist);
      if env.tiered {
        var more, v := ScanCompletes(env, Next(env, u, RecoverDeliver));
        RecoversCons(env, u, RecoverDeliver, more, v);
        RecoversCons(env, s, persist, [RecoverDeliver] + more, v);
        actions, t := [persist] + ([RecoverDeliver] + more), v;
      } else {
        var more, v := ScanCompletes(env, u);
        RecoversCons(env, s, persist, more, v);
        actions, t := [persist] + more, v;
      }
    }
  }

  lemma RecoversCons(env: Env, s: Sys, a: Action, more: seq<Action>, t: Sys)
    requires a.RecoverPersist? || a.RecoverDeliver? || a.RecoverDone?
    requires Enabled(env, s, a) && RecoversTo(env, Next(env, s, a), more, t)
    ensures RecoversTo(env, s, [a] + more, t)
  {
    assert ([a] + more)[1..] == more;
    hide Next, Enabled;
  }

  lemma {:induction false} RecoversToKeepsInv(env: Env, s: Sys, actions: seq<Action>, t: Sys)
    requires env.Complete() && Inv(s) && RecoversTo(env, s, actions, t)
    ensures Inv(t) && t.first == s.first
    decreases |actions|
  {
    if actions != [] {
      var a := actions[0];
      if a.RecoverDone? {
        RestartKeepsInv(env, s, a);
      } else {
        RecoverKeepsInv(env, s, a);
      }
      assert Next(env, s, a).first == s.first;
      hide Inv, Next, Enabled;
      RecoversToKeepsInv(env, Next(env, s, a), actions[1..], t);
    }
  }

  /** After a crash at any point of any run the recovery scan can be completed, whatever is deployed; and with
      tiered storage, output manager and metadata it then has delivered every window that ever had a durable
      record, with the counts of its first one. */
  lemma RecoveryCanComplete(env: Env, before: seq<Action>, s: Sys) returns (actions: seq<Action>, t: Sys)
    requires Reaches(env, before, s) && s.pc.Down?
    ensures RecoversTo(env, Next(env, s, Restart), actions, t)
    ensures env.Complete() ==> t.sink == s.first
  {
    actions, t := ScanCompletes(env, Next(env, s, Restart));
    if env.Complete() {
      ReachableInv(env, before, s);
      RestartKeepsInv(env, s, Restart);
      RecoversToKeepsInv(env, Next(env, s, Restart), actions, t);
      CompletedIsIdle(env, Next(env, s, Restart), actions, t);
      SameByTime(t.sink, t.first);
    }
  }

  lemma {:induction false} CompletedIsIdle(env: Env, s: Sys, actions: seq<Action>, t: Sys)
    requires RecoversTo(env, s, actions, t)
    ensures t.pc.Idle?
    decreases |actions|
  {
    if actions != [] {
      hide Next, Enabled;
      CompletedIsIdle(env, Next(env, s, actions[0]), actions[1..], t);
    }
  }
}
