/** The strict engine object with its write-through store (strict/engine.py). The clock tests of the
    source (checkpoint every ten seconds, bulk cleanup every five minutes) are boolean parameters. */
module StrictEngine {
  import opened Extended
  import opened Store
  import opened Sets
  import opened Sorting
  import opened StrictClosing
  import opened StrictRecords
  import opened StrictSpec
  import Window

  class StrictWatermarkEngine {
    const p: Params
    const codec: Codec
    const store: RocksStore<Record>
    var lastCommit: Ext
    var localWatermark: Ext
    var watermark: Ext
    var maxEventTime: Ext
    var openWindows: map<real, WindowState>
    var closedWindows: map<real, WindowResult>
    var seenIds: map<string, real>
    var metrics: Metrics
    /** What was handed to the output manager, in order. */
    var emitted: seq<WindowResult>

    ghost function Abs(): State
      reads this
    {
      State(lastCommit, localWatermark, watermark, maxEventTime, openWindows, closedWindows, seenIds, metrics, emitted)
    }

    /** The stored index equals the open windows and remembered ids in memory, and every record of a closed
        window carries the result in memory. */
    ghost predicate Valid()
      reads this, store
    {
      && p.Valid() && codec.Valid() && codec.size == p.size && store.Valid()
      && Mirrors(codec, store.contents, openWindows, seenIds, closedWindows)
    }

    /** A fresh engine over a store that holds no records of an engine. */
    constructor (p: Params, codec: Codec, store: RocksStore<Record>)
      requires p.Valid() && codec.Valid() && codec.size == p.size && store.Valid()
      requires Mirrors(codec, store.contents, map[], map[], map[])
      ensures Valid() && this.p == p && this.codec == codec && this.store == store && Abs() == INIT
    {
      this.p, this.codec, this.store := p, codec, store;
      lastCommit, localWatermark, watermark, maxEventTime := NegInf, NegInf, NegInf, NegInf;
      openWindows, closedWindows, seenIds, metrics, emitted := map[], map[], map[], NO_COUNTS, [];
    }

    /** A restart over the store of an earlier engine, with the watermark fields of the last checkpoint. */
    constructor FromStore(p: Params, codec: Codec, store: RocksStore<Record>, lastCommit: Ext, localWatermark: Ext,
                          maxEventTime: Ext, watermark: Ext, ghost open0: map<real, WindowState>,
                          ghost seen0: map<string, real>, ghost closed0: map<real, WindowResult>)
      requires p.Valid() && codec.Valid() && codec.size == p.size && store.Valid()
      requires Mirrors(codec, store.contents, open0, seen0, closed0)
      ensures Valid() && this.p == p && this.codec == codec && this.store == store
      ensures openWindows == open0 && seenIds == seen0
      ensures forall w :: w in closedWindows <==>
                IsClosedRecord(codec, store.contents, closed0, ClosedKey(codec, w), w)
      ensures forall w :: w in closedWindows ==> w in closed0 && closedWindows[w] == closed0[w]
      ensures Abs() == INIT.(lastCommit := lastCommit, localWatermark := localWatermark, watermark := watermark,
                             maxEventTime := maxEventTime, open := open0, seen := seen0, closed := closedWindows)
    {
      this.p, this.codec, this.store := p, codec, store;
      this.lastCommit, this.localWatermark := lastCommit, localWatermark;
      this.watermark, this.maxEventTime := watermark, maxEventTime;
      openWindows, closedWindows, seenIds, metrics, emitted := map[], map[], map[], NO_COUNTS, [];
      new;
      var open, seen, closed := RestoreIndex(open0, seen0, closed0);
      openWindows, seenIds, closedWindows := open, seen, closed;
      StillRecorded(codec, store.contents, closed0, closed);
    }

    // ----------------------------------------------------------------
    // Closing windows
    // ----------------------------------------------------------------

    /** The body of the closing loops: record, hand over, forget the record. */
    method EmitClosed(w: real, st: WindowState) returns (ghost trail: seq<Contents>)
      requires p.Valid() && store.Valid()
      modifies this`closedWindows, this`emitted, store
      ensures trail == ClosingTrail(codec, old(store.contents), ResultOf(p, w, st))
      ensures store.Valid() && store.contents == old(store.contents) - {ClosedKey(codec, w)}
      ensures closedWindows == old(closedWindows)[w := ResultOf(p, w, st)]
      ensures emitted == old(emitted) + [ResultOf(p, w, st)]
    {
      hide RocksStore.Valid, ClosedKey;
      var result := ResultOf(p, w, st);
      closedWindows := closedWindows[w := result];
      ClosedRecordGone(store.contents, ClosedKey(codec, w), ClosedRec(result, Uploading), ClosedRec(result, Uploaded));
      store.Put(ClosedKey(codec, w), ClosedRec(result, Uploading));
      ghost var recorded := store.contents;
      emitted := emitted + [result];
      store.Put(ClosedKey(codec, w), ClosedRec(result, Uploaded));
      ghost var marked := store.contents;
      store.Delete(ClosedKey(codec, w));
      trail := [recorded, marked, store.contents];
    }

    /** One turn of the loop of `_advance_watermark`, after the windows `done`. */
    method CloseOne(ghost start: State, ghost done: set<real>, w: real)
      requires Valid() && done <= start.open.Keys && w in start.open && w !in done && forall x :: x in done ==> x < w
      requires Abs() == Close(p, start, done)
      modifies this`openWindows, this`closedWindows, this`emitted, store
      ensures Valid() && Abs() == Close(p, start, done + {w})
    {
      hide RocksStore.Valid, Mirrors, Codec.Valid, Close;
      CloseOneMore(p, start, done, w);
      var st := openWindows[w];
      OpenAligned(codec, store.contents, openWindows, seenIds, closedWindows, w);
      DeleteOpen(codec, store.contents, openWindows, seenIds, closedWindows, w);
      openWindows := openWindows - {w};
      store.Delete(OpenKey(codec, w));
      HandedOver(codec, store.contents, openWindows, seenIds, closedWindows, w, ResultOf(p, w, st));
      ghost var _ := EmitClosed(w, st);
    }

    method AdvanceWatermark()
      requires Valid()
      modifies this, store
      ensures Valid()
      ensures Abs() == Advance(p, old(Abs()))
    {
      hide RocksStore.Valid, Mirrors, Codec.Valid, Close;
      watermark := localWatermark;
      ghost var start := Abs();
      var toClose := set w | w in openWindows && Fin(w + p.size).Le(watermark);
      var todo := toClose;
      CloseNone(p, start);
      assert toClose - todo == {};
      while todo != {}
        invariant todo <= toClose && toClose == Closing(p, start.open, start.watermark)
        invariant Valid()
        invariant forall x, y :: x in toClose - todo && y in todo ==> x < y
        invariant Abs() == Close(p, start, toClose - todo)
        decreases todo
      {
        var w := Least(todo);
        CloseOne(start, toClose - todo, w);
        assert toClose - todo + {w} == toClose - (todo - {w});
        todo := todo - {w};
      }
      assert toClose - todo == toClose;
    }

    /** One turn of the loop of `flush`: the open windows stay until the end. */
    method HandOver(ghost start: State, ghost done: set<real>, w: real)
      requires Valid() && done <= start.open.Keys && w in start.open && w !in done && forall x :: x in done ==> x < w
      requires Abs() == Close(p, start, done).(open := start.open)
      modifies this`closedWindows, this`emitted, store
      ensures Valid() && Abs() == Close(p, start, done + {w}).(open := start.open)
    {
      hide RocksStore.Valid, Mirrors, Codec.Valid, Close;
      CloseOneMore(p, start, done, w);
      OpenAligned(codec, store.contents, openWindows, seenIds, closedWindows, w);
      HandedOver(codec, store.contents, openWindows, seenIds, closedWindows, w, ResultOf(p, w, openWindows[w]));
      ghost var _ := EmitClosed(w, openWindows[w]);
    }

    /** `flush`: all windows are handed over first, then the open records are cleared in bulk. */
    method FlushWindows(rangeDelete: bool)
      requires Valid()
      modifies this, store
      ensures Valid()
      ensures Abs() == Flush(p, old(Abs()))
    {
      hide RocksStore.Valid, Mirrors, Codec.Valid, Close;
      ghost var start := Abs();
      var todo := openWindows.Keys;
      CloseNone(p, start);
      assert start.open.Keys - todo == {};
      while todo != {}
        invariant todo <= start.open.Keys && Valid()
        invariant forall x, y :: x in start.open.Keys - todo && y in todo ==> x < y
        invariant Abs() == Close(p, start, start.open.Keys - todo).(open := start.open)
        decreases todo
      {
        var w := Least(todo);
        HandOver(start, start.open.Keys - todo, w);
        assert start.open.Keys - todo + {w} == start.open.Keys - (todo - {w});
        todo := todo - {w};
      }
      assert start.open.Keys - todo == start.open.Keys;
      CloseAllOpen(p, start);
      DropOpen(rangeDelete);
    }

    /** The end of `flush`: the records of open windows are cleared in bulk. */
    method DropOpen(rangeDelete: bool)
      requires Valid()
      modifies this`openWindows, store
      ensures Valid() && Abs() == old(Abs()).(open := map[])
    {
      hide RocksStore.Valid, Mirrors, Codec.Valid;
      ghost var before := store.contents;
      var _ := store.ClearPrefix("ow:", rangeDelete);
      ClearedOpen(codec, before, store.contents, openWindows, seenIds, closedWindows);
      openWindows := map[];
    }

    // ----------------------------------------------------------------
    // Punctuation, purging, events
    // ----------------------------------------------------------------

    method OnPunctuation(commit: real)
      requires Valid()
      modifies this, store
      ensures Valid()
      ensures Abs() == Punctuate(p, old(Abs()), commit)
    {
      metrics := metrics.(punctuationTotal := metrics.punctuationTotal + 1);
      if lastCommit.Lt(Fin(commit)) {
        lastCommit := Fin(commit);
        localWatermark := Fin(commit - p.delta);
        AdvanceWatermark();
      } else {
        metrics := metrics.(nonMonotonicPunctuation := metrics.nonMonotonicPunctuation + 1);
      }
    }

    /** The worker writes the global watermark into its engines. */
    method HearGlobal(g: Ext)
      requires Valid()
      modifies this`watermark
      ensures Valid()
      ensures Abs() == Step(p, old(Abs()), Hear(g))
    {
      watermark := watermark.Max(g);
    }

    /** `_purge_seen_ids`; `bulkDue` is the five-minute test of the store cleanup. */
    method PurgeSeenIds(bulkDue: bool, rangeDelete: bool)
      requires Valid()
      modifies this`seenIds, store
      ensures Valid()
      ensures Abs() == Purge(old(Abs()))
    {
      hide RocksStore.Valid, Mirrors, Codec.Valid;
      if watermark.NegInf? && maxEventTime.NegInf? {
        return;
      }
      var cutoff := (if watermark.NegInf? then maxEventTime else watermark).Minus(DEDUP_TTL);
      var expired := set id | id in seenIds && Fin(seenIds[id]).Lt(cutoff);
      var todo := expired;
      while todo != {}
        invariant todo <= expired && Valid()
        invariant seenIds == old(seenIds) - (expired - todo)
        decreases todo
      {
        ghost var some := Pick(todo);
        var id :| id in todo;
        DeleteSeen(codec, store.contents, openWindows, seenIds, closedWindows, id);
        seenIds := seenIds - {id};
        store.Delete(SeenKey(id));
        todo := todo - {id};
      }
      assert expired - todo == expired;
      if bulkDue {
        RewriteSeen(rangeDelete);
      }
    }

    /** The bulk cleanup: clear all `si:` records and write the remembered ids again. */
    method RewriteSeen(rangeDelete: bool)
      requires Valid()
      modifies store
      ensures Valid()
    {
      hide RocksStore.Valid, Mirrors, Codec.Valid;
      ghost var before := store.contents;
      var _ := store.ClearPrefix("si:", rangeDelete);
      ClearedSeen(codec, before, store.contents, openWindows, seenIds, closedWindows);
      var todo := seenIds.Keys;
      assert seenIds - todo == map[];
      while todo != {}
        invariant todo <= seenIds.Keys && store.Valid()
        invariant Mirrors(codec, store.contents, openWindows, seenIds - todo, closedWindows)
        decreases todo
      {
        ghost var some := Pick(todo);
        var id :| id in todo;
        RewriteOne(seenIds - todo, id);
        WrittenOneMore(seenIds, todo, id);
        todo := todo - {id};
      }
      assert seenIds - todo == seenIds;
    }

    /** One turn of the rewriting loop. */
    method RewriteOne(ghost written: map<string, real>, id: string)
      requires codec.Valid() && store.Valid() && id in seenIds
      requires Mirrors(codec, store.contents, openWindows, written, closedWindows)
      modifies store
      ensures store.Valid()
      ensures Mirrors(codec, store.contents, openWindows, written[id := seenIds[id]], closedWindows)
    {
      hide RocksStore.Valid, Mirrors, Codec.Valid;
      PutSeen(codec, store.contents, openWindows, written, closedWindows, id, seenIds[id]);
      store.Put(SeenKey(id), SeenRec(seenIds[id]));
    }

    /** The part of `process` that an accepted event reaches, up to the watermark step. */
    method AcceptEvent(e: Event)
      requires Valid()
      modifies this, store
      ensures Valid()
      ensures Abs() == Accept(p, old(Abs()), e)
    {
      hide RocksStore.Valid, Mirrors, Codec.Valid;
      var w := Window.Start(p.size, e.time);
      PutSeen(codec, store.contents, openWindows, seenIds, closedWindows, e.id, e.time);
      seenIds := seenIds[e.id := e.time];
      store.Put(SeenKey(e.id), SeenRec(e.time));
      maxEventTime := maxEventTime.Max(Fin(e.time));
      var st := if w in openWindows then openWindows[w] else WindowState(0, 0);
      st := st.(count := st.count + 1);
      if e.status == 500 {
        st := st.(status500 := st.status500 + 1);
      }
      PutOpen(codec, store.contents, openWindows, seenIds, closedWindows, w, st);
      openWindows := openWindows[w := st];
      store.Put(OpenKey(codec, w), OpenRec(st));
      metrics := metrics.(onTime := metrics.onTime + 1);
    }

    /** `process`; `fate` says which branch was taken. */
    method ProcessEvent(e: Event, queueLen: int, checkpointDue: bool, bulkDue: bool, rangeDelete: bool)
      returns (fate: Outcome)
      requires Valid()
      modifies this, store
      ensures Valid()
      ensures fate == Classify(p, old(Abs()), e, queueLen)
      ensures Abs() == Process(p, old(Abs()), e, queueLen, checkpointDue)
    {
      hide RocksStore.Valid, Mirrors, Codec.Valid, Advance, Purge, Accept;
      metrics := metrics.(totalReceived := metrics.totalReceived + 1);
      if queueLen > p.maxQueue {
        metrics := metrics.(backpressureDrops := metrics.backpressureDrops + 1);
        return QueueFull;
      }
      var w := Window.Start(p.size, e.time);
      if Fin(w + p.size).Le(watermark) || w in closedWindows {
        metrics := metrics.(lateDropped := metrics.lateDropped + 1);
        return Late;
      }
      if e.id in seenIds {
        metrics := metrics.(duplicates := metrics.duplicates + 1);
        return Duplicate;
      }
      AcceptEvent(e);
      AdvanceWatermark();
      if checkpointDue {
        PurgeSeenIds(bulkDue, rangeDelete);
      }
      return Accepted;
    }

    /** `_restore_from_store`: a restart reads back the open windows and the remembered ids, and of the
        closed windows those that still have a record, as a crash or an earlier recovery leaves them. */
    method RestoreIndex(ghost open0: map<real, WindowState>, ghost seen0: map<string, real>,
                        ghost closed0: map<real, WindowResult>)
      returns (open: map<real, WindowState>, seen: map<string, real>, closed: map<real, WindowResult>)
      requires codec.Valid() && store.Valid() && Mirrors(codec, store.contents, open0, seen0, closed0)
      ensures open == open0 && seen == seen0
      ensures forall w :: w in closed <==> IsClosedRecord(codec, store.contents, closed0, ClosedKey(codec, w), w)
      ensures forall w :: w in closed ==> w in closed0 && closed[w] == closed0[w]
    {
      open := RestoreOpen(open0);
      seen := RestoreSeen(seen0);
      closed := RestoreClosed(closed0);
    }

    method RestoreClosed(ghost closed0: map<real, WindowResult>) returns (closed: map<real, WindowResult>)
      requires codec.Valid() && store.Valid() && RecordsClosed(codec, store.contents, closed0)
      ensures forall w :: w in closed <==> IsClosedRecord(codec, store.contents, closed0, ClosedKey(codec, w), w)
      ensures forall w :: w in closed ==> w in closed0 && closed[w] == closed0[w]
    {
      hide RocksStore.Valid;
      closed := map[];
      var rows := store.Items("cw:");
      var rest := rows.Keys;
      while rest != {}
        invariant rest <= rows.Keys
        invariant forall w :: w in closed ==>
                    IsClosedRecord(codec, store.contents, closed0, ClosedKey(codec, w), w) && closed[w] == closed0[w]
        invariant forall w :: IsClosedRecord(codec, store.contents, closed0, ClosedKey(codec, w), w) ==>
                    w in closed || ClosedKey(codec, w) in rest
        decreases rest
      {
        ghost var some := Pick(rest);
        var key :| key in rest;
        ghost var w := ClosedRow(codec, store.contents, closed0, key);
        RecordNames(codec, store.contents, closed0, key, w);
        closed := closed[codec.parse(key[3..]) := rows[key].result];
        rest := rest - {key};
      }
    }

    method RestoreOpen(ghost open0: map<real, WindowState>) returns (open: map<real, WindowState>)
      requires codec.Valid() && store.Valid() && MirrorsOpen(codec, store.contents, open0)
      ensures open == open0
    {
      hide RocksStore.Valid;
      open := map[];
      var rows := store.Items("ow:");
      var rest := rows.Keys;
      while rest != {}
        invariant rest <= rows.Keys
        invariant forall w :: w in open ==> w in open0 && open[w] == open0[w]
        invariant forall w :: w in open0 ==> w in open || OpenKey(codec, w) in rest
        decreases rest
      {
        ghost var some := Pick(rest);
        var key :| key in rest;
        ghost var w := OpenRow(codec, store.contents, open0, key);
        open := open[codec.parse(key[3..]) := rows[key].st];
        rest := rest - {key};
      }
      SameByTime(open, open0);
    }

    method RestoreSeen(ghost seen0: map<string, real>) returns (seen: map<string, real>)
      requires store.Valid() && MirrorsSeen(store.contents, seen0)
      ensures seen == seen0
    {
      hide RocksStore.Valid;
      seen := map[];
      var rows := store.Items("si:");
      var rest := rows.Keys;
      while rest != {}
        invariant rest <= rows.Keys
        invariant forall id :: id in seen ==> id in seen0 && seen[id] == seen0[id]
        invariant forall id :: id in seen0 ==> id in seen || SeenKey(id) in rest
        decreases rest
      {
        ghost var some := Pick(rest);
        var key :| key in rest;
        ghost var id := SeenRow(store.contents, seen0, key);
        seen := seen[key[3..] := rows[key].t];
        rest := rest - {key};
      }
      SameById(seen, seen0);
    }
  }

  lemma WrittenOneMore(seen: map<string, real>, todo: set<string>, id: string)
    requires id in todo && id in seen
    ensures (seen - todo)[id := seen[id]] == seen - (todo - {id})
  {
  }

  lemma OpenAligned(c: Codec, m: Contents, open: map<real, WindowState>, seen: map<string, real>,
                    closed: map<real, WindowResult>, w: real)
    requires Mirrors(c, m, open, seen, closed) && w in open
    ensures Window.Aligned(c.size, w)
  {
  }

  /** A `cw:` record belongs to one window. */
  lemma RecordNames(c: Codec, m: Contents, closed: map<real, WindowResult>, key: string, w: real)
    requires c.Valid() && IsClosedRecord(c, m, closed, key, w)
    ensures forall v :: IsClosedRecord(c, m, closed, ClosedKey(c, v), v) && ClosedKey(c, v) == key ==> v == w
  {
    forall v | IsClosedRecord(c, m, closed, ClosedKey(c, v), v) && ClosedKey(c, v) == key ensures v == w {
      WindowKeysInjective(c, v, w);
    }
  }

  /** The records are also records of the closed windows that were read back from them. */
  lemma StillRecorded(c: Codec, m: Contents, closed0: map<real, WindowResult>, closed: map<real, WindowResult>)
    requires RecordsClosed(c, m, closed0)
    requires forall w :: w in closed <==> IsClosedRecord(c, m, closed0, ClosedKey(c, w), w)
    requires forall w :: w in closed ==> w in closed0 && closed[w] == closed0[w]
    ensures RecordsClosed(c, m, closed)
  {
    forall k | k in m && "cw:" <= k ensures exists w :: IsClosedRecord(c, m, closed, k, w) {
      var w :| IsClosedRecord(c, m, closed0, k, w);
      assert IsClosedRecord(c, m, closed0, ClosedKey(c, w), w);
      assert IsClosedRecord(c, m, closed, k, w);
    }
  }
}
