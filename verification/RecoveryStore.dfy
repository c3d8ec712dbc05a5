/** The store of the strict engine during the durable steps of the recovery protocol (strict/engine.py): the
    `cw:` records are the protocol's `records`, after every write of closing a window and after a restart. */
module RecoveryStore {
  import opened Recovery
  import opened Sets
  import opened StrictRecords
  import opened StrictSpec
  import Window

  /** The `cw:` records of the store are exactly `records`. */
  ghost predicate Keeps(c: Codec, m: Contents, records: map<real, Rec>) {
    && (forall w :: w in records ==> Window.Aligned(c.size, w) && KeepsOne(c, m, w, records[w]))
    && (forall k :: k in m && "cw:" <= k ==> exists w :: w in records && k == ClosedKey(c, w))
  }

  ghost predicate KeepsOne(c: Codec, m: Contents, w: real, rec: Rec) {
    ClosedKey(c, w) in m && m[ClosedKey(c, w)] == ClosedRec(rec.result, rec.eviction)
  }

  lemma PutKeeps(c: Codec, m: Contents, records: map<real, Rec>, w: real, rec: Rec)
    requires c.Valid() && Keeps(c, m, records) && Window.Aligned(c.size, w)
    ensures Keeps(c, m[ClosedKey(c, w) := ClosedRec(rec.result, rec.eviction)], records[w := rec])
  {
    var m', records' := m[ClosedKey(c, w) := ClosedRec(rec.result, rec.eviction)], records[w := rec];
    forall v | v in records' ensures Window.Aligned(c.size, v) && KeepsOne(c, m', v, records'[v]) {
      if v != w {
        WindowKeysInjective(c, v, w);
        assert KeepsOne(c, m, v, records[v]);
      }
    }
    hide ClosedKey, Window.Aligned;
    forall k | k in m' && "cw:" <= k ensures exists v :: v in records' && k == ClosedKey(c, v) {
      if k == ClosedKey(c, w) {
        assert w in records';
      } else {
        var v :| v in records && k == ClosedKey(c, v);
        assert v in records';
      }
    }
  }

  lemma DeleteKeeps(c: Codec, m: Contents, records: map<real, Rec>, w: real)
    requires c.Valid() && Keeps(c, m, records) && Window.Aligned(c.size, w)
    ensures Keeps(c, m - {ClosedKey(c, w)}, records - {w})
  {
    var m', records' := m - {ClosedKey(c, w)}, records - {w};
    forall v | v in records' ensures Window.Aligned(c.size, v) && KeepsOne(c, m', v, records'[v]) {
      WindowKeysInjective(c, v, w);
      assert KeepsOne(c, m, v, records[v]);
    }
    hide ClosedKey, Window.Aligned;
    forall k | k in m' && "cw:" <= k ensures exists v :: v in records' && k == ClosedKey(c, v) {
      var v :| v in records && k == ClosedKey(c, v);
      assert v in records';
    }
  }

  /** What the steps from `BeginClose` to `PurgeRecord` do to the durable records. */
  lemma ClosingRecords(env: Env, s: Sys, r: WindowResult, ok: bool)
    requires s.pc.Idle?
    ensures var s1 := Next(env, s, BeginClose(r));
            var s2 := Next(env, s1, Upload(ok));
            var s3 := Next(env, s2, Emit);
            var s4 := Next(env, s3, Mark);
            var s5 := Next(env, s4, PurgeRecord);
            && s1.records == s2.records == s3.records == s.records[r.start := Rec(r, Uploading)]
            && s4.records == s.records[r.start := Rec(r, Uploading)][r.start := Rec(r, Uploaded)]
            && s5.records == s4.records - {r.start} && s5.pc.Idle?
  {
  }

  /** The three writes of closing a window are the protocol's durable steps: wherever a crash stops the engine,
      the store holds the records that the protocol has at that point. */
  lemma ClosingIsRecovery(env: Env, c: Codec, m: Contents, s: Sys, r: WindowResult, ok: bool)
    requires c.Valid() && Keeps(c, m, s.records) && s.pc.Idle? && Window.Aligned(c.size, r.start)
    ensures var s1 := Next(env, s, BeginClose(r));
            var s2 := Next(env, s1, Upload(ok));
            var s3 := Next(env, s2, Emit);
            var s4 := Next(env, s3, Mark);
            var s5 := Next(env, s4, PurgeRecord);
            var trail := ClosingTrail(c, m, r);
            && Keeps(c, trail[0], s1.records) && Keeps(c, trail[0], s2.records) && Keeps(c, trail[0], s3.records)
            && Keeps(c, trail[1], s4.records) && Keeps(c, trail[2], s5.records)
  {
    ClosingRecords(env, s, r, ok);
    hide Next, Keeps, Window.Aligned, ClosedKey;
    var recorded, marked := s.records[r.start := Rec(r, Uploading)], ClosingTrail(c, m, r)[1];
    PutKeeps(c, m, s.records, r.start, Rec(r, Uploading));
    PutKeeps(c, ClosingTrail(c, m, r)[0], recorded, r.start, Rec(r, Uploaded));
    DeleteKeeps(c, marked, recorded[r.start := Rec(r, Uploaded)], r.start);
  }

  /** The closed windows that a restarted engine reads back are those the protocol's restart finds. */
  lemma RestoredIsRestart(c: Codec, m: Contents, records: map<real, Rec>, closed0: map<real, WindowResult>,
                          closed: map<real, WindowResult>)
    requires c.Valid() && Keeps(c, m, records) && RecordsClosed(c, m, closed0)
    requires forall w :: w in closed <==> IsClosedRecord(c, m, closed0, ClosedKey(c, w), w)
    requires forall w :: w in closed ==> w in closed0 && closed[w] == closed0[w]
    ensures closed == map w | w in records :: records[w].result
  {
    forall w | w in closed ensures w in records && records[w].result == closed[w] {
      assert IsClosedRecord(c, m, closed0, ClosedKey(c, w), w);
      ReadBack(c, m, records, closed0, w);
    }
    forall w | w in records ensures w in closed {
      Recorded(c, m, records, closed0, w);
    }
    SameByTime(closed, map w | w in records :: records[w].result);
  }

  lemma ReadBack(c: Codec, m: Contents, records: map<real, Rec>, closed0: map<real, WindowResult>, w: real)
    requires c.Valid() && Keeps(c, m, records) && IsClosedRecord(c, m, closed0, ClosedKey(c, w), w)
    ensures w in records && records[w].result == closed0[w]
  {
    KeyKinds(c, w, "");
    var v :| v in records && ClosedKey(c, w) == ClosedKey(c, v);
    assert KeepsOne(c, m, v, records[v]);
    WindowKeysInjective(c, v, w);
  }

  lemma Recorded(c: Codec, m: Contents, records: map<real, Rec>, closed0: map<real, WindowResult>, w: real)
    requires c.Valid() && Keeps(c, m, records) && RecordsClosed(c, m, closed0) && w in records
    ensures IsClosedRecord(c, m, closed0, ClosedKey(c, w), w)
  {
    KeyKinds(c, w, "");
    assert KeepsOne(c, m, w, records[w]);
    var v :| IsClosedRecord(c, m, closed0, ClosedKey(c, w), v);
    WindowKeysInjective(c, v, w);
  }
}
