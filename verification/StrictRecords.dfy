/** The records the strict engine keeps in its store. */
module StrictRecords {
  import opened StrictSpec
  import Window

  datatype Eviction = Uploading | Uploaded

  datatype Record =
    | OpenRec(st: WindowState)
    | ClosedRec(result: WindowResult, eviction: Eviction)
    | SeenRec(t: real)

  /** How the starts of windows of one size are printed into keys and read back. */
  datatype Codec = Codec(size: real, fmt: real -> string, parse: string -> real) {
    ghost predicate Valid() {
      size > 0.0 && forall w :: Window.Aligned(size, w) ==> parse(fmt(w)) == w
    }
  }

  // ------------------------------------------------------------------
  // A codec exists for every window size
  // ------------------------------------------------------------------

  /** A sign and as many strokes. */
  function Strokes(k: int): string {
    if k < 0 then "-" + Repeat('1', -k) else Repeat('1', k)
  }

  function Repeat(c: char, n: nat): (s: string)
    ensures |s| == n && forall i :: 0 <= i < n ==> s[i] == c
  {
    if n == 0 then "" else Repeat(c, n - 1) + [c]
  }

  function Count(s: string): int {
    if s != "" && s[0] == '-' then 1 - |s| else |s|
  }

  /** Which window `w` starts, counted from zero. */
  function IndexOf(size: real, w: real): int {
    if size > 0.0 then (w / size).Floor else 0
  }

  lemma CodecExists(size: real) returns (c: Codec)
    requires size > 0.0
    ensures c.Valid() && c.size == size
  {
    c := Codec(size, (w: real) => Strokes(IndexOf(size, w)), (s: string) => Window.Nth(size, Count(s)));
    forall w | Window.Aligned(size, w) ensures c.parse(c.fmt(w)) == w {
      Window.StartUnique(size, w, w);
      assert Count(Strokes(IndexOf(size, w))) == IndexOf(size, w);
    }
  }

  // ------------------------------------------------------------------
  // Keys
  // ------------------------------------------------------------------

  function OpenKey(c: Codec, w: real): string {
    "ow:" + c.fmt(w)
  }

  function ClosedKey(c: Codec, w: real): string {
    "cw:" + c.fmt(w)
  }

  function SeenKey(id: string): string {
    "si:" + id
  }

  lemma KeyKinds(c: Codec, w: real, id: string)
    ensures "ow:" <= OpenKey(c, w) && !("si:" <= OpenKey(c, w)) && !("cw:" <= OpenKey(c, w))
    ensures "cw:" <= ClosedKey(c, w) && !("si:" <= ClosedKey(c, w)) && !("ow:" <= ClosedKey(c, w))
    ensures "si:" <= SeenKey(id) && !("ow:" <= SeenKey(id)) && !("cw:" <= SeenKey(id))
  {
    assert OpenKey(c, w)[0] == 'o' && ClosedKey(c, w)[0] == 'c' && SeenKey(id)[0] == 's';
  }

  /** Different windows have different keys. */
  lemma WindowKeysInjective(c: Codec, v: real, w: real)
    requires c.Valid() && Window.Aligned(c.size, v) && Window.Aligned(c.size, w)
    ensures OpenKey(c, v) == OpenKey(c, w) ==> v == w
    ensures ClosedKey(c, v) == ClosedKey(c, w) ==> v == w
  {
    assert OpenKey(c, v)[3..] == c.fmt(v) && OpenKey(c, w)[3..] == c.fmt(w);
    assert ClosedKey(c, v)[3..] == c.fmt(v) && ClosedKey(c, w)[3..] == c.fmt(w);
  }

  lemma SeenKeyInjective(a: string, b: string)
    requires SeenKey(a) == SeenKey(b)
    ensures a == b
  {
    assert SeenKey(a)[3..] == a && SeenKey(b)[3..] == b;
  }

  // ------------------------------------------------------------------
  // The stored index
  // ------------------------------------------------------------------

  type Contents = map<string, Record>

  /** The `ow:` records are exactly the open windows. */
  ghost predicate MirrorsOpen(c: Codec, m: Contents, open: map<real, WindowState>) {
    && (forall w :: w in open ==>
          Window.Aligned(c.size, w) && OpenKey(c, w) in m && m[OpenKey(c, w)] == OpenRec(open[w]))
    && (forall k :: k in m && "ow:" <= k ==> exists w :: w in open && k == OpenKey(c, w))
  }

  /** The `si:` records are exactly the remembered ids. */
  ghost predicate MirrorsSeen(m: Contents, seen: map<string, real>) {
    && (forall id :: id in seen ==> SeenKey(id) in m && m[SeenKey(id)] == SeenRec(seen[id]))
    && (forall k :: k in m && "si:" <= k ==> exists id :: id in seen && k == SeenKey(id))
  }

  /** Every `cw:` record holds the result of a closed window; not every closed window has one. */
  ghost predicate RecordsClosed(c: Codec, m: Contents, closed: map<real, WindowResult>) {
    forall k :: k in m && "cw:" <= k ==> exists w :: IsClosedRecord(c, m, closed, k, w)
  }

  ghost predicate IsClosedRecord(c: Codec, m: Contents, closed: map<real, WindowResult>, k: string, w: real) {
    && w in closed && Window.Aligned(c.size, w) && k == ClosedKey(c, w)
    && k in m && m[k].ClosedRec? && m[k].result == closed[w]
  }

  ghost predicate Mirrors(c: Codec, m: Contents, open: map<real, WindowState>, seen: map<string, real>,
                          closed: map<real, WindowResult>)
  {
    MirrorsOpen(c, m, open) && MirrorsSeen(m, seen) && RecordsClosed(c, m, closed)
  }

  /** The same records under the prefix `kind`. */
  ghost predicate SameKind(m: Contents, m': Contents, kind: string) {
    forall k :: kind <= k ==> (k in m <==> k in m') && (k in m ==> m'[k] == m[k])
  }

  lemma OpenElsewhere(c: Codec, m: Contents, m': Contents, open: map<real, WindowState>)
    requires MirrorsOpen(c, m, open) && SameKind(m, m', "ow:")
    ensures MirrorsOpen(c, m', open)
  {
    forall w | w in open ensures OpenKey(c, w) in m' && m'[OpenKey(c, w)] == OpenRec(open[w]) {
      KeyKinds(c, w, "");
    }
  }

  lemma SeenElsewhere(m: Contents, m': Contents, seen: map<string, real>)
    requires MirrorsSeen(m, seen) && SameKind(m, m', "si:")
    ensures MirrorsSeen(m', seen)
  {
    forall id | id in seen ensures SeenKey(id) in m' && m'[SeenKey(id)] == SeenRec(seen[id]) {
      assert "si:" <= SeenKey(id);
    }
  }

  lemma ClosedElsewhere(c: Codec, m: Contents, m': Contents, closed: map<real, WindowResult>)
    requires RecordsClosed(c, m, closed) && SameKind(m, m', "cw:")
    ensures RecordsClosed(c, m', closed)
  {
    forall k | k in m' && "cw:" <= k ensures exists w :: IsClosedRecord(c, m', closed, k, w) {
      var w :| IsClosedRecord(c, m, closed, k, w);
      assert IsClosedRecord(c, m', closed, k, w);
    }
  }

  /** A change under one key of another kind leaves the records of a kind as they are. */
  lemma OtherKind(m: Contents, key: string, r: Record, kind: string)
    requires !(kind <= key)
    ensures SameKind(m, m[key := r], kind) && SameKind(m, m - {key}, kind)
  {
  }

  // ------------------------------------------------------------------
  // Writing and deleting records
  // ------------------------------------------------------------------

  lemma PutOpenOnly(c: Codec, m: Contents, open: map<real, WindowState>, w: real, st: WindowState)
    requires c.Valid() && MirrorsOpen(c, m, open) && Window.Aligned(c.size, w)
    ensures MirrorsOpen(c, m[OpenKey(c, w) := OpenRec(st)], open[w := st])
  {
    var m', open' := m[OpenKey(c, w) := OpenRec(st)], open[w := st];
    forall v | v in open' ensures
      Window.Aligned(c.size, v) && OpenKey(c, v) in m' && m'[OpenKey(c, v)] == OpenRec(open'[v])
    {
      WindowKeysInjective(c, v, w);
    }
    forall k | k in m' && "ow:" <= k ensures exists v :: v in open' && k == OpenKey(c, v) {
      if k in m {
        var v :| v in open && k == OpenKey(c, v);
        assert v in open';
      } else {
        assert w in open' && k == OpenKey(c, w);
      }
    }
  }

  lemma DeleteOpenOnly(c: Codec, m: Contents, open: map<real, WindowState>, w: real)
    requires c.Valid() && MirrorsOpen(c, m, open) && Window.Aligned(c.size, w)
    ensures MirrorsOpen(c, m - {OpenKey(c, w)}, open - {w})
  {
    var m', open' := m - {OpenKey(c, w)}, open - {w};
    forall v | v in open' ensures OpenKey(c, v) in m' && m'[OpenKey(c, v)] == OpenRec(open'[v]) {
      WindowKeysInjective(c, v, w);
    }
    forall k | k in m' && "ow:" <= k ensures exists v :: v in open' && k == OpenKey(c, v) {
      var v :| v in open && k == OpenKey(c, v);
      assert v in open';
    }
  }

  lemma PutSeenOnly(m: Contents, seen: map<string, real>, id: string, t: real)
    requires MirrorsSeen(m, seen)
    ensures MirrorsSeen(m[SeenKey(id) := SeenRec(t)], seen[id := t])
  {
    var m', seen' := m[SeenKey(id) := SeenRec(t)], seen[id := t];
    forall x | x in seen' ensures SeenKey(x) in m' && m'[SeenKey(x)] == SeenRec(seen'[x]) {
      if x != id && SeenKey(x) == SeenKey(id) {
        SeenKeyInjective(x, id);
      }
    }
    forall k | k in m' && "si:" <= k ensures exists x :: x in seen' && k == SeenKey(x) {
      if k in m {
        var x :| x in seen && k == SeenKey(x);
        assert x in seen';
      } else {
        assert id in seen' && k == SeenKey(id);
      }
    }
  }

  lemma DeleteSeenOnly(m: Contents, seen: map<string, real>, id: string)
    requires MirrorsSeen(m, seen)
    ensures MirrorsSeen(m - {SeenKey(id)}, seen - {id})
  {
    var m', seen' := m - {SeenKey(id)}, seen - {id};
    forall x | x in seen' ensures SeenKey(x) in m' && m'[SeenKey(x)] == SeenRec(seen'[x]) {
      if SeenKey(x) == SeenKey(id) {
        SeenKeyInjective(x, id);
      }
    }
    forall k | k in m' && "si:" <= k ensures exists x :: x in seen' && k == SeenKey(x) {
      var x :| x in seen && k == SeenKey(x);
      assert x in seen';
    }
  }

  lemma PutOpen(c: Codec, m: Contents, open: map<real, WindowState>, seen: map<string, real>,
                closed: map<real, WindowResult>, w: real, st: WindowState)
    requires c.Valid() && Mirrors(c, m, open, seen, closed) && Window.Aligned(c.size, w)
    ensures Mirrors(c, m[OpenKey(c, w) := OpenRec(st)], open[w := st], seen, closed)
  {
    hide MirrorsOpen, MirrorsSeen, RecordsClosed, SameKind;
    var m' := m[OpenKey(c, w) := OpenRec(st)];
    KeyKinds(c, w, "");
    PutOpenOnly(c, m, open, w, st);
    OtherKind(m, OpenKey(c, w), OpenRec(st), "si:");
    OtherKind(m, OpenKey(c, w), OpenRec(st), "cw:");
    SeenElsewhere(m, m', seen);
    ClosedElsewhere(c, m, m', closed);
  }

  lemma DeleteOpen(c: Codec, m: Contents, open: map<real, WindowState>, seen: map<string, real>,
                   closed: map<real, WindowResult>, w: real)
    requires c.Valid() && Mirrors(c, m, open, seen, closed) && w in open
    ensures Mirrors(c, m - {OpenKey(c, w)}, open - {w}, seen, closed)
  {
    assert Window.Aligned(c.size, w);
    hide MirrorsOpen, MirrorsSeen, RecordsClosed, SameKind;
    var m' := m - {OpenKey(c, w)};
    KeyKinds(c, w, "");
    DeleteOpenOnly(c, m, open, w);
    OtherKind(m, OpenKey(c, w), OpenRec(open[w]), "si:");
    OtherKind(m, OpenKey(c, w), OpenRec(open[w]), "cw:");
    SeenElsewhere(m, m', seen);
    ClosedElsewhere(c, m, m', closed);
  }

  lemma PutSeen(c: Codec, m: Contents, open: map<real, WindowState>, seen: map<string, real>,
                closed: map<real, WindowResult>, id: string, t: real)
    requires Mirrors(c, m, open, seen, closed)
    ensures Mirrors(c, m[SeenKey(id) := SeenRec(t)], open, seen[id := t], closed)
  {
    hide MirrorsOpen, MirrorsSeen, RecordsClosed, SameKind;
    var m' := m[SeenKey(id) := SeenRec(t)];
    KeyKinds(c, 0.0, id);
    PutSeenOnly(m, seen, id, t);
    OtherKind(m, SeenKey(id), SeenRec(t), "ow:");
    OtherKind(m, SeenKey(id), SeenRec(t), "cw:");
    OpenElsewhere(c, m, m', open);
    ClosedElsewhere(c, m, m', closed);
  }

  lemma DeleteSeen(c: Codec, m: Contents, open: map<real, WindowState>, seen: map<string, real>,
                   closed: map<real, WindowResult>, id: string)
    requires Mirrors(c, m, open, seen, closed)
    ensures Mirrors(c, m - {SeenKey(id)}, open, seen - {id}, closed)
  {
    hide MirrorsOpen, MirrorsSeen, RecordsClosed, SameKind;
    var m' := m - {SeenKey(id)};
    KeyKinds(c, 0.0, id);
    DeleteSeenOnly(m, seen, id);
    OtherKind(m, SeenKey(id), SeenRec(0.0), "ow:");
    OtherKind(m, SeenKey(id), SeenRec(0.0), "cw:");
    OpenElsewhere(c, m, m', open);
    ClosedElsewhere(c, m, m', closed);
  }

  /** Writing the record of a window just closed, in either eviction state, keeps the index: this is
      what a crash in the middle of closing, or the recovery scan, leaves behind. */
  lemma PutClosed(c: Codec, m: Contents, open: map<real, WindowState>, seen: map<string, real>,
                  closed: map<real, WindowResult>, w: real, r: WindowResult, eviction: Eviction)
    requires c.Valid() && Mirrors(c, m, open, seen, closed) && Window.Aligned(c.size, w)
    ensures Mirrors(c, m[ClosedKey(c, w) := ClosedRec(r, eviction)], open, seen, closed[w := r])
  {
    var key, rec := ClosedKey(c, w), ClosedRec(r, eviction);
    var m', closed' := m[key := rec], closed[w := r];
    KeyKinds(c, w, "");
    forall k | k in m' && "cw:" <= k ensures exists v :: IsClosedRecord(c, m', closed', k, v) {
      if k == key {
        assert IsClosedRecord(c, m', closed', k, w);
      } else {
        var v :| IsClosedRecord(c, m, closed, k, v);
        assert IsClosedRecord(c, m', closed', k, v);
      }
    }
    hide MirrorsOpen, MirrorsSeen, SameKind;
    OtherKind(m, key, rec, "ow:");
    OtherKind(m, key, rec, "si:");
    OpenElsewhere(c, m, m', open);
    SeenElsewhere(m, m', seen);
  }

  lemma DeleteClosed(c: Codec, m: Contents, open: map<real, WindowState>, seen: map<string, real>,
                     closed: map<real, WindowResult>, w: real)
    requires Mirrors(c, m, open, seen, closed)
    ensures Mirrors(c, m - {ClosedKey(c, w)}, open, seen, closed)
  {
    var key := ClosedKey(c, w);
    var m' := m - {key};
    KeyKinds(c, w, "");
    forall k | k in m' && "cw:" <= k ensures exists v :: IsClosedRecord(c, m', closed, k, v) {
      var v :| IsClosedRecord(c, m, closed, k, v);
      assert IsClosedRecord(c, m', closed, k, v);
    }
    hide MirrorsOpen, MirrorsSeen, SameKind;
    OtherKind(m, key, SeenRec(0.0), "ow:");
    OtherKind(m, key, SeenRec(0.0), "si:");
    OpenElsewhere(c, m, m', open);
    SeenElsewhere(m, m', seen);
  }

  /** What the store holds after each of the three writes that close a window: record, mark, forget. */
  ghost function ClosingTrail(c: Codec, m: Contents, r: WindowResult): seq<Contents> {
    var key := ClosedKey(c, r.start);
    var recorded := m[key := ClosedRec(r, Uploading)];
    var marked := recorded[key := ClosedRec(r, Uploaded)];
    [recorded, marked, marked - {key}]
  }

  /** Recording a closed window, marking the record and deleting it leaves every other record alone. */
  lemma ClosedRecordGone(m: Contents, key: string, a: Record, b: Record)
    ensures m[key := a][key := b] - {key} == m[key := b] - {key} == m - {key}
  {
  }

  /** Once a window has been handed over its record is gone, whether or not there was one before. */
  lemma HandedOver(c: Codec, m: Contents, open: map<real, WindowState>, seen: map<string, real>,
                   closed: map<real, WindowResult>, w: real, r: WindowResult)
    requires c.Valid() && Mirrors(c, m, open, seen, closed) && Window.Aligned(c.size, w)
    ensures Mirrors(c, m - {ClosedKey(c, w)}, open, seen, closed[w := r])
  {
    hide Mirrors;
    var rec := ClosedRec(r, Uploaded);
    PutClosed(c, m, open, seen, closed, w, r, Uploaded);
    DeleteClosed(c, m[ClosedKey(c, w) := rec], open, seen, closed[w := r], w);
    ClosedRecordGone(m, ClosedKey(c, w), rec, rec);
  }

  // ------------------------------------------------------------------
  // Clearing a kind of records
  // ------------------------------------------------------------------

  /** `m'` is `m` without the records under `kind`. */
  ghost predicate Cleared(m: Contents, m': Contents, kind: string) {
    && (forall k :: k in m' <==> k in m && !(kind <= k))
    && (forall k :: k in m' ==> m'[k] == m[k])
  }

  lemma ClearedOthers(m: Contents, m': Contents, kind: string, other: string)
    requires Cleared(m, m', kind) && |kind| == |other| && kind != other
    ensures SameKind(m, m', other)
  {
  }

  lemma ClearedOpen(c: Codec, m: Contents, m': Contents, open: map<real, WindowState>, seen: map<string, real>,
                    closed: map<real, WindowResult>)
    requires Mirrors(c, m, open, seen, closed) && Cleared(m, m', "ow:")
    ensures Mirrors(c, m', map[], seen, closed)
  {
    assert MirrorsOpen(c, m', map[]);
    hide MirrorsOpen, MirrorsSeen, RecordsClosed, SameKind, Cleared;
    ClearedOthers(m, m', "ow:", "si:");
    ClearedOthers(m, m', "ow:", "cw:");
    SeenElsewhere(m, m', seen);
    ClosedElsewhere(c, m, m', closed);
  }

  lemma ClearedSeen(c: Codec, m: Contents, m': Contents, open: map<real, WindowState>, seen: map<string, real>,
                    closed: map<real, WindowResult>)
    requires Mirrors(c, m, open, seen, closed) && Cleared(m, m', "si:")
    ensures Mirrors(c, m', open, map[], closed)
  {
    assert MirrorsSeen(m', map[]);
    hide MirrorsOpen, MirrorsSeen, RecordsClosed, SameKind, Cleared;
    ClearedOthers(m, m', "si:", "ow:");
    ClearedOthers(m, m', "si:", "cw:");
    OpenElsewhere(c, m, m', open);
    ClosedElsewhere(c, m, m', closed);
  }

  // ------------------------------------------------------------------
  // Reading the index back
  // ------------------------------------------------------------------

  /** An `ow:` row of a mirroring store names its window. */
  lemma OpenRow(c: Codec, m: Contents, open: map<real, WindowState>, k: string) returns (w: real)
    requires c.Valid() && MirrorsOpen(c, m, open) && k in m && "ow:" <= k
    ensures w in open && w == c.parse(k[3..]) && k == OpenKey(c, w) && m[k] == OpenRec(open[w])
  {
    w :| w in open && k == OpenKey(c, w);
    assert k[3..] == c.fmt(w);
  }

  lemma ClosedRow(c: Codec, m: Contents, closed: map<real, WindowResult>, k: string) returns (w: real)
    requires c.Valid() && RecordsClosed(c, m, closed) && k in m && "cw:" <= k
    ensures w == c.parse(k[3..]) && IsClosedRecord(c, m, closed, k, w)
  {
    w :| IsClosedRecord(c, m, closed, k, w);
    assert k[3..] == c.fmt(w);
  }

  lemma SeenRow(m: Contents, seen: map<string, real>, k: string) returns (id: string)
    requires MirrorsSeen(m, seen) && k in m && "si:" <= k
    ensures id in seen && id == k[3..] && k == SeenKey(id) && m[k] == SeenRec(seen[id])
  {
    id :| id in seen && k == SeenKey(id);
    assert k[3..] == id;
  }
}
