/** What a watermark collector was told, read off the messages delivered to it: the last report of each partition,
    the largest watermark reported, who is recent enough to be counted, and what that means for the global
    watermark. Both the coordinator and the aggregator are such collectors. */
module ReportHistory {
  import opened CoordinatorSpec
  import opened Extended
  import opened GuardedMin
  import opened Sets

  /** A heartbeat and the two readings of the clock while it is received. */
  datatype Delivery = Delivery(hb: Heartbeat, now: real, later: real)

  // ------------------------------------------------------------------
  // The history of heartbeats
  // ------------------------------------------------------------------

  /** A heartbeat is accepted unless its worker was heard before and its token is negative or smaller than one of
      that worker's. */
  ghost predicate Accepted(ds: seq<Delivery>, n: nat)
    requires n < |ds|
  {
    forall j | 0 <= j < n && ds[j].hb.worker == ds[n].hb.worker ::
      0 <= ds[n].hb.token && ds[j].hb.token <= ds[n].hb.token
  }

  ghost predicate Reports(ds: seq<Delivery>, n: nat, p: int)
    requires n < |ds|
  {
    Accepted(ds, n) && p in ds[n].hb.partitions
  }

  /** The last of the first `n` deliveries that reported partition `p`, or -1. */
  ghost function LastReport(ds: seq<Delivery>, n: nat, p: int): (l: int)
    requires n <= |ds|
    ensures -1 <= l < n
    ensures l >= 0 ==> Reports(ds, l, p)
  {
    if n == 0 then -1 else if Reports(ds, n - 1, p) then n - 1 else LastReport(ds, n - 1, p)
  }

  /** The largest watermark reported for `p` so far. */
  ghost function Highest(ds: seq<Delivery>, n: nat, p: int): Ext
    requires n <= |ds|
  {
    if n == 0 then NegInf
    else if Reports(ds, n - 1, p) then Highest(ds, n - 1, p).Max(ds[n - 1].hb.partitions[p])
    else Highest(ds, n - 1, p)
  }

  /** How old the last report of `p` is when delivery `n` has been received. */
  ghost function Age(ds: seq<Delivery>, n: nat, p: int): real
    requires n < |ds| && LastReport(ds, n + 1, p) >= 0
  {
    ds[n].later - ds[LastReport(ds, n + 1, p)].now
  }

  /** At delivery `n` the last report of `p` is at most `limit` old and did not mark `p` idle. */
  ghost predicate Meets(ds: seq<Delivery>, limit: real, n: nat, p: int)
    requires n < |ds|
  {
    var l := LastReport(ds, n + 1, p);
    l >= 0 && Age(ds, n, p) <= limit && p !in ds[l].hb.idle
  }

  /** The least watermark reported by the partitions that meet that test. */
  ghost predicate IsLeast(ds: seq<Delivery>, limit: real, n: nat, m: Ext)
    requires n < |ds|
  {
    && (exists p :: Meets(ds, limit, n, p) && Highest(ds, n + 1, p) == m)
    && (forall p :: Meets(ds, limit, n, p) ==> m.Le(Highest(ds, n + 1, p)))
  }

  /** The global watermark rises to that least watermark if it is larger; it stays when nobody meets the test or the
      message is rejected. */
  ghost predicate Moves(ds: seq<Delivery>, limit: real, n: nat, before: Ext, after: Ext)
    requires n < |ds|
  {
    if Accepted(ds, n) && exists p :: Meets(ds, limit, n, p)
    then exists m :: IsLeast(ds, limit, n, m) && after == before.Max(m)
    else after == before
  }

  /** The global watermarks `gs` before, between and after the messages. */
  ghost predicate MovesAll(ds: seq<Delivery>, limit: real, gs: seq<Ext>) {
    |gs| == |ds| + 1 && forall i | 0 <= i < |ds| :: Moves(ds, limit, i, gs[i], gs[i + 1])
  }

  // ------------------------------------------------------------------
  // Safety
  // ------------------------------------------------------------------

  /** Delivery `n` is the first accepted one that reports `p`. */
  ghost predicate IsFirstReport(ds: seq<Delivery>, n: nat, p: int)
    requires n < |ds|
  {
    Reports(ds, n, p) && LastReport(ds, n, p) < 0
  }

  /** From its first report on, `p` meets the test at every accepted delivery. */
  ghost predicate NeverLeftOut(ds: seq<Delivery>, limit: real, n: nat, p: int)
    requires n <= |ds|
  {
    forall i | 0 <= i < n && Accepted(ds, i) && LastReport(ds, i + 1, p) >= 0 :: Meets(ds, limit, i, p)
  }

  /** The first report of `p` is not behind the global watermark of that moment. */
  ghost predicate JoinsInTime(ds: seq<Delivery>, gs: seq<Ext>, n: nat, p: int)
    requires n <= |ds| < |gs|
  {
    forall i | 0 <= i < n && IsFirstReport(ds, i, p) :: gs[i].Le(ds[i].hb.partitions[p])
  }

  /** One delivery: whoever meets the test is not overtaken by the new minimum. */
  lemma NotOvertaken(ds: seq<Delivery>, limit: real, n: nat, p: int, before: Ext, after: Ext)
    requires n < |ds| && Moves(ds, limit, n, before, after) && before.Le(Highest(ds, n + 1, p))
    requires Accepted(ds, n) ==> Meets(ds, limit, n, p)
    ensures after.Le(Highest(ds, n + 1, p))
  {
    hide Accepted, Meets, Highest;
  }

  lemma NeverBack(ds: seq<Delivery>, limit: real, n: nat, before: Ext, after: Ext)
    requires n < |ds| && Moves(ds, limit, n, before, after)
    ensures before.Le(after)
  {
    hide Accepted, Meets, Highest, IsLeast;
  }

  lemma SafePrefix(ds: seq<Delivery>, limit: real, gs: seq<Ext>, n: nat, p: int)
    requires n < |ds| < |gs| && LastReport(ds, n + 1, p) >= 0
    requires NeverLeftOut(ds, limit, n + 1, p) && JoinsInTime(ds, gs, n + 1, p)
    ensures NeverLeftOut(ds, limit, n, p) && JoinsInTime(ds, gs, n, p)
    ensures Accepted(ds, n) ==> Meets(ds, limit, n, p)
    ensures LastReport(ds, n, p) < 0 ==> Reports(ds, n, p) && gs[n].Le(ds[n].hb.partitions[p])
  {
    hide Accepted, Meets, Ext.Le;
    if LastReport(ds, n, p) < 0 {
      assert IsFirstReport(ds, n, p);
    }
  }

  lemma HighestRises(ds: seq<Delivery>, n: nat, p: int, g: Ext)
    requires n < |ds| && g.Le(Highest(ds, n, p))
    ensures g.Le(Highest(ds, n + 1, p))
  {
    hide Accepted;
  }

  lemma FirstIsHighest(ds: seq<Delivery>, n: nat, p: int)
    requires n < |ds| && Reports(ds, n, p) && Highest(ds, n, p) == NegInf
    ensures Highest(ds, n + 1, p) == ds[n].hb.partitions[p]
  {
    hide Accepted;
  }

  lemma {:induction false} NoReportBefore(ds: seq<Delivery>, n: nat, p: int)
    requires n <= |ds| && LastReport(ds, n, p) < 0
    ensures Highest(ds, n, p) == NegInf
  {
    hide Accepted;
    if n > 0 {
      NoReportBefore(ds, n - 1, p);
    }
  }

  lemma MoveOf(ds: seq<Delivery>, limit: real, gs: seq<Ext>, n: nat)
    requires MovesAll(ds, limit, gs) && n < |ds|
    ensures |gs| == |ds| + 1 && Moves(ds, limit, n, gs[n], gs[n + 1])
  {
  }

  /** A partition that joined in time and was never left out is not overtaken. */
  lemma {:induction false} NeverOvertaken(ds: seq<Delivery>, limit: real, gs: seq<Ext>, n: nat, p: int)
    requires MovesAll(ds, limit, gs) && n <= |ds| && LastReport(ds, n, p) >= 0
    requires NeverLeftOut(ds, limit, n, p) && JoinsInTime(ds, gs, n, p)
    ensures gs[n].Le(Highest(ds, n, p))
  {
    hide *;
    MoveOf(ds, limit, gs, n - 1);
    SafePrefix(ds, limit, gs, n - 1, p);
    if LastReport(ds, n - 1, p) >= 0 {
      NeverOvertaken(ds, limit, gs, n - 1, p);
      HighestRises(ds, n - 1, p, gs[n - 1]);
    } else {
      NoReportBefore(ds, n - 1, p);
      FirstIsHighest(ds, n - 1, p);
    }
    NotOvertaken(ds, limit, n - 1, p, gs[n - 1], gs[n]);
  }

  /** A partition that is never left out is never overtaken if and only if it joined in time. */
  lemma OvertakenIff(ds: seq<Delivery>, limit: real, gs: seq<Ext>, f: nat, p: int)
    requires MovesAll(ds, limit, gs) && f < |ds| && IsFirstReport(ds, f, p) && NeverLeftOut(ds, limit, |ds|, p)
    ensures (forall n | f < n <= |ds| :: gs[n].Le(Highest(ds, n, p))) <==> gs[f].Le(ds[f].hb.partitions[p])
  {
    hide Accepted, Meets, Moves, Ext.Le, Highest;
    NoReportBefore(ds, f, p);
    FirstIsHighest(ds, f, p);
    if gs[f].Le(ds[f].hb.partitions[p]) {
      forall n | f < n <= |ds| ensures gs[n].Le(Highest(ds, n, p)) {
        FirstReportIs(ds, limit, gs, f, n, p);
        NeverOvertaken(ds, limit, gs, n, p);
      }
    } else {
      NeverBack(ds, limit, f, gs[f], gs[f + 1]);
      StillBehind(gs[f], gs[f + 1], ds[f].hb.partitions[p]);
    }
  }

  lemma StillBehind(a: Ext, b: Ext, c: Ext)
    requires a.Le(b) && !a.Le(c)
    ensures !b.Le(c)
  {
  }

  /** There is one first report, and after it the partition stays reported. */
  lemma FirstReportIs(ds: seq<Delivery>, limit: real, gs: seq<Ext>, f: nat, n: nat, p: int)
    requires f < n <= |ds| < |gs| && IsFirstReport(ds, f, p) && NeverLeftOut(ds, limit, |ds|, p)
    requires gs[f].Le(ds[f].hb.partitions[p])
    ensures LastReport(ds, n, p) >= 0 && NeverLeftOut(ds, limit, n, p) && JoinsInTime(ds, gs, n, p)
  {
    hide Accepted, Meets, Ext.Le;
    StaysReported(ds, f + 1, n, p);
    forall i: nat | i < n && IsFirstReport(ds, i, p) ensures i == f {
      if i < f {
        StaysReported(ds, i + 1, f, p);
      } else if f < i {
        StaysReported(ds, f + 1, i, p);
      }
    }
  }

  lemma {:induction false} StaysReported(ds: seq<Delivery>, m: nat, n: nat, p: int)
    requires m <= n <= |ds| && LastReport(ds, m, p) >= 0
    ensures LastReport(ds, n, p) >= 0
  {
    hide Accepted;
    if m < n {
      StaysReported(ds, m, n - 1, p);
    }
  }

  // ------------------------------------------------------------------
  // Who was counted every time
  // ------------------------------------------------------------------

  /** `counted` is the set of partitions that meet the test. */
  ghost predicate CountsMeeting(ds: seq<Delivery>, limit: real, n: nat, counted: set<int>)
    requires n < |ds|
  {
    forall q :: q in counted <==> Meets(ds, limit, n, q)
  }

  /** If anyone meets the test at delivery `n`, `p` does. */
  ghost predicate MeetsIfAny(ds: seq<Delivery>, limit: real, n: nat, p: int)
    requires n < |ds|
  {
    forall q | Meets(ds, limit, n, q) :: Meets(ds, limit, n, p)
  }

  ghost predicate AlwaysMeets(ds: seq<Delivery>, limit: real, n: nat, p: int)
    requires n <= |ds|
  {
    forall i | 0 <= i < n && Accepted(ds, i) :: MeetsIfAny(ds, limit, i, p)
  }

  /** Nobody has met the test so far. */
  ghost predicate NobodyMet(ds: seq<Delivery>, limit: real, n: nat)
    requires n <= |ds|
  {
    forall i | 0 <= i < n && Accepted(ds, i) :: NobodyMeets(ds, limit, i)
  }

  ghost predicate NobodyMeets(ds: seq<Delivery>, limit: real, n: nat)
    requires n < |ds|
  {
    forall q :: !Meets(ds, limit, n, q)
  }

  lemma CountedMeet(ds: seq<Delivery>, limit: real, n: nat, counted: set<int>, p: int)
    requires n < |ds| && CountsMeeting(ds, limit, n, counted)
    ensures counted == {} <==> NobodyMeets(ds, limit, n)
    ensures counted == {} || p in counted <==> MeetsIfAny(ds, limit, n, p)
  {
    hide Meets;
    if counted != {} {
      var q := Pick(counted);
      assert Meets(ds, limit, n, q);
    }
  }

  lemma StillCountedIff(t: Tracking, counted: set<int>, p: int)
    ensures var u := StillCounted(t, counted);
            && (u.Never? <==> t.Never? && counted == {})
            && (u.Never? || u.Holds(p) <==> (t.Never? || t.Holds(p)) && (counted == {} || p in counted))
  {
  }

  /** The bookkeeping of `StillCounted` says who always met the test. */
  ghost predicate TrackedOk(ds: seq<Delivery>, limit: real, n: nat, t: Tracking, p: int)
    requires n <= |ds|
  {
    && (t.Never? || t.Holds(p) <==> AlwaysMeets(ds, limit, n, p))
    && (t.Never? <==> NobodyMet(ds, limit, n))
  }

  lemma TrackedStep(ds: seq<Delivery>, limit: real, n: nat, t: Tracking, counted: set<int>, p: int)
    requires n < |ds| && TrackedOk(ds, limit, n, t, p) && (Accepted(ds, n) ==> CountsMeeting(ds, limit, n, counted))
    ensures TrackedOk(ds, limit, n + 1, if Accepted(ds, n) then StillCounted(t, counted) else t, p)
  {
    hide Accepted, MeetsIfAny, NobodyMeets, CountsMeeting, StillCounted;
    if Accepted(ds, n) {
      CountedMeet(ds, limit, n, counted, p);
      StillCountedIff(t, counted, p);
    }
    assert AlwaysMeets(ds, limit, n + 1, p) <==>
           AlwaysMeets(ds, limit, n, p) && (Accepted(ds, n) ==> MeetsIfAny(ds, limit, n, p));
  }

  // ------------------------------------------------------------------
  // The minimum
  // ------------------------------------------------------------------

  /** `locals` holds the largest watermark reported for every partition that meets the test. */
  ghost predicate LocalsAre(ds: seq<Delivery>, n: nat, locals: LocalWatermarks)
    requires n < |ds|
  {
    forall p :: p in locals ==> locals[p] == Highest(ds, n + 1, p)
  }

  lemma LeastIsMin(ds: seq<Delivery>, limit: real, n: nat, locals: LocalWatermarks, counted: set<int>, m: Ext)
    requires n < |ds| && counted <= locals.Keys && CountsMeeting(ds, limit, n, counted) && LocalsAre(ds, n, locals)
    ensures IsLeast(ds, limit, n, m) <==> IsMinOver(locals, counted, m)
  {
    hide Highest, Meets;
    if IsLeast(ds, limit, n, m) {
      var p :| Meets(ds, limit, n, p) && Highest(ds, n + 1, p) == m;
      assert p in counted && locals[p] == m;
    }
    if IsMinOver(locals, counted, m) {
      var p :| p in counted && locals[p] == m;
      assert Meets(ds, limit, n, p) && Highest(ds, n + 1, p) == m;
    }
  }

  /** The guarded minimum over the partitions that meet the test moves the global watermark as it should. */
  lemma GuardMoves(ds: seq<Delivery>, limit: real, n: nat, locals: LocalWatermarks, counted: set<int>, before: Ext)
    requires n < |ds| && Accepted(ds, n) && counted <= locals.Keys
    requires CountsMeeting(ds, limit, n, counted) && LocalsAre(ds, n, locals)
    ensures Moves(ds, limit, n, before, Guard(before, locals, counted))
  {
    hide Highest, Meets, Accepted, LocalsAre, IsLeast, Guard;
    if counted == {} {
      GuardNone(before, locals);
    } else {
      var p := Pick(counted);
      assert Meets(ds, limit, n, p);
      MinOverExists(locals, counted);
      var m :| IsMinOver(locals, counted, m);
      LeastIsMin(ds, limit, n, locals, counted, m);
      GuardIs(before, locals, counted, m);
    }
  }

  lemma GuardNone(before: Ext, locals: LocalWatermarks)
    ensures Guard(before, locals, {}) == before
  {
  }
}
