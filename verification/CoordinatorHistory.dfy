/** The strict coordinator read off the heartbeats delivered to it: which ones it accepts, what it knows of each
    partition, and the global watermark. */
module CoordinatorHistory {
  import opened CoordinatorSpec
  import opened Extended
  import opened GuardedMin
  import opened ReportHistory

  ghost function After(ds: seq<Delivery>, n: nat): Coord
    requires n <= |ds|
  {
    if n == 0 then COORD_INIT else Receive(After(ds, n - 1), ds[n - 1].hb, ds[n - 1].now, ds[n - 1].later)
  }

  // ------------------------------------------------------------------
  // Tokens
  // ------------------------------------------------------------------

  /** The coordinator remembers the largest token of every worker heard, and at least zero. */
  ghost predicate TokensAre(ds: seq<Delivery>, n: nat, tokens: map<string, int>)
    requires n <= |ds|
  {
    && (forall j | 0 <= j < n ::
          ds[j].hb.worker in tokens && ds[j].hb.token <= tokens[ds[j].hb.worker] && 0 <= tokens[ds[j].hb.worker])
    && (forall w | w in tokens :: exists j :: 0 <= j < n && ds[j].hb.worker == w)
    && (forall w | w in tokens && tokens[w] > 0 ::
          exists j :: 0 <= j < n && ds[j].hb.worker == w && ds[j].hb.token == tokens[w])
  }

  lemma FreshIff(ds: seq<Delivery>, n: nat, c: Coord)
    requires n < |ds| && TokensAre(ds, n, c.tokens)
    ensures Fresh(c, ds[n].hb) <==> Accepted(ds, n)
  {
    var hb := ds[n].hb;
    if hb.worker in c.tokens {
      var i :| 0 <= i < n && ds[i].hb.worker == hb.worker;
      if Accepted(ds, n) && c.tokens[hb.worker] > 0 {
        var j :| 0 <= j < n && ds[j].hb.worker == hb.worker && ds[j].hb.token == c.tokens[hb.worker];
      }
    }
  }

  lemma ReceiveTokens(c: Coord, hb: Heartbeat, now: real, later: real)
    ensures Receive(c, hb, now, later).tokens ==
            if !Fresh(c, hb) then c.tokens else
              c.tokens[hb.worker := if hb.worker in c.tokens || hb.token >= 0 then hb.token else 0]
  {
    hide Reported, WithStatuses, Guard, Locals, Counted;
  }

  lemma TokenAdded(ds: seq<Delivery>, n: nat, tokens: map<string, int>, token: int)
    requires n < |ds| && TokensAre(ds, n, tokens)
    requires ds[n].hb.worker in tokens ==> tokens[ds[n].hb.worker] <= token
    requires ds[n].hb.token <= token && 0 <= token && (token > 0 ==> ds[n].hb.token == token)
    ensures TokensAre(ds, n + 1, tokens[ds[n].hb.worker := token])
  {
    var more := tokens[ds[n].hb.worker := token];
    assert ds[n].hb.worker in more;
    forall w | w in more ensures exists j :: 0 <= j < n + 1 && ds[j].hb.worker == w {
      if w != ds[n].hb.worker {
        var j :| 0 <= j < n && ds[j].hb.worker == w;
      }
    }
    forall w | w in more && more[w] > 0
      ensures exists j :: 0 <= j < n + 1 && ds[j].hb.worker == w && ds[j].hb.token == more[w]
    {
      if w == ds[n].hb.worker {
        assert ds[n].hb.worker == w && ds[n].hb.token == more[w];
      } else {
        var j :| 0 <= j < n && ds[j].hb.worker == w && ds[j].hb.token == tokens[w];
      }
    }
  }

  /** A smaller token than one remembered adds nothing. */
  lemma TokenRefused(ds: seq<Delivery>, n: nat, tokens: map<string, int>)
    requires n < |ds| && TokensAre(ds, n, tokens)
    requires ds[n].hb.worker in tokens && ds[n].hb.token < tokens[ds[n].hb.worker]
    ensures TokensAre(ds, n + 1, tokens)
  {
    forall w | w in tokens ensures exists j :: 0 <= j < n + 1 && ds[j].hb.worker == w {
      var j :| 0 <= j < n && ds[j].hb.worker == w;
    }
    forall w | w in tokens && tokens[w] > 0
      ensures exists j :: 0 <= j < n + 1 && ds[j].hb.worker == w && ds[j].hb.token == tokens[w]
    {
      var j :| 0 <= j < n && ds[j].hb.worker == w && ds[j].hb.token == tokens[w];
    }
  }

  lemma TokensNonNegative(ds: seq<Delivery>, n: nat, tokens: map<string, int>, w: string)
    requires n <= |ds| && TokensAre(ds, n, tokens) && w in tokens
    ensures tokens[w] >= 0
  {
    var j :| 0 <= j < n && ds[j].hb.worker == w;
  }

  lemma TokensStep(ds: seq<Delivery>, n: nat, c: Coord)
    requires n < |ds| && TokensAre(ds, n, c.tokens)
    ensures TokensAre(ds, n + 1, Receive(c, ds[n].hb, ds[n].now, ds[n].later).tokens)
  {
    hide TokensAre, Receive;
    var hb := ds[n].hb;
    ReceiveTokens(c, hb, ds[n].now, ds[n].later);
    if hb.worker in c.tokens {
      TokensNonNegative(ds, n, c.tokens, hb.worker);
    }
    if Fresh(c, hb) {
      TokenAdded(ds, n, c.tokens, if hb.worker in c.tokens || hb.token >= 0 then hb.token else 0);
    } else {
      TokenRefused(ds, n, c.tokens);
    }
  }

  lemma TokensStart(ds: seq<Delivery>)
    ensures TokensAre(ds, 0, After(ds, 0).tokens)
  {
  }

  lemma {:induction false} TokensByHistory(ds: seq<Delivery>, n: nat)
    requires n <= |ds|
    ensures TokensAre(ds, n, After(ds, n).tokens)
  {
    hide TokensAre, Receive;
    if n == 0 {
      TokensStart(ds);
    } else {
      TokensByHistory(ds, n - 1);
      TokensStep(ds, n - 1, After(ds, n - 1));
    }
  }

  // ------------------------------------------------------------------
  // Partitions
  // ------------------------------------------------------------------

  /** What the coordinator knows of partition `p`, apart from its status. */
  ghost predicate PartIs(ds: seq<Delivery>, n: nat, parts: map<int, PartitionInfo>, p: int)
    requires n <= |ds|
  {
    var l := LastReport(ds, n, p);
    && (p in parts <==> l >= 0)
    && (l < 0 ==> Highest(ds, n, p) == NegInf)
    && (l >= 0 ==>
          && parts[p].worker == ds[l].hb.worker && parts[p].lastUpdate == ds[l].now
          && parts[p].watermark == Highest(ds, n, p)
          && (parts[p].temporaryIdle <==> p in ds[l].hb.idle))
  }

  /** The partitions after an accepted heartbeat. */
  lemma ReceiveParts(c: Coord, hb: Heartbeat, now: real, later: real)
    ensures Receive(c, hb, now, later).parts ==
            if Fresh(c, hb) then WithStatuses(Reported(c.parts, hb, now), later) else c.parts
  {
    hide Reported, WithStatuses, Guard, Locals, Counted;
  }

  lemma PartStep(ds: seq<Delivery>, n: nat, parts: map<int, PartitionInfo>, p: int)
    requires n < |ds| && PartIs(ds, n, parts, p) && Accepted(ds, n)
    ensures PartIs(ds, n + 1, WithStatuses(Reported(parts, ds[n].hb, ds[n].now), ds[n].later), p)
  {
    hide Accepted;
  }

  lemma PartStays(ds: seq<Delivery>, n: nat, parts: map<int, PartitionInfo>, p: int)
    requires n < |ds| && PartIs(ds, n, parts, p) && !Accepted(ds, n)
    ensures PartIs(ds, n + 1, parts, p)
  {
    hide Accepted;
  }

  lemma PartStart(ds: seq<Delivery>, p: int)
    ensures PartIs(ds, 0, After(ds, 0).parts, p)
  {
  }

  lemma {:induction false} PartByHistory(ds: seq<Delivery>, n: nat, p: int)
    requires n <= |ds|
    ensures PartIs(ds, n, After(ds, n).parts, p)
  {
    hide TokensAre, Receive, Fresh, Accepted, PartIs, WithStatuses, Reported;
    if n == 0 {
      PartStart(ds, p);
    } else {
      PartByHistory(ds, n - 1, p);
      TokensByHistory(ds, n - 1);
      var c := After(ds, n - 1);
      FreshIff(ds, n - 1, c);
      ReceiveParts(c, ds[n - 1].hb, ds[n - 1].now, ds[n - 1].later);
      if Accepted(ds, n - 1) {
        PartStep(ds, n - 1, c.parts, p);
      } else {
        PartStays(ds, n - 1, c.parts, p);
      }
    }
  }

  /** After an accepted heartbeat the status of a partition is the age of its last report. */
  lemma StatusByHistory(ds: seq<Delivery>, n: nat, p: int)
    requires n < |ds| && Accepted(ds, n) && LastReport(ds, n + 1, p) >= 0
    ensures p in After(ds, n + 1).parts
    ensures var status, age := After(ds, n + 1).parts[p].status, Age(ds, n, p);
            && (status.Active? <==> age <= 0.5)
            && (status.Stale? <==> 0.5 < age <= 2.0)
            && (status.Idle? <==> 2.0 < age <= 30.0)
            && (status.Failed? <==> 30.0 < age)
  {
    hide TokensAre, Receive, Fresh, Accepted, Reported, Highest, LastReport;
    TokensByHistory(ds, n);
    FreshIff(ds, n, After(ds, n));
    ReceiveParts(After(ds, n), ds[n].hb, ds[n].now, ds[n].later);
    PartByHistory(ds, n + 1, p);
  }

  /** The partitions the minimum ranges over are those whose last report is at most 30 s old and not idle. */
  lemma CountedIsMeeting(ds: seq<Delivery>, n: nat)
    requires n < |ds| && Accepted(ds, n)
    ensures CountsMeeting(ds, 30.0, n, Counted(After(ds, n + 1).parts))
  {
    hide After, Accepted, Highest;
    forall p ensures p in Counted(After(ds, n + 1).parts) <==> Meets(ds, 30.0, n, p) {
      PartByHistory(ds, n + 1, p);
      if LastReport(ds, n + 1, p) >= 0 {
        StatusByHistory(ds, n, p);
      }
    }
  }

  lemma LocalsByHistory(ds: seq<Delivery>, n: nat)
    requires n < |ds|
    ensures LocalsAre(ds, n, Locals(After(ds, n + 1).parts))
  {
    var parts := After(ds, n + 1).parts;
    hide After, Accepted, Highest;
    forall p | p in parts ensures Locals(parts)[p] == Highest(ds, n + 1, p) {
      PartByHistory(ds, n + 1, p);
    }
  }

  // ------------------------------------------------------------------
  // The global watermark
  // ------------------------------------------------------------------

  lemma ReceiveGlobal(c: Coord, hb: Heartbeat, now: real, later: real)
    requires Fresh(c, hb) && c.wPrev == c.wGlobal
    ensures var d := Receive(c, hb, now, later);
            && d.wGlobal == Guard(c.wGlobal, Locals(d.parts), Counted(d.parts)) && d.wPrev == d.wGlobal
            && d.term == (if hb.token > c.term then hb.token else c.term)
            && d.violations == c.violations
            && d.lastSeen == c.lastSeen[hb.worker := now]
  {
    hide Reported, WithStatuses, Locals, Counted;
  }

  lemma {:induction false} PrevIsGlobal(ds: seq<Delivery>, n: nat)
    requires n <= |ds|
    ensures After(ds, n).wPrev == After(ds, n).wGlobal
  {
    if n > 0 {
      PrevIsGlobal(ds, n - 1);
      hide Reported, WithStatuses, Guard, Locals, Counted;
    }
  }

  /** What one heartbeat does to the global watermark. A rejected one counts as a violation and changes nothing else.
      An accepted one raises it to the least watermark reported by the partitions whose last report is at most 30 s
      old and did not mark them idle, if that is larger, and leaves it alone when there are none. */
  lemma HeartbeatMeaning(ds: seq<Delivery>, n: nat)
    requires n < |ds|
    ensures var c, d := After(ds, n), After(ds, n + 1);
            && (!Accepted(ds, n) ==> d == c.(violations := c.violations + 1))
            && Moves(ds, 30.0, n, c.wGlobal, d.wGlobal)
  {
    var c, d := After(ds, n), After(ds, n + 1);
    TokensByHistory(ds, n);
    FreshIff(ds, n, c);
    if Accepted(ds, n) {
      PrevIsGlobal(ds, n);
      ReceiveGlobal(c, ds[n].hb, ds[n].now, ds[n].later);
      CountedIsMeeting(ds, n);
      LocalsByHistory(ds, n);
      hide *;
      GuardMoves(ds, 30.0, n, Locals(d.parts), Counted(d.parts), c.wGlobal);
    }
  }

  /** The global watermarks before, between and after the heartbeats. */
  ghost function Globals(ds: seq<Delivery>): seq<Ext> {
    seq(|ds| + 1, i requires 0 <= i <= |ds| => After(ds, i).wGlobal)
  }

  lemma GlobalsMove(ds: seq<Delivery>)
    ensures MovesAll(ds, 30.0, Globals(ds))
  {
    hide After, Accepted, Moves;
    forall i | 0 <= i < |ds| ensures Moves(ds, 30.0, i, Globals(ds)[i], Globals(ds)[i + 1]) {
      HeartbeatMeaning(ds, i);
    }
  }

  /** A partition that registers late can be behind for good: partition 1 reports 20, then partition 0 reports 10. */
  lemma LateJoinerIsBehind() returns (ds: seq<Delivery>)
    ensures |ds| == 2 && IsFirstReport(ds, 1, 0) && NeverLeftOut(ds, 30.0, 2, 0)
    ensures Highest(ds, 2, 0) == Fin(10.0) && Fin(20.0).Le(Globals(ds)[2])
  {
    hide After, Accepted, Moves, MovesAll, Meets;
    var hb := Heartbeat("w", map[1 := Fin(20.0)], 1, {});
    var hb' := Heartbeat("w", map[0 := Fin(10.0)], 1, {});
    ds := [Delivery(hb, 0.0, 0.0), Delivery(hb', 1.0, 1.0)];
    LateJoiner(ds);
    GlobalsMove(ds);
    MoveOf(ds, 30.0, Globals(ds), 0);
    MoveOf(ds, 30.0, Globals(ds), 1);
    FirstMeets(ds, 30.0, 1, Globals(ds)[0], Globals(ds)[1]);
    NeverBack(ds, 30.0, 1, Globals(ds)[1], Globals(ds)[2]);
  }

  lemma LateJoiner(ds: seq<Delivery>)
    requires |ds| == 2 && ds[0].hb.token == ds[1].hb.token == 1 && ds[1].now == ds[1].later
    requires ds[0].hb.partitions == map[1 := Fin(20.0)] && ds[1].hb.partitions == map[0 := Fin(10.0)]
    requires ds[0].hb.idle == ds[1].hb.idle == {}
    ensures Accepted(ds, 0) && IsFirstReport(ds, 1, 0) && NeverLeftOut(ds, 30.0, 2, 0) && Highest(ds, 2, 0) == Fin(10.0)
  {
    assert Accepted(ds, 0) && Accepted(ds, 1);
    assert LastReport(ds, 0, 0) == -1 == LastReport(ds, 1, 0) && LastReport(ds, 2, 0) == 1;
    assert Highest(ds, 0, 0) == NegInf == Highest(ds, 1, 0);
  }

  lemma FirstMeets(ds: seq<Delivery>, limit: real, p: int, before: Ext, after: Ext)
    requires ds != [] && Accepted(ds, 0) && ds[0].hb.partitions.Keys == {p} && ds[0].hb.idle == {}
    requires ds[0].later == ds[0].now && limit >= 0.0 && Moves(ds, limit, 0, before, after)
    ensures ds[0].hb.partitions[p].Le(after)
  {
    hide Accepted;
    assert Highest(ds, 0, p) == NegInf && LastReport(ds, 0, p) == -1;
    assert Meets(ds, limit, 0, p) && Highest(ds, 1, p) == ds[0].hb.partitions[p];
    forall q | Meets(ds, limit, 0, q) ensures q == p {
      assert LastReport(ds, 0, q) == -1;
    }
  }

  // ------------------------------------------------------------------
  // The other fields
  // ------------------------------------------------------------------

  /** The largest token accepted, and at least zero. */
  ghost function Term(ds: seq<Delivery>, n: nat): int
    requires n <= |ds|
  {
    if n == 0 then 0
    else if Accepted(ds, n - 1) && ds[n - 1].hb.token > Term(ds, n - 1) then ds[n - 1].hb.token
    else Term(ds, n - 1)
  }

  /** How many heartbeats were rejected. */
  ghost function Rejections(ds: seq<Delivery>, n: nat): nat
    requires n <= |ds|
  {
    if n == 0 then 0 else Rejections(ds, n - 1) + if Accepted(ds, n - 1) then 0 else 1
  }

  /** When worker `w` was last heard. */
  ghost predicate LastHeard(ds: seq<Delivery>, n: nat, w: string, t: real)
    requires n <= |ds|
  {
    exists i :: && 0 <= i < n && Accepted(ds, i) && ds[i].hb.worker == w && ds[i].now == t
                && forall j | i < j < n && ds[j].hb.worker == w :: !Accepted(ds, j)
  }

  lemma LastHeardStep(ds: seq<Delivery>, n: nat, w: string, t: real)
    requires n < |ds|
    requires if Accepted(ds, n) && ds[n].hb.worker == w then t == ds[n].now else LastHeard(ds, n, w, t)
    ensures LastHeard(ds, n + 1, w, t)
  {
    hide Accepted;
    if Accepted(ds, n) && ds[n].hb.worker == w {
      assert Accepted(ds, n) && ds[n].now == t;
    } else {
      var i :| && 0 <= i < n && Accepted(ds, i) && ds[i].hb.worker == w && ds[i].now == t
               && forall j | i < j < n && ds[j].hb.worker == w :: !Accepted(ds, j);
      assert Accepted(ds, i) && ds[i].now == t;
    }
  }

  lemma {:induction false} BookkeepingByHistory(ds: seq<Delivery>, n: nat, w: string)
    requires n <= |ds|
    ensures After(ds, n).term == Term(ds, n) && After(ds, n).violations == Rejections(ds, n)
    ensures w in After(ds, n).lastSeen ==> LastHeard(ds, n, w, After(ds, n).lastSeen[w])
  {
    hide Receive, Accepted, Fresh, LastHeard, TokensAre, Counted, Guard, Locals;
    if n > 0 {
      BookkeepingByHistory(ds, n - 1, w);
      var c, d := After(ds, n - 1), ds[n - 1];
      TokensByHistory(ds, n - 1);
      FreshIff(ds, n - 1, c);
      PrevIsGlobal(ds, n - 1);
      if Accepted(ds, n - 1) {
        ReceiveGlobal(c, d.hb, d.now, d.later);
      } else {
        HeartbeatMeaning(ds, n - 1);
      }
      if w in After(ds, n).lastSeen {
        LastHeardStep(ds, n - 1, w, After(ds, n).lastSeen[w]);
      }
    }
  }

  // ------------------------------------------------------------------
  // Who was counted every time
  // ------------------------------------------------------------------

  /** The bookkeeping of the protocol, over deliveries. */
  ghost function Tracked(ds: seq<Delivery>, n: nat): Tracking
    requires n <= |ds|
  {
    if n == 0 then Never
    else if Accepted(ds, n - 1) then StillCounted(Tracked(ds, n - 1), Counted(After(ds, n).parts))
    else Tracked(ds, n - 1)
  }

  lemma {:induction false} TrackedIff(ds: seq<Delivery>, n: nat, p: int)
    requires n <= |ds|
    ensures TrackedOk(ds, 30.0, n, Tracked(ds, n), p)
  {
    hide After, Accepted, MeetsIfAny, NobodyMeets, Counted, StillCounted, CountsMeeting;
    if n > 0 {
      TrackedIff(ds, n - 1, p);
      if Accepted(ds, n - 1) {
        CountedIsMeeting(ds, n - 1);
      }
      TrackedStep(ds, 30.0, n - 1, Tracked(ds, n - 1), Counted(After(ds, n).parts), p);
    }
  }

  // ------------------------------------------------------------------
  // Histories that grow at the end
  // ------------------------------------------------------------------

  lemma {:induction false} AfterPrefix(ds: seq<Delivery>, m: nat, n: nat)
    requires n <= m <= |ds|
    ensures After(ds[..m], n) == After(ds, n) && Tracked(ds[..m], n) == Tracked(ds, n)
  {
    hide Receive, Counted, StillCounted;
    if n > 0 {
      AfterPrefix(ds, m, n - 1);
      assert Accepted(ds[..m], n - 1) == Accepted(ds, n - 1);
    }
  }
}
