/** Closing windows one at a time, as the loops do, against closing them together. */
module StrictClosing {
  import opened Sorting
  import opened StrictSpec

  lemma CloseAllOpen(p: Params, s: State)
    ensures Close(p, s, s.open.Keys).open == map[]
  {
  }

  lemma CloseNone(p: Params, s: State)
    ensures Close(p, s, {}) == s
  {
  }

  lemma {:induction false} SortedSnoc(s: set<real>, w: real)
    requires forall x :: x in s ==> x < w
    ensures Sorted(s + {w}) == Sorted(s) + [w]
  {
    IncreasingSnoc(Sorted(s), w);
    IncreasingUnique(Sorted(s + {w}), Sorted(s) + [w]);
  }

  lemma ResultsSnoc(p: Params, open: map<real, WindowState>, ws: seq<real>, w: real)
    requires w in open && forall x :: x in ws ==> x in open
    ensures forall x :: x in ws + [w] ==> x in open
    ensures Results(p, open, ws + [w]) == Results(p, open, ws) + [ResultOf(p, w, open[w])]
  {
  }

  lemma ClosedOneMore(p: Params, open: map<real, WindowState>, closed: map<real, WindowResult>, done: set<real>,
                      w: real)
    requires done <= open.Keys && w in open
    ensures closed + (map x | x in done + {w} :: ResultOf(p, x, open[x])) ==
            (closed + map x | x in done :: ResultOf(p, x, open[x]))[w := ResultOf(p, w, open[w])]
  {
  }

  /** Closing windows one at a time in increasing order is closing them together. */
  lemma CloseOneMore(p: Params, s: State, done: set<real>, w: real)
    requires done <= s.open.Keys && w in s.open && w !in done && forall x :: x in done ==> x < w
    ensures var c, d := Close(p, s, done), Close(p, s, done + {w});
            && d.open == c.open - {w}
            && d.closed == c.closed[w := ResultOf(p, w, s.open[w])]
            && d.emitted == c.emitted + [ResultOf(p, w, s.open[w])]
            && w in c.open && c.open[w] == s.open[w]
            && d == c.(open := d.open, closed := d.closed, emitted := d.emitted)
  {
    hide Sorted, Results, ResultOf;
    SortedSnoc(done, w);
    ResultsSnoc(p, s.open, Sorted(done), w);
    ClosedOneMore(p, s.open, s.closed, done, w);
    assert s.open - (done + {w}) == s.open - done - {w};
  }
}
