/** The guarded minimum that both global watermarks use: the least local watermark, never going back. */
module GuardedMin {
  import opened Extended
  import opened Sets

  type LocalWatermarks = map<int, Ext>

  ghost predicate IsMinOver(locals: LocalWatermarks, counted: set<int>, m: Ext)
    requires counted <= locals.Keys
  {
    (exists p :: p in counted && locals[p] == m) && forall p :: p in counted ==> m.Le(locals[p])
  }

  lemma {:induction false} MinOverExists(locals: LocalWatermarks, counted: set<int>)
    requires counted <= locals.Keys && counted != {}
    ensures exists m :: IsMinOver(locals, counted, m)
  {
    var p := Pick(counted);
    if counted == {p} {
      assert IsMinOver(locals, counted, locals[p]);
    } else {
      MinOverExists(locals, counted - {p});
      var m :| IsMinOver(locals, counted - {p}, m);
      assert forall q :: q in counted ==> q == p || q in counted - {p};
      if m.Le(locals[p]) {
        assert IsMinOver(locals, counted, m);
      } else {
        assert IsMinOver(locals, counted, locals[p]);
      }
    }
  }

  /** The global watermark after a recomputation over the partitions in `counted`. */
  ghost function Guard(before: Ext, locals: LocalWatermarks, counted: set<int>): (after: Ext)
    requires counted <= locals.Keys
    ensures before.Le(after)
  {
    if counted == {} then before else
      MinOverExists(locals, counted);
      var m :| IsMinOver(locals, counted, m);
      before.Max(m)
  }

  lemma GuardIs(before: Ext, locals: LocalWatermarks, counted: set<int>, m: Ext)
    requires counted <= locals.Keys && IsMinOver(locals, counted, m)
    ensures Guard(before, locals, counted) == before.Max(m)
  {
    MinOverExists(locals, counted);
    var p :| p in counted && locals[p] == m;
  }

  /** The partitions counted in every recomputation that counted anyone. */
  ghost function StillCounted(always: Tracking, counted: set<int>): Tracking {
    if counted == {} then always
    else if always.Never? then Always(counted) else Always(always.ids * counted)
  }

  datatype Tracking = Never | Always(ids: set<int>) {
    ghost predicate Holds(p: int) {
      Always? && p in ids
    }
  }

  /** Below every partition that has been counted each time. */
  ghost predicate Below(w: Ext, always: Tracking, locals: LocalWatermarks) {
    if always.Never? then w == NegInf
    else forall p :: p in always.ids ==> p in locals && w.Le(locals[p])
  }

  /** A recomputation over newer local values keeps the global watermark below them. */
  lemma GuardKeepsBelow(w: Ext, always: Tracking, before: LocalWatermarks, locals: LocalWatermarks, counted: set<int>)
    requires counted <= locals.Keys && Below(w, always, before)
    requires forall p :: p in before ==> p in locals && before[p].Le(locals[p])
    ensures Below(Guard(w, locals, counted), StillCounted(always, counted), locals)
  {
    if counted != {} {
      MinOverExists(locals, counted);
      var m :| IsMinOver(locals, counted, m);
      GuardIs(w, locals, counted, m);
    }
  }

  /** `min(active)` */
  method LeastWatermark(locals: map<int, Ext>, counted: set<int>) returns (m: Ext)
    requires counted <= locals.Keys && counted != {}
    ensures IsMinOver(locals, counted, m)
  {
    ghost var some := Pick(counted);
    var first :| first in counted;
    m := locals[first];
    var todo := counted - {first};
    while todo != {}
      invariant todo <= counted && first !in todo
      invariant exists p :: p in counted && locals[p] == m
      invariant forall p :: p in counted && p !in todo ==> m.Le(locals[p])
      decreases todo
    {
      ghost var next := Pick(todo);
      var p :| p in todo;
      if locals[p].Lt(m) {
        m := locals[p];
      }
      todo := todo - {p};
    }
  }
}
