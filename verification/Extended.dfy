/** Watermarks and event times: the reals with the initial value minus infinity. */
module Extended {
  datatype Ext = NegInf | Fin(r: real) {

    predicate Le(o: Ext) {
      NegInf? || (o.Fin? && r <= o.r)
    }

    predicate Lt(o: Ext) {
      o.Fin? && (NegInf? || r < o.r)
    }

    function Max(o: Ext): Ext {
      if Le(o) then o else this
    }

    function Minus(d: real): Ext {
      match this
      case NegInf => NegInf
      case Fin(x) => Fin(x - d)
    }
  }

  function Ceil(x: real): (c: int)
    ensures c as real >= x > c as real - 1.0
  {
    -((-x).Floor)
  }
}
