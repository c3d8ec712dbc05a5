/** Natural powers of a base above one, and their inverse. */
module Power {
  import opened Reals

  function Pow(g: real, n: nat): real {
    if n == 0 then 1.0 else g * Pow(g, n - 1)
  }

  lemma {:induction false} PowAtLeastOne(g: real, n: nat)
    requires g > 1.0
    ensures Pow(g, n) >= 1.0
  {
    if n > 0 {
      PowAtLeastOne(g, n - 1);
      ProductWeaklyMonotone(1.0, g, Pow(g, n - 1));
    }
  }

  lemma {:induction false} PowMonotone(g: real, m: nat, n: nat)
    requires g > 1.0 && m <= n
    ensures Pow(g, m) <= Pow(g, n)
    decreases n - m
  {
    if m < n {
      PowMonotone(g, m, n - 1);
      PowAtLeastOne(g, n - 1);
      ProductWeaklyMonotone(1.0, g, Pow(g, n - 1));
    }
  }

  function Measure(g: real, x: real): (r: real)
    requires g > 1.0
    ensures r >= 0.0
  {
    if x <= 1.0 then 0.0 else
      ProductPositive(x, g / (g - 1.0));
      x * (g / (g - 1.0))
  }

  lemma MeasureDecreases(g: real, x: real)
    requires g > 1.0 && x > 1.0
    ensures Measure(g, x / g) <= Measure(g, x) - 1.0
  {
    var c := Quotient(g, g - 1.0);
    var y := Quotient(x, g);
    // c * (g - 1) == g, hence c - c / g == 1 and x * c - y * c == x.
    var d := y * (c * (g - 1.0));
    assert d == y * g == x;
    var e := (x - y) * c;
    assert x - y == y * (g - 1.0) by {
      var z := y * (g - 1.0);
      assert z == y * g - y;
    }
    assert e == d;
    assert e == x * c - y * c;
    if y <= 1.0 {
      assert c > 1.0 by {
        var w := c * (g - 1.0);
        if c <= 1.0 {
          ProductWeaklyMonotone(c, 1.0, g - 1.0);
        }
      }
      ProductMonotone(1.0, x, c);
    }
  }

  /** The least exponent whose power reaches `x`: the ceiling of the logarithm, for `x >= 1`. */
  function CeilLog(g: real, x: real): (n: nat)
    requires g > 1.0
    ensures x <= Pow(g, n)
    ensures n > 0 ==> Pow(g, n - 1) < x
    decreases Measure(g, x)
  {
    if x <= 1.0 then 0 else
      MeasureDecreases(g, x);
      var n := CeilLog(g, x / g);
      CeilLogStep(g, x, n);
      n + 1
  }

  lemma CeilLogStep(g: real, x: real, n: nat)
    requires g > 1.0 && x > 1.0
    requires x / g <= Pow(g, n) && (n > 0 ==> Pow(g, n - 1) < x / g)
    ensures x <= Pow(g, n + 1) && Pow(g, n) < x
  {
    var y := Quotient(x, g);
    UpperStep(g, x, y, Pow(g, n));
    assert x <= Pow(g, n + 1);
    if n > 0 {
      LowerStep(g, x, y, Pow(g, n - 1));
    }
  }

  lemma UpperStep(g: real, x: real, y: real, p: real)
    requires g > 1.0 && x == y * g && y <= p
    ensures x <= g * p
  {
    ProductWeaklyMonotone(y, p, g);
  }

  lemma LowerStep(g: real, x: real, y: real, p: real)
    requires g > 1.0 && x == y * g && p < y
    ensures g * p < x
  {
    ProductMonotone(p, y, g);
  }
}
