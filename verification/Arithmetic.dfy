/** Products and quotients of naturals, as far as the solver needs help with them. */
module Arithmetic {
  function Min(a: nat, b: nat): nat { if a < b then a else b }

  function Max(a: nat, b: nat): nat { if a > b then a else b }

  lemma MulOrder(a: nat, b: nat, l: nat)
    requires l > 0
    ensures a <= b <==> a * l <= b * l
  {
    if a <= b {
      assert (b - a) * l == b * l - a * l;
    } else {
      assert (a - b) * l == a * l - b * l;
    }
  }

  /** The quotient and the rest are the only such numbers. */
  lemma DivModUnique(m: nat, q: nat, b: nat, r: nat)
    requires b > 0 && m == q * b + r && r < b
    ensures m / b == q && m % b == r
  {
    var d := m / b;
    assert (d + 1) * b == d * b + b && (q + 1) * b == q * b + b;
    if d < q {
      MulOrder(d + 1, q, b);
    } else if q < d {
      MulOrder(q + 1, d, b);
    }
  }

  lemma DivideAtLeast(x: nat, q: nat, l: nat)
    requires l > 0 && q * l <= x
    ensures q <= x / l && (x / l) * l <= x
  {
    MulOrder(x / l + 1, q, l);
  }

  lemma MultipleHasNoRest(q: nat, i: nat)
    requires i > 0
    ensures (q * i) % i == 0
  {
    DivModUnique(q * i, q, i, 0);
  }
}
