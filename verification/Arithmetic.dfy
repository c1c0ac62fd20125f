/** Facts about products and quotients that the solver needs to be told. */
module Arithmetic {
  lemma MultipleIsLarge(a: int, d: nat)
    ensures a >= 1 ==> a * d >= d
    ensures a <= -1 ==> a * d + d <= 0
  {
    if a >= 1 {
      assert a * d == (a - 1) * d + d;
    } else if a <= -1 {
      assert -a * d == (-a - 1) * d + d;
    }
  }

  lemma DivModUnique(d: nat, q: int, r: int)
    requires 0 <= r < d
    ensures (r + q * d) % d == r && (r + q * d) / d == q
  {
    var n := r + q * d;
    var a := n / d - q;
    assert a * d == n / d * d - q * d;
    assert n / d * d + n % d == n;
    MultipleIsLarge(a, d);
  }
}
