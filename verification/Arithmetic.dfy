/** Division facts that are not linear in the divisor. */
module Arithmetic {

  lemma MultipleBound(d: int, t: int)
    requires t > 0
    ensures d >= 1 ==> d * t >= t
    ensures d <= -1 ==> d * t <= -t
  {
    if d >= 1 {
      assert d * t == (d - 1) * t + t;
      assert (d - 1) * t >= 0;
    } else if d <= -1 {
      assert d * t == (d + 1) * t - t;
      assert (-d - 1) * t >= 0;
    }
  }

  lemma DivModUnique(x: int, t: int, q: int, r: int)
    requires t > 0 && x == q * t + r && 0 <= r < t
    ensures x / t == q && x % t == r
  {
    var q', r' := x / t, x % t;
    assert x == t * q' + r';
    assert (q - q') * t == q * t - q' * t == r' - r;
    MultipleBound(q - q', t);
  }

  lemma DivModSuccessor(x: int, t: int)
    requires t > 0
    ensures x % t + 1 >= t ==> (x + 1) / t == x / t + 1 && (x + 1) % t == 0
    ensures x % t + 1 < t ==> (x + 1) / t == x / t && (x + 1) % t == x % t + 1
  {
    var q, r := x / t, x % t;
    assert x == q * t + r;
    if r + 1 >= t {
      assert (q + 1) * t == q * t + t;
      DivModUnique(x + 1, t, q + 1, 0);
    } else {
      DivModUnique(x + 1, t, q, r + 1);
    }
  }
}
