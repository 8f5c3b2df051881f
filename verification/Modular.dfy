// Division with remainder by a variable.
module Modular {

  // Division with remainder is unique.
  lemma Remainder(x: int, q: int, n: int, r: int)
    requires x == q * n + r && 0 <= r < n
    ensures x % n == r && x / n == q
  {
    var q', r' := x / n, x % n;
    assert x == q' * n + r';
    assert (q - q') * n == r' - r;
    AtLeastOne(q - q', n);
    AtLeastOne(q' - q, n);
  }

  lemma AtLeastOne(a: int, n: int)
    requires n > 0
    ensures a >= 1 ==> a * n >= n
    ensures a * n == -((-a) * n)
  {
    if a >= 1 {
      assert (a - 1) * n >= 0;
    }
  }

  // Adding less than a whole turn moves on to a different remainder.
  lemma Turn(k: nat, d: nat, n: nat)
    requires d <= n && n > 0
    ensures (k + d) % n == if k % n + d < n then k % n + d else k % n + d - n
  {
    var q, r := k / n, k % n;
    if r + d < n {
      Remainder(k + d, q, n, r + d);
    } else {
      Remainder(k + d, q + 1, n, r + d - n);
    }
  }
}
