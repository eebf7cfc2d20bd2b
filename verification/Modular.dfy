/** Division with remainder and right shifts, in the few forms the other modules need. */
module Modular {

  lemma {:induction false} MulGrows(n: int, k: nat)
    requires 0 <= n
    ensures 0 <= n * k
    decreases k
  {
    if k > 0 {
      MulGrows(n, k - 1);
      assert n * k == n * (k - 1) + n;
    }
  }

  lemma MulGap(n: int, k: int)
    requires 0 < n && k != 0
    ensures n * k >= n || n * k <= -n
  {
    if k >= 1 {
      MulGrows(n, k - 1);
      assert n * k == n * (k - 1) + n;
    } else {
      MulGrows(n, -k - 1);
      assert n * k == -(n * (-k - 1)) - n;
    }
  }

  lemma ModOffset(n: int, d: int, k: int)
    requires 0 <= d < n
    ensures (d + n * k) % n == d && (d + n * k) / n == k
  {
    var x := d + n * k;
    assert x == n * (x / n) + x % n;
    assert n * (x / n) - n * k == n * (x / n - k);
    if x / n != k {
      MulGap(n, x / n - k);
    }
  }

  lemma ModDistinct(n: int, a: int, b: int)
    requires 0 < n && -n < a - b < n && a != b
    ensures a % n != b % n
  {
    assert a == n * (a / n) + a % n && b == n * (b / n) + b % n;
    assert n * (a / n) - n * (b / n) == n * (a / n - b / n);
    if a / n != b / n {
      MulGap(n, a / n - b / n);
    }
  }

  lemma ModPeriodic(n: int, a: int)
    requires 0 < n
    ensures (a + n) % n == a % n
  {
    assert n * (a / n) + n == n * (a / n + 1);
    ModOffset(n, a % n, a / n + 1);
  }

  /** `x >> k` */
  function Shr(x: nat, k: nat): nat {
    if k == 0 then x else Shr(x, k - 1) / 2
  }

  lemma {:induction false} ShrShrinks(x: nat, k: nat)
    ensures Shr(x, k) <= x
  {
    if k > 0 {
      ShrShrinks(x, k - 1);
    }
  }

  lemma {:induction false} ShrShr(x: nat, a: nat, b: nat)
    ensures Shr(Shr(x, a), b) == Shr(x, a + b)
  {
    if b > 0 {
      ShrShr(x, a, b - 1);
    }
  }

  lemma ShrOne(x: nat)
    ensures Shr(x, 0) == x && Shr(x, 1) == x / 2
  {
    assert Shr(x, 0) == x;
  }
}
