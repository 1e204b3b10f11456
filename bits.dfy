/** Bitwise AND on non-negative integers, defined bit by bit, and the fact
    the 24-bit number types rely on: masking with `2^k - 1` keeps the value
    modulo `2^k`. */
module Bits {

  function Pow2(k: nat): (r: nat)
    ensures r >= 1
  {
    if k == 0 then 1 else 2 * Pow2(k - 1)
  }

  /** `a & b` on the binary representations of `a` and `b`. */
  function BitAnd(a: nat, b: nat): nat
  {
    if a == 0 || b == 0 then 0 else 2 * BitAnd(a / 2, b / 2) + (a % 2) * (b % 2)
  }

  lemma ModUnique(x: int, d: int, t: int, rem: int)
    requires 0 < d && x == d * t + rem && 0 <= rem < d
    ensures x % d == rem
  {
    var q, r := x / d, x % d;
    assert d * (q - t) == rem - r;
    MulAtLeast(d, q - t);
  }

  lemma MulAtLeast(d: int, n: int)
    requires d > 0
    ensures n >= 1 ==> d * n >= d
    ensures n <= -1 ==> d * n <= -d
  {
  }

  lemma HalfStep(x: nat, h: nat)
    requires h >= 1
    ensures x % (2 * h) == 2 * ((x / 2) % h) + x % 2
  {
    var s := (x / 2) % h;
    var t := (x / 2) / h;
    var r := x % 2;
    assert x / 2 == h * t + s;
    assert x == 2 * (x / 2) + r;
    assert 2 * (h * t) == (2 * h) * t;
    assert x == (2 * h) * t + (2 * s + r);
    ModUnique(x, 2 * h, t, 2 * s + r);
  }

  /** `x & (2^k - 1) == x % 2^k`. */
  lemma {:induction false} AndLowMask(x: nat, k: nat)
    ensures BitAnd(x, Pow2(k) - 1) == x % Pow2(k)
  {
    if k == 0 {
    } else if x == 0 {
    } else {
      var h := Pow2(k - 1);
      assert Pow2(k) == 2 * h;
      BitAndOdd(x, h);
      AndLowMask(x / 2, k - 1);
      HalfStep(x, h);
    }
  }

  /** One step of `BitAnd` against the mask `2h - 1`: the low bit of x is
      kept and the rest is masked with `h - 1`. */
  lemma BitAndOdd(x: nat, h: nat)
    requires x > 0 && h >= 1
    ensures BitAnd(x, 2 * h - 1) == 2 * BitAnd(x / 2, h - 1) + x % 2
  {
    var m := 2 * h - 1;
    assert m / 2 == h - 1 && m % 2 == 1;
    assert (x % 2) * (m % 2) == x % 2;
  }

  /** Adding a multiple of the modulus does not change the remainder. */
  lemma ModAddMultiple(x: int, d: int, n: int)
    requires d > 0
    ensures (x + d * n) % d == x % d
  {
    var q, r := x / d, x % d;
    assert x == d * q + r;
    assert x + d * n == d * (q + n) + r;
    ModUnique(x + d * n, d, q + n, r);
  }

  lemma {:induction false} Pow2Add(a: nat, b: nat)
    ensures Pow2(a + b) == Pow2(a) * Pow2(b)
  {
    if a > 0 {
      Pow2Add(a - 1, b);
    }
  }

  lemma Pow2Of24()
    ensures Pow2(24) == 0x100_0000
    ensures Pow2(32) == 0x1_0000_0000
  {
    assert Pow2(3) == 8;
    Pow2Add(3, 3);
    Pow2Add(6, 6);
    Pow2Add(12, 12);
    Pow2Add(24, 3);
    Pow2Add(27, 3);
    assert Pow2(32) == 2 * 2 * Pow2(30);
  }
}
