/**
 The C unsigned operators that the address decoder of the cache and the 256-bit
 arithmetic are built from.  A word of width w is a number below Pow2(w); shifts
 are the multiplication and division that section 6.5.7 of ISO/IEC 9899:2011
 defines them to be, and `&` works bit by bit.
 */
module Words {

  function Pow2(n: nat): (p: nat)
    ensures p >= 1
  {
    if n == 0 then 1 else 2 * Pow2(n - 1)
  }

  /** `x & y` */
  function And(x: nat, y: nat): (z: nat)
    decreases x
  {
    if x == 0 then 0
    else (if x % 2 == 1 && y % 2 == 1 then 1 else 0) + 2 * And(x / 2, y / 2)
  }

  /** `~x` in a word of width w */
  function Not(x: nat, w: nat): (z: nat)
    requires x < Pow2(w)
  {
    Pow2(w) - 1 - x
  }

  /** `x << n` in a word of width w */
  function Shl(x: nat, n: nat, w: nat): (z: nat)
    requires n < w
    ensures z < Pow2(w)
  {
    x * Pow2(n) % Pow2(w)
  }

  /** `x >> n` */
  function Shr(x: nat, n: nat): (z: nat) {
    DivBound(x, Pow2(n));
    x / Pow2(n)
  }

  // ----- division and remainder

  lemma DivBound(x: nat, d: nat)
    requires d > 0
    ensures 0 <= x / d <= x
  {
    var q := x / d;
    if q < 0 {
      MulGap(d, 0, q);
    } else if q > 0 {
      MulGap(q, d, 0);
      assert d * q == q * d;
      if d > 1 { MulGap(q, d, 1); }
    }
  }

  lemma {:induction false} MulGap(d: nat, a: int, b: int)
    requires a > b
    ensures d * a >= d * b + d
    decreases a - b
  {
    assert d * a == d * (a - 1) + d;
    if a > b + 1 { MulGap(d, a - 1, b); }
  }

  /** The quotient and remainder are the only pair of their kind. */
  lemma DivModUnique(x: int, d: nat, q: int, r: nat)
    requires x == d * q + r && r < d
    ensures x / d == q && x % d == r
  {
    if x / d > q {
      MulGap(d, x / d, q);
    } else if q > x / d {
      MulGap(d, q, x / d);
    }
  }

  lemma MulPositive(a: nat, b: nat)
    requires a > 0 && b > 0
    ensures a * b > 0
  {
  }

  lemma ModScale(a: nat, m: nat, c: nat)
    requires m > 0 && c > 0
    ensures m * c > 0
    ensures a * c % (m * c) == a % m * c
  {
    MulPositive(m, c);
    var q, r := a / m, a % m;
    calc {
      a * c;
      (m * q + r) * c;
      m * q * c + r * c;
      m * c * q + r * c;
    }
    MulGap(c, m, r);
    DivModUnique(a * c, m * c, q, r * c);
  }

  lemma ModShift(a: int, m: nat, k: int)
    requires m > 0
    ensures (a + m * k) % m == a % m
  {
    var q, r := a / m, a % m;
    calc {
      a + m * k;
      m * q + r + m * k;
      m * (q + k) + r;
    }
    DivModUnique(a + m * k, m, q + k, r);
  }

  /** Dividing by a and then by b is dividing by a * b, and the three remainders fit together. */
  lemma DivModTwice(x: nat, a: nat, b: nat)
    requires a > 0 && b > 0
    ensures a * b > 0
    ensures x / a / b == x / (a * b)
    ensures x % (a * b) == x / a % b * a + x % a
    ensures x % (a * b) % a == x % a
    ensures x % (a * b) / a == x / a % b
  {
    MulPositive(a, b);
    var q, r := x / a, x % a;
    var q', r' := q / b, q % b;
    calc {
      x;
      a * q + r;
      a * (b * q' + r') + r;
      a * (b * q') + a * r' + r;
      a * b * q' + (a * r' + r);
    }
    MulGap(a, b, r');
    DivModUnique(x, a * b, q', a * r' + r);
    DivModUnique(a * r' + r, a, r', r);
  }

  lemma ModOfSmall(x: nat, m: nat)
    requires x < m
    ensures x % m == x && x / m == 0
  {
  }

  // ----- powers of two

  lemma {:induction false} Pow2Add(a: nat, b: nat)
    ensures Pow2(a + b) == Pow2(a) * Pow2(b)
  {
    if a > 0 {
      Pow2Add(a - 1, b);
      assert Pow2(a + b) == 2 * (Pow2(a - 1) * Pow2(b)) == Pow2(a) * Pow2(b);
    }
  }

  lemma {:induction false} Pow2Monotone(a: nat, b: nat)
    requires a < b
    ensures Pow2(a) < Pow2(b)
  {
    if a + 1 < b { Pow2Monotone(a, b - 1); }
  }

  lemma Pow2Literals()
    ensures Pow2(8) == 0x100
    ensures Pow2(32) == 0x1_0000_0000
    ensures Pow2(64) == 0x1_0000_0000_0000_0000
  {
    assert Pow2(4) == 16;
    Pow2Add(4, 4);
    Pow2Add(8, 8);
    Pow2Add(16, 16);
    Pow2Add(32, 32);
  }

  lemma Pow2LongLiterals()
    ensures Pow2(128) == 0x1_0000_0000_0000_0000_0000_0000_0000_0000
    ensures Pow2(192) == 0x1_0000_0000_0000_0000_0000_0000_0000_0000_0000_0000_0000_0000
  {
    Pow2Literals();
    Pow2Add(64, 64);
    Pow2Add(128, 64);
  }

  // ----- masks and single bits

  lemma AndStep(x: nat, y: nat)
    ensures And(x, y) == (if x % 2 == 1 && y % 2 == 1 then 1 else 0) + 2 * And(x / 2, y / 2)
  {
  }

  lemma {:induction false} AndMask(x: nat, n: nat)
    ensures And(x, Pow2(n) - 1) == x % Pow2(n)
    decreases n
  {
    if n == 0 {
      AndZero(x);
    } else {
      var p := Pow2(n - 1);
      AndStep(x, 2 * p - 1);
      AndMask(x / 2, n - 1);
      assert (2 * p - 1) / 2 == p - 1;
      DivModTwice(x, 2, p);
    }
  }

  lemma {:induction false} AndZero(x: nat)
    ensures And(x, 0) == 0
  {
    if x > 0 { AndZero(x / 2); }
  }

  /** The mask `~(~0 << n)` is the n low bits. */
  lemma LowMask(n: nat, w: nat)
    requires n < w
    ensures Shl(Pow2(w) - 1, n, w) == Pow2(w) - Pow2(n)
    ensures Not(Shl(Pow2(w) - 1, n, w), w) == Pow2(n) - 1
  {
    Pow2Monotone(n, w);
    MaskQuotient(Pow2(n), Pow2(w));
  }

  lemma MaskQuotient(p: nat, q: nat)
    requires 0 < p < q
    ensures (q - 1) * p % q == q - p
  {
    assert (q - 1) * p == q * p - p;
    assert q * (p - 1) == q * p - q;
    DivModUnique((q - 1) * p, q, p - 1, q - p);
  }

  /** `x & (1 << i)` tests bit i. */
  lemma {:induction false} AndBit(x: nat, i: nat)
    ensures And(x, Pow2(i)) == if x / Pow2(i) % 2 == 1 then Pow2(i) else 0
    decreases i
  {
    AndStep(x, Pow2(i));
    if i == 0 {
      AndZero(x / 2);
    } else {
      var p := Pow2(i - 1);
      assert 2 * p % 2 == 0 && 2 * p / 2 == p;
      AndBit(x / 2, i - 1);
      DivModTwice(x, 2, p);
    }
  }

  ghost predicate IsPow2(n: nat) {
    exists k: nat :: n == Pow2(k)
  }

  lemma HalfIsPow2(h: nat)
    requires h >= 1
    ensures IsPow2(2 * h) <==> IsPow2(h)
    ensures !IsPow2(2 * h + 1)
  {
    if IsPow2(h) {
      var k: nat :| h == Pow2(k);
      assert 2 * h == Pow2(k + 1);
    }
    forall k: nat | 2 * h == Pow2(k) ensures IsPow2(h) {
      assert h == Pow2(k - 1);
    }
    forall k: nat ensures 2 * h + 1 != Pow2(k) {
      if k > 0 { assert Pow2(k) == 2 * Pow2(k - 1); }
    }
  }

  /** `n & (n - 1)` clears the lowest set bit, so it is zero exactly for a power of two. */
  lemma {:induction false} AndPredecessor(n: nat)
    requires n >= 1
    ensures And(n, n - 1) == 0 <==> IsPow2(n)
  {
    if n == 1 {
      assert n == Pow2(0);
    } else {
      AndStep(n, n - 1);
      HalfIsPow2(n / 2);
      if n % 2 == 1 {
        AndSelf(n / 2);
      } else {
        AndPredecessor(n / 2);
      }
    }
  }

  lemma {:induction false} AndSelf(x: nat)
    ensures And(x, x) == x
  {
    if x > 0 { AndSelf(x / 2); }
  }
}
