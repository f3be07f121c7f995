/**
 256-bit unsigned integers as four 64-bit limbs, least significant first, with the
 ripple-carry addition and two's complement subtraction of uint256.c.

 The carry test of the addition compares the truncated limb sum with the two limbs.
 It misses the carry when a carry comes in and both limbs are all ones, so the exact
 result of an addition is the true sum less the lost carry.
 */
module UInt256 {
  import opened Words

  type u64 = x: int | 0 <= x < 0x1_0000_0000_0000_0000

  type Limbs = s: seq<u64> | |s| == 4 witness [0, 0, 0, 0]

  const LIMB: nat := 0x1_0000_0000_0000_0000
  const LIMB_MAX: nat := 0xFFFF_FFFF_FFFF_FFFF
  const TWO_128: nat := 0x1_0000_0000_0000_0000_0000_0000_0000_0000
  const TWO_192: nat := 0x1_0000_0000_0000_0000_0000_0000_0000_0000_0000_0000_0000_0000
  const TWO_256: nat := 0x1_0000_0000_0000_0000_0000_0000_0000_0000_0000_0000_0000_0000_0000_0000_0000_0000

  /** The number that four limbs denote. */
  function Value(v: Limbs): (n: int)
    ensures 0 <= n < TWO_256
  {
    v[0] + 0x1_0000_0000_0000_0000 * (v[1] as int)
    + 0x1_0000_0000_0000_0000_0000_0000_0000_0000 * (v[2] as int)
    + 0x1_0000_0000_0000_0000_0000_0000_0000_0000_0000_0000_0000_0000 * (v[3] as int)
  }

  function Wrap256(n: int): (m: nat) {
    n % 0x1_0000_0000_0000_0000_0000_0000_0000_0000_0000_0000_0000_0000_0000_0000_0000_0000
  }

  function Wrap128(n: int): (m: nat) {
    n % 0x1_0000_0000_0000_0000_0000_0000_0000_0000
  }

  function Wrap64(n: int): (m: nat) {
    n % 0x1_0000_0000_0000_0000
  }

  /** The limbs of n modulo 2^256. */
  function ToLimbs(n: nat): (v: Limbs) {
    [Wrap64(n), Wrap64(n / LIMB), Wrap64(n / TWO_128), Wrap64(n / TWO_192)]
  }

  /** Limbs and numbers below 2^256 are in bijection. */
  lemma ValueOfLimbs(n: nat)
    ensures Value(ToLimbs(n)) == Wrap256(n)
  {
    DivModTwice(n, LIMB, LIMB);
    DivModTwice(n, TWO_128, LIMB);
    DivModTwice(n, TWO_192, LIMB);
  }

  lemma ValueInjective(a: Limbs, b: Limbs)
    requires Value(a) == Value(b)
    ensures a == b
  {
    assert a[0] == b[0] && a[1] == b[1] && a[2] == b[2] && a[3] == b[3];
  }

  // ----- addition

  /** The limb sum and the carry out as the code computes them. */
  function LimbSum(a: u64, b: u64, carry: nat): (s: u64)
    requires carry <= 1
  {
    Wrap64(a + b + carry)
  }

  function CarryOut(a: u64, b: u64, carry: nat): (c: nat)
    requires carry <= 1
    ensures c <= 1
  {
    var temp := LimbSum(a, b, carry);
    if temp < a || temp < b then 1 else 0
  }

  /** The carry the code brings into limb i. */
  function CarryInto(l: Limbs, r: Limbs, i: nat): (c: nat)
    requires i <= 4
    ensures c <= 1
  {
    if i == 0 then 0 else CarryOut(l[i - 1], r[i - 1], CarryInto(l, r, i - 1))
  }

  function Sum(l: Limbs, r: Limbs): (s: Limbs) {
    [LimbSum(l[0], r[0], CarryInto(l, r, 0)), LimbSum(l[1], r[1], CarryInto(l, r, 1)),
     LimbSum(l[2], r[2], CarryInto(l, r, 2)), LimbSum(l[3], r[3], CarryInto(l, r, 3))]
  }

  /** The one case in which the carry test fails. */
  predicate Stalls(a: u64, b: u64, carry: nat) {
    carry == 1 && a == LIMB_MAX && b == LIMB_MAX
  }

  lemma CarryOutExact(a: u64, b: u64, carry: nat)
    requires carry <= 1
    ensures a + b + carry == LimbSum(a, b, carry)
         + 0x1_0000_0000_0000_0000 * (CarryOut(a, b, carry) + if Stalls(a, b, carry) then 1 else 0)
    ensures Stalls(a, b, carry) ==> CarryOut(a, b, carry) == 0
  {
  }

  /** A carry is lost when limb 1 stalls, */
  predicate LosesAt1(l: Limbs, r: Limbs) {
    l[0] + r[0] >= LIMB && l[1] == LIMB_MAX && r[1] == LIMB_MAX
  }

  /** or when limb 1 carries without stalling and limb 2 stalls. */
  predicate LosesAt2(l: Limbs, r: Limbs) {
    && !LosesAt1(l, r)
    && l[0] + r[0] + 0x1_0000_0000_0000_0000 * (l[1] + r[1] as int) >= TWO_128
    && l[2] == LIMB_MAX && r[2] == LIMB_MAX
  }

  predicate Loses(l: Limbs, r: Limbs) {
    LosesAt1(l, r) || LosesAt2(l, r)
  }

  /** What an addition falls short of the true sum. */
  function LostCarry(l: Limbs, r: Limbs): (e: nat) {
    if LosesAt1(l, r) then TWO_128 else if LosesAt2(l, r) then TWO_192 else 0
  }

  lemma StallsLose(l: Limbs, r: Limbs)
    ensures Stalls(l[1], r[1], CarryInto(l, r, 1)) <==> LosesAt1(l, r)
    ensures Stalls(l[2], r[2], CarryInto(l, r, 2)) <==> LosesAt2(l, r)
  {
    var c1, c2 := CarryInto(l, r, 1), CarryInto(l, r, 2);
    assert CarryInto(l, r, 0) == 0 && c1 == CarryOut(l[0], r[0], 0);
    assert c1 == if l[0] as int + r[0] >= 0x1_0000_0000_0000_0000 then 1 else 0;
    CarryOutExact(l[1], r[1], c1);
    assert c2 == CarryOut(l[1], r[1], c1);
  }

  /** Four limb equations, weighted and added up. */
  lemma WeighLimbs(n0: int, n1: int, n2: int, n3: int, s: Limbs,
                   c1: int, c2: int, c3: int, c4: int, x1: int, x2: int)
    requires n0 == s[0] + 0x1_0000_0000_0000_0000 * c1
    requires n1 + c1 == s[1] + 0x1_0000_0000_0000_0000 * (c2 + x1)
    requires n2 + c2 == s[2] + 0x1_0000_0000_0000_0000 * (c3 + x2)
    requires n3 + c3 == s[3] + 0x1_0000_0000_0000_0000 * c4
    ensures n0 + 0x1_0000_0000_0000_0000 * n1
            + 0x1_0000_0000_0000_0000_0000_0000_0000_0000 * n2
            + 0x1_0000_0000_0000_0000_0000_0000_0000_0000_0000_0000_0000_0000 * n3
         == Value(s) + 0x1_0000_0000_0000_0000_0000_0000_0000_0000 * x1
            + 0x1_0000_0000_0000_0000_0000_0000_0000_0000_0000_0000_0000_0000 * x2
            + 0x1_0000_0000_0000_0000_0000_0000_0000_0000_0000_0000_0000_0000_0000_0000_0000_0000 * c4
  {
  }

  /** The sum, the lost carry and the carry out of the top limb make up the true sum. */
  lemma SumSplit(l: Limbs, r: Limbs) returns (out: nat)
    ensures Value(l) + Value(r) == Value(Sum(l, r)) + LostCarry(l, r) + TWO_256 * out
  {
    hide LimbSum, CarryOut;
    var c1, c2, c3 := CarryInto(l, r, 1), CarryInto(l, r, 2), CarryInto(l, r, 3);
    assert CarryInto(l, r, 0) == 0;
    assert c1 == CarryOut(l[0], r[0], 0) && c2 == CarryOut(l[1], r[1], c1)
        && c3 == CarryOut(l[2], r[2], c2);
    CarryOutExact(l[0], r[0], 0);
    CarryOutExact(l[1], r[1], c1);
    CarryOutExact(l[2], r[2], c2);
    CarryOutExact(l[3], r[3], c3);
    StallsLose(l, r);
    out := CarryOut(l[3], r[3], c3) + if Stalls(l[3], r[3], c3) then 1 else 0;
    WeighLimbs(l[0] as int + r[0], l[1] as int + r[1], l[2] as int + r[2], l[3] as int + r[3], Sum(l, r),
               c1, c2, c3, out, if LosesAt1(l, r) then 1 else 0, if LosesAt2(l, r) then 1 else 0);
  }

  /** Adding a non-zero e below 2^256 changes a number modulo 2^256. */
  lemma WrapShifted(v: nat, e: nat, out: nat)
    requires v < TWO_256 && e < TWO_256
    ensures Wrap256(v + TWO_256 * out + e) == v <==> e == 0
  {
    ModShift(v + e, TWO_256, out);
    if v + e >= TWO_256 {
      ModShift(v + e - TWO_256, TWO_256, 1);
    }
  }

  /** The exact value of the code's sum. */
  lemma SumExact(l: Limbs, r: Limbs)
    ensures Value(Sum(l, r)) == Wrap256(Value(l) + Value(r) - LostCarry(l, r))
  {
    var out := SumSplit(l, r);
    WrapShifted(Value(Sum(l, r)), 0, out);
  }

  /** Addition is exact modulo 2^256 precisely when no carry is lost. */
  lemma SumExactIff(l: Limbs, r: Limbs)
    ensures Value(Sum(l, r)) == Wrap256(Value(l) + Value(r)) <==> !Loses(l, r)
  {
    var out := SumSplit(l, r);
    WrapShifted(Value(Sum(l, r)), LostCarry(l, r), out);
  }

  /** The low 128 bits of a sum are always right. */
  lemma SumLow128(l: Limbs, r: Limbs)
    ensures Wrap128(Value(Sum(l, r))) == Wrap128(Value(l) + Value(r))
  {
    var out := SumSplit(l, r);
    var k := (if LosesAt1(l, r) then 1 else if LosesAt2(l, r) then LIMB else 0) + TWO_128 * out;
    ModShift(Value(Sum(l, r)), TWO_128, k);
  }

  /** Two values of 2^128 - 1 already lose a carry. */
  lemma SumCounterexample()
    ensures var x := [LIMB_MAX, LIMB_MAX, 0, 0];
      Value(x) == TWO_128 - 1 && Value(Sum(x, x)) == TWO_128 - 2
  {
  }

  method Add(left: Limbs, right: Limbs) returns (sum: Limbs)
    ensures sum == Sum(left, right)
    ensures Value(sum) == Wrap256(Value(left) + Value(right) - LostCarry(left, right))
  {
    hide Value, Wrap256, LostCarry;
    sum := [0, 0, 0, 0];
    var carry := 0;
    for i := 0 to 4
      invariant carry == CarryInto(left, right, i)
      invariant forall k | 0 <= k < i :: sum[k] == LimbSum(left[k], right[k], CarryInto(left, right, k))
    {
      var temp := Wrap64(left[i] as int + right[i] + carry);
      sum := sum[i := temp];
      if temp < left[i] || temp < right[i] {
        carry := 1;
      } else {
        carry := 0;
      }
    }
    assert sum == Sum(left, right);
    SumExact(left, right);
  }

  // ----- subtraction

  function Complement(v: Limbs): (c: Limbs) {
    [LIMB_MAX - v[0], LIMB_MAX - v[1], LIMB_MAX - v[2], LIMB_MAX - v[3]]
  }

  const ONE: Limbs := [1, 0, 0, 0]

  function Negation(v: Limbs): (n: Limbs) {
    Sum(Complement(v), ONE)
  }

  /** `~right + 1` is the exact two's complement negation: this addition never loses a carry. */
  lemma NegationExact(v: Limbs)
    ensures Value(Negation(v)) == Wrap256(-Value(v))
  {
    SumExact(Complement(v), ONE);
    assert Value(Complement(v)) == TWO_256 - 1 - Value(v);
    ModShift(-Value(v), TWO_256, 1);
  }

  method CreateFromU64(val: u64) returns (result: Limbs)
    ensures Value(result) == val
  {
    result := [val, 0, 0, 0];
  }

  /** The difference, with the error of its one lossy addition. */
  method Sub(left: Limbs, right: Limbs) returns (result: Limbs)
    ensures result == Sum(left, Negation(right))
    ensures Value(result)
         == Wrap256(Value(left) - Value(right) - LostCarry(left, Negation(right)))
    ensures Wrap128(Value(result)) == Wrap128(Value(left) - Value(right))
  {
    var tem: Limbs := [0, 0, 0, 0];
    for i := 0 to 4
      invariant forall k | 0 <= k < i :: tem[k] == LIMB_MAX - right[k]
    {
      tem := tem[i := Not64(right[i])];
    }
    assert tem == Complement(right);
    var one := CreateFromU64(1);
    ValueInjective(one, ONE);
    var negativeRight := Add(tem, one);
    result := Add(left, negativeRight);
    DifferenceExact(left, right);
  }

  /** `~x` on a limb */
  function Not64(x: u64): (y: u64)
    ensures y == LIMB_MAX - x
  {
    Pow2Literals();
    Not(x, 64)
  }

  lemma AddingNegation(x: int, v: Limbs)
    ensures Wrap256(x + Value(Negation(v))) == Wrap256(x - Value(v))
    ensures Wrap128(x + Value(Negation(v))) == Wrap128(x - Value(v))
  {
    hide Value, Negation;
    NegationExact(v);
    if Value(v) == 0 {
      assert x + Value(Negation(v)) == x - Value(v);
    } else {
      NegationNonzero(v);
      ModShift(x - Value(v), TWO_256, 1);
      ModShift(x - Value(v), TWO_128, TWO_128);
    }
  }

  lemma NegationNonzero(v: Limbs)
    requires Value(v) > 0
    ensures Value(Negation(v)) == TWO_256 - Value(v)
  {
    hide Value, Negation;
    NegationExact(v);
    ModShift(-Value(v), TWO_256, 1);
  }

  lemma DifferenceExact(l: Limbs, r: Limbs)
    ensures Value(Sum(l, Negation(r)))
         == Wrap256(Value(l) - Value(r) - LostCarry(l, Negation(r)))
    ensures Wrap128(Value(Sum(l, Negation(r)))) == Wrap128(Value(l) - Value(r))
  {
    SumExact(l, Negation(r));
    SumLow128(l, Negation(r));
    AddingNegation(Value(l) - LostCarry(l, Negation(r)), r);
    AddingNegation(Value(l), r);
  }

  // ----- when a difference is wrong, in terms of its operands

  /** A complemented limb plus a carry, which goes on only through 0. */
  lemma ComplementPlus(x: u64, a: u64, carry: nat)
    requires a + carry <= 1
    ensures LimbSum(LIMB_MAX - x, a, carry) as int
            == if a + carry == 0 then LIMB_MAX - x else if x == 0 then 0 else LIMB - x
    ensures CarryOut(LIMB_MAX - x, a, carry) == if a + carry == 1 && x == 0 then 1 else 0
  {
  }

  /** The limbs of ~r + 1: it carries through the limbs of r that are 0. */
  lemma NegationLimbs(r: Limbs)
    ensures var n := Negation(r);
      && n[0] == (if r[0] == 0 then 0 else LIMB - r[0])
      && n[1] == (if r[0] == 0 then (if r[1] == 0 then 0 else LIMB - r[1]) else LIMB_MAX - r[1])
      && n[2] == (if r[0] == 0 && r[1] == 0 then (if r[2] == 0 then 0 else LIMB - r[2]) else LIMB_MAX - r[2])
  {
    hide LimbSum, CarryOut, Value;
    var c := Complement(r);
    assert CarryInto(c, ONE, 0) == 0;
    ComplementPlus(r[0], 1, 0);
    assert CarryInto(c, ONE, 1) == CarryOut(c[0], 1, 0);
    ComplementPlus(r[1], 0, CarryInto(c, ONE, 1));
    assert CarryInto(c, ONE, 2) == CarryOut(c[1], 0, CarryInto(c, ONE, 1));
    ComplementPlus(r[2], 0, CarryInto(c, ONE, 2));
  }

  /** A full limb 1 less an empty one, and no borrow into it, */
  predicate BorrowsAt1(l: Limbs, r: Limbs) {
    l[1] == LIMB_MAX && r[1] == 0 && 0 < r[0] <= l[0]
  }

  /** or the same at limb 2. */
  predicate BorrowsAt2(l: Limbs, r: Limbs) {
    && l[2] == LIMB_MAX && r[2] == 0
    && 0 < r[0] + 0x1_0000_0000_0000_0000 * (r[1] as int) <= l[0] + 0x1_0000_0000_0000_0000 * (l[1] as int)
  }

  lemma BorrowsAt1Iff(l: Limbs, r: Limbs)
    ensures LosesAt1(l, Negation(r)) <==> BorrowsAt1(l, r)
  {
    hide Negation;
    NegationLimbs(r);
  }

  lemma BorrowsAt2Iff(l: Limbs, r: Limbs)
    ensures LosesAt2(l, Negation(r)) <==> !BorrowsAt1(l, r) && BorrowsAt2(l, r)
  {
    hide Negation;
    NegationLimbs(r);
    BorrowsAt1Iff(l, r);
  }

  /** Subtraction is wrong exactly for operands that a caller can recognise. */
  lemma DifferenceExactIff(l: Limbs, r: Limbs)
    ensures Value(Sum(l, Negation(r))) == Wrap256(Value(l) - Value(r))
       <==> !BorrowsAt1(l, r) && !BorrowsAt2(l, r)
  {
    hide Value, Sum, Negation, BorrowsAt1, BorrowsAt2;
    SumExactIff(l, Negation(r));
    AddingNegation(Value(l), r);
    BorrowsAt1Iff(l, r);
    BorrowsAt2Iff(l, r);
  }

  /** (2^128 - 1) - 1 already comes out wrong. */
  lemma DifferenceCounterexample()
    ensures var l := [LIMB_MAX, LIMB_MAX, 0, 0];
      && Value(l) == TWO_128 - 1 && Value(ONE) == 1
      && Value(Sum(l, Negation(ONE))) != TWO_128 - 2
  {
    var l := [LIMB_MAX, LIMB_MAX, 0, 0];
    assert BorrowsAt1(l, ONE);
    DifferenceExactIff(l, ONE);
    ModOfSmall(TWO_128 - 2, TWO_256);
  }
}
