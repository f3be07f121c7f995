/**
 Left shift, bit test and shift-and-add multiplication of uint256.c.
 */
module UInt256Mul {
  import opened Words
  import opened UInt256

  // ----- shifting one limb

  function Shl64(x: u64, n: nat): (y: u64)
    requires n < 64
  {
    Pow2Literals();
    Shl(x, n, 64)
  }

  function Shr64(x: u64, n: nat): (y: u64)
    requires n < 64
  {
    DivBound(x, Pow2(n));
    Shr(x, n)
  }

  lemma SplitTimes(x: nat, q: nat, h: nat, y: nat, p: nat)
    requires x == q * h + y
    ensures x * p == q * p * h + y * p
  {
    assert q * h * p == q * p * h;
  }

  /** Multiplying by p in a word of q * p values splits the operand into x % q and x / q. */
  lemma ShiftedWord(x: nat, q: nat, p: nat, w: nat)
    requires q > 0 && p > 0 && q * p == w && x < w
    ensures x * p % w == x % q * p
    ensures x * p == x % q * p + w * (x / q)
    ensures x / q < p
    ensures x % q * p % p == 0
    ensures x % q * p + p <= w
  {
    var h, y := x / q, x % q;
    ModScale(x, q, p);
    SplitTimes(x, q, h, y, p);
    MulGap(p, q, y);
    DivModUnique(y * p, p, y, 0);
    if h >= p { MulMonotone(q, p, h); }
  }

  lemma {:induction false} MulMonotone(d: nat, a: nat, b: nat)
    requires a <= b
    ensures d * a <= d * b
  {
    if a < b { MulGap(d, b, a); }
  }

  /**
   The part of a limb that stays and the part that moves to the next limb: together they are
   the shifted limb, and added to a neighbour's part neither overlaps the other.
   */
  lemma ShiftedParts(x: u64, c: nat)
    requires 0 < c < 64
    ensures x * Pow2(c) == Shl64(x, c) + 0x1_0000_0000_0000_0000 * (Shr64(x, 64 - c) as int)
    ensures Shr64(x, 64 - c) < Pow2(c)
    ensures Shl64(x, c) % Pow2(c) == 0
    ensures Shl64(x, c) + Pow2(c) <= LIMB
  {
    Pow2Literals();
    Pow2Add(64 - c, c);
    ShiftedWord(x, Pow2(64 - c), Pow2(c), 0x1_0000_0000_0000_0000);
  }

  // ----- left shift

  /** Limb i of v shifted left by c bits, 0 <= c < 64, before any limb is dropped. */
  function Lane(v: Limbs, i: int, c: nat): (x: u64)
    requires i < 4 && c < 64
  {
    if i < 0 then 0
    else if c == 0 then v[i]
    else
      ShiftedParts(v[i], c);
      if i == 0 then Shl64(v[0], c)
      else
        ShiftedParts(v[i - 1], c);
        (Shl64(v[i], c) as int) + Shr64(v[i - 1], 64 - c)
  }

  /** v shifted left by k limbs and c bits, with what leaves the top limb cut off. */
  function Shifted(v: Limbs, shift: nat): (s: Limbs)
    requires shift < 256
  {
    var k, c := shift / 64, shift % 64;
    [Lane(v, 0 - k, c), Lane(v, 1 - k, c), Lane(v, 2 - k, c), Lane(v, 3 - k, c)]
  }

  lemma Distribute4(a: nat, b: nat, c: nat, d: nat, p: nat)
    ensures (a + 0x1_0000_0000_0000_0000 * b + 0x1_0000_0000_0000_0000_0000_0000_0000_0000 * c
             + 0x1_0000_0000_0000_0000_0000_0000_0000_0000_0000_0000_0000_0000 * d) * p
         == a * p + 0x1_0000_0000_0000_0000 * (b * p)
            + 0x1_0000_0000_0000_0000_0000_0000_0000_0000 * (c * p)
            + 0x1_0000_0000_0000_0000_0000_0000_0000_0000_0000_0000_0000_0000 * (d * p)
  {
  }

  /** A shift by less than a limb: the four lanes and what leaves the top one. */
  lemma ShiftBits(v: Limbs, c: nat) returns (out: nat)
    requires c < 64
    ensures Value(v) * Pow2(c)
         == Value([Lane(v, 0, c), Lane(v, 1, c), Lane(v, 2, c), Lane(v, 3, c)]) + TWO_256 * out
  {
    Distribute4(v[0], v[1], v[2], v[3], Pow2(c));
    if c == 0 {
      out := 0;
    } else {
      ShiftedParts(v[0], c);
      ShiftedParts(v[1], c);
      ShiftedParts(v[2], c);
      ShiftedParts(v[3], c);
      out := Shr64(v[3], 64 - c);
    }
  }

  lemma WrapUnique(n: int, v: int, k: int)
    requires 0 <= v < TWO_256 && n == v + TWO_256 * k
    ensures Wrap256(n) == v
  {
    ModShift(v, TWO_256, k);
  }

  lemma ShiftByOneLimb(n: int, a0: int, a1: int, a2: int, a3: int, out: int)
    requires n == a0 + 0x1_0000_0000_0000_0000 * a1
                  + 0x1_0000_0000_0000_0000_0000_0000_0000_0000 * a2
                  + 0x1_0000_0000_0000_0000_0000_0000_0000_0000_0000_0000_0000_0000 * a3
                  + TWO_256 * out
    ensures n * 0x1_0000_0000_0000_0000
         == 0x1_0000_0000_0000_0000 * a0
            + 0x1_0000_0000_0000_0000_0000_0000_0000_0000 * a1
            + 0x1_0000_0000_0000_0000_0000_0000_0000_0000_0000_0000_0000_0000 * a2
            + TWO_256 * (a3 + 0x1_0000_0000_0000_0000 * out)
  {
  }

  /** A shift by k whole limbs and c bits, with what leaves the top limb. */
  lemma ShiftLimbs(v: Limbs, k: nat, c: nat) returns (out: int)
    requires k < 4 && c < 64
    ensures Value(v) * Pow2(64 * k + c)
         == Value([Lane(v, 0 - k, c), Lane(v, 1 - k, c), Lane(v, 2 - k, c), Lane(v, 3 - k, c)]) + TWO_256 * out
    decreases k
  {
    hide Shl64, Shr64, Pow2;
    if k == 0 {
      out := ShiftBits(v, c);
    } else {
      var rest := ShiftLimbs(v, k - 1, c);
      Pow2Literals();
      Pow2Add(64 * (k - 1) + c, 64);
      var n := Value(v) * Pow2(64 * (k - 1) + c);
      assert Value(v) * Pow2(64 * k + c) == n * 0x1_0000_0000_0000_0000;
      ShiftByOneLimb(n, Lane(v, 1 - k, c), Lane(v, 2 - k, c), Lane(v, 3 - k, c), Lane(v, 4 - k, c), rest);
      assert Lane(v, 0 - k, c) == 0;
      out := Lane(v, 4 - k, c) + 0x1_0000_0000_0000_0000 * rest;
    }
  }

  /** All shifts from 0 to 255 multiply by the power of two, modulo 2^256. */
  lemma ShiftedExact(v: Limbs, shift: nat)
    requires shift < 256
    ensures Value(Shifted(v, shift)) == Wrap256(Value(v) * Pow2(shift))
  {
    hide Shl64, Shr64, Pow2, Value;
    var out := ShiftLimbs(v, shift / 64, shift % 64);
    WrapUnique(Value(v) * Pow2(shift), Value(Shifted(v, shift)), out);
  }

  /** `data0 & ~(~0UL << n)` keeps the n low bits. */
  lemma KeepLowBits(x: u64, n: nat)
    requires n < 64
    ensures And(x, Not64(Shl64(LIMB_MAX, n))) == x % Pow2(n)
  {
    Pow2Literals();
    LowMask(n, 64);
    AndMask(x, n);
  }

  /** The limbs that the branch for 192 < shift computes, */
  lemma ShiftOver192(v: Limbs, shift: nat)
    requires 192 < shift < 256
    ensures And(v[0], Not64(Shl64(LIMB_MAX, 256 - shift))) <= v[0]
    ensures Shifted(v, shift)
         == [0, 0, 0, Shl64(And(v[0], Not64(Shl64(LIMB_MAX, 256 - shift))), shift - 192)]
  {
    KeepLowBits(v[0], 256 - shift);
    MaskThenShift(v[0], shift - 192);
  }

  /** and a lane that joins two limbs: the parts never overlap, so adding them does not wrap. */
  lemma JoinedLane(v: Limbs, i: nat, c: nat)
    requires 0 < i < 4 && 0 < c < 64
    ensures Lane(v, i, c) == Wrap64(Shl64(v[i], c) as int + Shr64(v[i - 1], 64 - c))
  {
    hide Shl64, Shr64;
    ShiftedParts(v[i], c);
    ShiftedParts(v[i - 1], c);
  }

  method LeftShift(val: Limbs, shift: nat) returns (result: Limbs)
    requires shift < 256
    ensures Value(result) == Wrap256(Value(val) * Pow2(shift))
    ensures result == Shifted(val, shift)
  {
    hide Shl64, Shr64, Wrap64, Value, Pow2, And, Wrap256;
    var data0, data1, data2, data3 := val[0], val[1], val[2], val[3];
    if shift > 192 {
      ShiftOver192(val, shift);
      data3 := And(data0, Not64(Shl64(LIMB_MAX, 256 - shift)));
      data3 := Shl64(data3, shift - 192);
      data0 := 0;
      data1 := 0;
      data2 := 0;
    } else if shift == 192 {
      data3 := data0;
      data0 := 0;
      data1 := 0;
      data2 := 0;
    } else if shift > 128 {
      var a := 256 - shift;
      var b := a - 64;
      var c := 64 - b;
      JoinedLane(val, 1, c);
      data3 := Wrap64(Shl64(data1, c) as int + Shr64(data0, b));
      data2 := Shl64(data0, c);
      data1 := 0;
      data0 := 0;
    } else if shift == 128 {
      data3 := data1;
      data2 := data0;
      data1 := 0;
      data0 := 0;
    } else if shift > 64 {
      var comp1 := shift - 64;
      var comp2 := 64 - comp1;
      JoinedLane(val, 1, comp1);
      JoinedLane(val, 2, comp1);
      data3 := Wrap64(Shl64(data2, comp1) as int + Shr64(data1, comp2));
      data2 := Wrap64(Shl64(data1, comp1) as int + Shr64(data0, comp2));
      data1 := Shl64(data0, comp1);
      data0 := 0;
    } else if shift == 64 {
      data3 := data2;
      data2 := data1;
      data1 := data0;
      data0 := 0;
    } else if shift > 0 {
      var comp := 64 - shift;
      JoinedLane(val, 1, shift);
      JoinedLane(val, 2, shift);
      JoinedLane(val, 3, shift);
      data3 := Wrap64(Shl64(data3, shift) as int + Shr64(data2, comp));
      data2 := Wrap64(Shl64(data2, shift) as int + Shr64(data1, comp));
      data1 := Wrap64(Shl64(data1, shift) as int + Shr64(data0, comp));
      data0 := Shl64(data0, shift);
    }
    result := Create([data0, data1, data2, data3]);
    ShiftedExact(val, shift);
  }

  method Create(data: Limbs) returns (result: Limbs)
    ensures result == data
  {
    result := [0, 0, 0, 0];
    for i := 0 to 4
      invariant result[..i] == data[..i]
    {
      result := result[i := data[i]];
    }
  }

  /** Dropping the bits that a shift pushes out anyway changes nothing. */
  lemma MaskThenShift(x: u64, c: nat)
    requires 0 < c < 64
    ensures x % Pow2(64 - c) <= x
    ensures Shl64(x % Pow2(64 - c), c) == Shl64(x, c)
  {
    Pow2Literals();
    Pow2Add(64 - c, c);
    ShiftLowPart(x, Pow2(64 - c), Pow2(c), 0x1_0000_0000_0000_0000);
  }

  lemma ShiftLowPart(x: nat, q: nat, p: nat, w: nat)
    requires q > 0 && p > 0 && q * p == w && x < w
    ensures x % q <= x
    ensures x % q * p % w == x * p % w
  {
    assert x % q <= x;
    ShiftedWord(x, q, p, w);
    ShiftedWord(x % q, q, p, w);
    ModOfSmall(x % q, q);
  }

  // ----- bit test

  function BitIsSet(val: Limbs, index: nat): (bit: nat) {
    if index / 64 == 0 then (if And(val[0], Shl64(1, index % 64)) != 0 then 1 else 0)
    else if index / 64 == 1 then (if And(val[1], Shl64(1, index % 64)) != 0 then 1 else 0)
    else if index / 64 == 2 then (if And(val[2], Shl64(1, index % 64)) != 0 then 1 else 0)
    else if index / 64 == 3 then (if And(val[3], Shl64(1, index % 64)) != 0 then 1 else 0)
    else 0
  }

  lemma LimbBit(x: u64, j: nat)
    requires j < 64
    ensures (if And(x, Shl64(1, j)) != 0 then 1 else 0) == x / Pow2(j) % 2
  {
    Pow2Literals();
    Pow2Monotone(j, 64);
    ModOfSmall(Pow2(j), Pow2(64));
    AndBit(x, j);
  }

  lemma BitOfLowPart(n: nat, a: nat, b: nat)
    requires a > 0 && b > 0
    ensures a * (2 * b) > 0
    ensures n % (a * (2 * b)) / a % 2 == n / a % 2
  {
    DivModTwice(n, a, 2 * b);
    DivModTwice(n / a, 2, b);
  }

  /** Bit j of the low 64 bits of n is bit j of n. */
  lemma LowBits(n: nat, j: nat)
    requires j < 64
    ensures Wrap64(n) / Pow2(j) % 2 == n / Pow2(j) % 2
  {
    Pow2Literals();
    Pow2Add(j, 64 - j);
    assert Pow2(64 - j) == 2 * Pow2(63 - j);
    BitOfLowPart(n, Pow2(j), Pow2(63 - j));
  }

  lemma LimbOfValue(v: Limbs, k: nat)
    requires k < 4
    ensures v[k] == Wrap64(Value(v) / Pow2(64 * k))
  {
    hide Pow2, Value, Wrap64;
    ValueOfLimbs(Value(v));
    ModOfSmall(Value(v), TWO_256);
    ValueInjective(ToLimbs(Value(v)), v);
    Pow2Literals();
    Pow2LongLiterals();
    Pow2Zero();
  }

  lemma Pow2Zero()
    ensures Pow2(0) == 1
  {
  }

  lemma BitIsSetLimb(val: Limbs, index: nat)
    ensures BitIsSet(val, index)
         == if index < 256 then val[index / 64] / Pow2(index % 64) % 2 else 0
  {
    if index < 256 {
      hide Shl64, And, Pow2;
      LimbBit(val[index / 64], index % 64);
    }
  }

  /** The bit test reads the binary digit of the value, and 0 beyond bit 255. */
  lemma BitIsSetExact(val: Limbs, index: nat)
    ensures BitIsSet(val, index) == if index < 256 then Value(val) / Pow2(index) % 2 else 0
  {
    hide BitIsSet, Value, Wrap64, Pow2;
    BitIsSetLimb(val, index);
    if index < 256 {
      var k, j := index / 64, index % 64;
      var upper := Value(val) / Pow2(64 * k);
      DivBound(Value(val), Pow2(64 * k));
      calc {
        val[k] / Pow2(j) % 2;
        { LimbOfValue(val, k); }
        Wrap64(upper) / Pow2(j) % 2;
        { LowBits(upper, j); }
        upper / Pow2(j) % 2;
        { DivModTwice(Value(val), Pow2(64 * k), Pow2(j)); Pow2Add(64 * k, j); }
        Value(val) / Pow2(index) % 2;
      }
    }
  }

  // ----- multiplication

  /** The accumulator of the multiplication after the bits of l below n. */
  function Product(l: Limbs, r: Limbs, n: nat): (p: Limbs)
    requires n <= 256
  {
    if n == 0 then [0, 0, 0, 0]
    else if BitIsSet(l, n - 1) == 1 then Sum(Product(l, r, n - 1), Shifted(r, n - 1))
    else Product(l, r, n - 1)
  }

  /** All that the additions of the multiplication lose. */
  function LostInProduct(l: Limbs, r: Limbs, n: nat): (e: nat)
    requires n <= 256
  {
    if n == 0 then 0
    else LostInProduct(l, r, n - 1)
         + if BitIsSet(l, n - 1) == 1 then LostCarry(Product(l, r, n - 1), Shifted(r, n - 1)) else 0
  }

  /** Some addition of the multiplication loses a carry. */
  predicate ProductLoses(l: Limbs, r: Limbs, n: nat)
    requires n <= 256
  {
    n > 0 && (|| ProductLoses(l, r, n - 1)
              || (BitIsSet(l, n - 1) == 1 && Loses(Product(l, r, n - 1), Shifted(r, n - 1))))
  }

  method Mul(left: Limbs, right: Limbs) returns (product: Limbs)
    ensures product == Product(left, right, 256)
    ensures Value(product) == Wrap256(Value(left) * Value(right) - LostInProduct(left, right, 256))
    ensures Wrap128(Value(product)) == Wrap128(Value(left) * Value(right))
  {
    product := [0, 0, 0, 0];
    for i := 0 to 256
      invariant product == Product(left, right, i)
    {
      if BitIsSet(left, i) != 0 {
        var res := LeftShift(right, i);
        product := Add(product, res);
      }
    }
    ProductExact(left, right);
    ProductLow128(left, right);
  }

  /** The product of r and the n low bits of l, and one shifted operand, before any cut. */
  function TrueProduct(l: Limbs, r: Limbs, n: nat): (p: int) {
    Value(l) % Pow2(n) * Value(r)
  }

  function TrueShift(r: Limbs, n: nat): (p: int) {
    Value(r) * Pow2(n)
  }

  /** One round of the loop. */
  lemma Round(l: Limbs, r: Limbs, n: nat)
    requires n < 256
    ensures Product(l, r, n + 1)
         == if BitIsSet(l, n) == 1 then Sum(Product(l, r, n), Shifted(r, n)) else Product(l, r, n)
    ensures LostInProduct(l, r, n + 1)
         == LostInProduct(l, r, n)
            + if BitIsSet(l, n) == 1 then LostCarry(Product(l, r, n), Shifted(r, n)) else 0
    ensures BitIsSet(l, n) == 0 || BitIsSet(l, n) == 1
    ensures TrueProduct(l, r, n + 1)
         == TrueProduct(l, r, n) + if BitIsSet(l, n) == 1 then TrueShift(r, n) else 0
    ensures Value(Shifted(r, n)) == Wrap256(TrueShift(r, n))
  {
    hide BitIsSet, Shifted, Sum, LostCarry, Value;
    BitIsSetExact(l, n);
    DivModTwice(Value(l), Pow2(n), 2);
    AddBit(Value(l) % Pow2(n), BitIsSet(l, n), Pow2(n), Value(r));
    ShiftedExact(r, n);
  }

  lemma WrapSplit(x: nat) returns (k: nat)
    ensures x == Wrap256(x) + TWO_256 * k
  {
    k := x / 0x1_0000_0000_0000_0000_0000_0000_0000_0000_0000_0000_0000_0000_0000_0000_0000_0000;
  }

  lemma TrueNonNegative(l: Limbs, r: Limbs, n: nat)
    ensures TrueProduct(l, r, n) >= 0 && TrueShift(r, n) >= 0
  {
  }

  /** The true partial product is the accumulator, what was lost, and a multiple of 2^256. */
  lemma {:induction false} ProductSplit(l: Limbs, r: Limbs, n: nat) returns (out: nat)
    requires n <= 256
    ensures TrueProduct(l, r, n) == Value(Product(l, r, n)) + LostInProduct(l, r, n) + TWO_256 * out
  {
    if n == 0 {
      out := 0;
    } else {
      hide BitIsSet, Shifted, Sum, LostCarry, Value, Product, LostInProduct, Wrap256, TrueProduct, TrueShift;
      out := ProductSplit(l, r, n - 1);
      Round(l, r, n - 1);
      if BitIsSet(l, n - 1) == 1 {
        TrueNonNegative(l, r, n - 1);
        var carried := SumSplit(Product(l, r, n - 1), Shifted(r, n - 1));
        var cut := WrapSplit(TrueShift(r, n - 1));
        out := out + carried + cut;
      }
    }
  }

  lemma AddBit(x: nat, bit: nat, p: nat, y: nat)
    ensures (bit * p + x) * y == x * y + bit * (y * p)
  {
  }

  lemma WholeProduct(l: Limbs, r: Limbs) returns (out: nat)
    ensures Value(l) * Value(r)
         == Value(Product(l, r, 256)) + LostInProduct(l, r, 256) + TWO_256 * out
  {
    hide Value, Product, LostInProduct;
    out := ProductSplit(l, r, 256);
    AllBits(l);
  }

  lemma AllBits(l: Limbs)
    ensures Value(l) % Pow2(256) == Value(l)
  {
    hide Value, Pow2;
    Pow2Literals();
    Pow2LongLiterals();
    Pow2Add(192, 64);
    ModOfSmall(Value(l), TWO_256);
  }

  lemma LostShapeOnce(a: Limbs, b: Limbs) returns (k: nat)
    ensures LostCarry(a, b) == TWO_128 * k
    ensures LostCarry(a, b) <= TWO_192
    ensures LostCarry(a, b) == 0 <==> !Loses(a, b)
  {
    k := if LosesAt1(a, b) then 1 else if LosesAt2(a, b) then LIMB else 0;
  }

  /** What is lost is a multiple of 2^128 below 2^256, and nothing only when no addition loses. */
  lemma {:induction false} LostShape(l: Limbs, r: Limbs, n: nat) returns (k: nat)
    requires n <= 256
    ensures LostInProduct(l, r, n) == TWO_128 * k
    ensures LostInProduct(l, r, n) <= TWO_192 * n
    ensures LostInProduct(l, r, n) == 0 <==> !ProductLoses(l, r, n)
  {
    if n == 0 {
      k := 0;
    } else {
      hide BitIsSet, Product, Shifted, Loses, Value;
      k := LostShape(l, r, n - 1);
      if BitIsSet(l, n - 1) == 1 {
        var e := LostShapeOnce(Product(l, r, n - 1), Shifted(r, n - 1));
        k := k + e;
      }
    }
  }

  /** The exact value of the code's product. */
  lemma ProductExact(l: Limbs, r: Limbs)
    ensures Value(Product(l, r, 256)) == Wrap256(Value(l) * Value(r) - LostInProduct(l, r, 256))
  {
    var out := WholeProduct(l, r);
    WrapUnique(Value(l) * Value(r) - LostInProduct(l, r, 256), Value(Product(l, r, 256)), out);
  }

  /** Multiplication is exact modulo 2^256 precisely when none of its additions loses a carry. */
  lemma ProductExactIff(l: Limbs, r: Limbs)
    ensures Value(Product(l, r, 256)) == Wrap256(Value(l) * Value(r)) <==> !ProductLoses(l, r, 256)
  {
    var out := WholeProduct(l, r);
    var k := LostShape(l, r, 256);
    WrapShifted(Value(Product(l, r, 256)), LostInProduct(l, r, 256), out);
  }

  /** The low 128 bits of a product are always right. */
  lemma ProductLow128(l: Limbs, r: Limbs)
    ensures Wrap128(Value(Product(l, r, 256))) == Wrap128(Value(l) * Value(r))
  {
    var out := WholeProduct(l, r);
    var k := LostShape(l, r, 256);
    ModShift(Value(Product(l, r, 256)), TWO_128, k + TWO_128 * out);
  }

  /** A lost carry needs a true sum of 2^128 or more. */
  lemma LosesIsLarge(a: Limbs, b: Limbs)
    requires Loses(a, b)
    ensures Value(a) + Value(b) >= TWO_128
  {
  }

  lemma {:induction false} SmallProductLosesNothing(l: Limbs, r: Limbs, n: nat)
    requires n <= 256 && Value(l) * Value(r) < TWO_128
    ensures !ProductLoses(l, r, n)
  {
    if n > 0 {
      hide BitIsSet, Product, Shifted, Value, Loses, LostInProduct, TrueProduct, TrueShift, Wrap256;
      SmallProductLosesNothing(l, r, n - 1);
      Round(l, r, n - 1);
      TrueNonNegative(l, r, n - 1);
      var out := ProductSplit(l, r, n - 1);
      WrapAtMost(TrueShift(r, n - 1));
      TrueProductAtMost(l, r, n);
      if BitIsSet(l, n - 1) == 1 && Loses(Product(l, r, n - 1), Shifted(r, n - 1)) {
        LosesIsLarge(Product(l, r, n - 1), Shifted(r, n - 1));
      }
    }
  }

  lemma TrueProductAtMost(l: Limbs, r: Limbs, n: nat)
    ensures TrueProduct(l, r, n) <= Value(l) * Value(r)
  {
    hide Value;
    RemainderAtMost(Value(l), Pow2(n));
    MulMonotone(Value(r), Value(l) % Pow2(n), Value(l));
  }

  lemma RemainderAtMost(x: nat, d: nat)
    requires d > 0
    ensures x % d <= x
  {
    DivBound(x, d);
  }

  lemma WrapAtMost(x: nat)
    ensures Wrap256(x) <= x
  {
  }

  /** In particular every product below 2^128 is exact. */
  lemma SmallProductExact(l: Limbs, r: Limbs)
    requires Value(l) * Value(r) < TWO_128
    ensures Value(Product(l, r, 256)) == Value(l) * Value(r)
  {
    hide Value, Product, ProductLoses;
    SmallProductLosesNothing(l, r, 256);
    ProductExactIff(l, r);
    ModOfSmall(Value(l) * Value(r), TWO_256);
  }

  /** 3 * (2^128 - 1) loses a carry: the product comes out 2^128 too small. */
  lemma ProductCounterexample()
    ensures var l, r := [3, 0, 0, 0], [LIMB_MAX, LIMB_MAX, 0, 0];
      Value(Product(l, r, 256)) == Value(l) * Value(r) - TWO_128
  {
    hide Sum, Product, Shifted, BitIsSet;
    var l, r := [3, 0, 0, 0], [LIMB_MAX, LIMB_MAX, 0, 0];
    FirstRounds(r);
    DoubledOperand();
    assert Pow2(1) == 2 && Pow2(2) == 4;
    HighZeros(l, r, 2, 256);
    SumExact(r, Shifted(r, 1));
    ModOfSmall(Value(l) * Value(r) - TWO_128, TWO_256);
  }

  lemma FirstRounds(r: Limbs)
    ensures Product([3, 0, 0, 0], r, 2) == Sum(r, Shifted(r, 1))
  {
    var l := [3, 0, 0, 0];
    hide BitIsSet, Shifted, Sum;
    BitIsSetExact(l, 0);
    BitIsSetExact(l, 1);
    Round(l, r, 0);
    Round(l, r, 1);
    assert Pow2(0) == 1 && Pow2(1) == 2;
    ModOfSmall(Value(r), TWO_256);
    ValueInjective(Shifted(r, 0), r);
    SumOfZero(r);
  }

  lemma SumOfZero(r: Limbs)
    ensures Sum([0, 0, 0, 0], r) == r
  {
    hide Sum;
    SumExact([0, 0, 0, 0], r);
    ModOfSmall(Value(r), TWO_256);
    ValueInjective(Sum([0, 0, 0, 0], r), r);
  }

  lemma DoubledOperand()
    ensures Shifted([LIMB_MAX, LIMB_MAX, 0, 0], 1) == [LIMB_MAX - 1, LIMB_MAX, 1, 0]
  {
    hide Shifted;
    assert Pow2(1) == 2;
    ShiftedExact([LIMB_MAX, LIMB_MAX, 0, 0], 1);
    ValueInjective(Shifted([LIMB_MAX, LIMB_MAX, 0, 0], 1), [LIMB_MAX - 1, LIMB_MAX, 1, 0]);
  }

  lemma {:induction false} HighZeros(l: Limbs, r: Limbs, n: nat, m: nat)
    requires n <= m <= 256 && Value(l) < Pow2(n)
    ensures Product(l, r, m) == Product(l, r, n)
    decreases m
  {
    hide BitIsSet, Shifted, Value, Product, LostInProduct, TrueProduct, TrueShift, Sum, LostCarry, Wrap256;
    if n < m {
      HighZeros(l, r, n, m - 1);
      Round(l, r, m - 1);
      ClearBit(l, n, m - 1);
    }
  }

  lemma ClearBit(l: Limbs, n: nat, i: nat)
    requires n <= i && Value(l) < Pow2(n)
    ensures BitIsSet(l, i) == 0
  {
    hide BitIsSet, Value, Pow2;
    BitIsSetExact(l, i);
    if n < i { Pow2Monotone(n, i); }
    ModOfSmall(Value(l), Pow2(i));
  }
}