/**
 The bit operations that cut an address into offset, index and tag, and the checks that
 csim.cpp makes of the sizes given on its command line.
 */
module CacheAddress {
  import opened Words
  import opened CacheModel

  /** `num & ~(~0U << n)` */
  function GetLeastSigN(num: nat, n: nat): (r: nat)
    requires n < 32
  {
    And(num, Not(Shl(Pow2(32) - 1, n, 32), 32))
  }

  /** m bits of num from bit n upwards */
  function GetLowSig(num: nat, n: nat, m: nat): (r: nat)
    requires m < 32
  {
    GetLeastSigN(Shr(num, n), m)
  }

  lemma LowSigExact(num: nat, n: nat, m: nat)
    requires m < 32
    ensures GetLowSig(num, n, m) == num / Pow2(n) % Pow2(m)
  {
    hide Pow2, And, Shl;
    LowMask(m, 32);
    DivBound(num, Pow2(n));
    AndMask(num / Pow2(n), m);
  }

  method HighestBitSet(num: nat) returns (highest: nat)
    ensures num == 0 ==> highest == 0
    ensures num > 0 ==> Pow2(highest) <= num < Pow2(highest + 1)
  {
    highest := 0;
    var rest: nat := num;
    assert Pow2(0) == 1;
    while rest / 2 > 0
      invariant rest > 0 <==> num > 0
      invariant rest == 0 ==> highest == 0
      invariant rest > 0 ==> rest * Pow2(highest) <= num < (rest + 1) * Pow2(highest)
      decreases rest
    {
      HalveBounds(rest, Pow2(highest), num);
      rest := rest / 2;
      highest := highest + 1;
    }
  }

  lemma HalveBounds(rest: nat, p: nat, num: nat)
    requires rest * p <= num < (rest + 1) * p
    ensures rest / 2 * (2 * p) <= num < (rest / 2 + 1) * (2 * p)
  {
    var h := rest / 2;
    assert rest == 2 * h || rest == 2 * h + 1;
    assert h * (2 * p) == 2 * h * p && (h + 1) * (2 * p) == 2 * h * p + 2 * p;
    assert (2 * h + 1) * p == 2 * h * p + p;
  }

  lemma BitLengthUnique(i: nat, j: nat)
    requires Pow2(i) <= Pow2(j) < Pow2(i + 1)
    ensures i == j
  {
    hide Pow2;
    if i < j {
      if i + 1 < j { Pow2Monotone(i + 1, j); }
    } else if j < i {
      Pow2Monotone(j, i);
    }
  }

  // ----- decoding

  /** Sizes 2^i and 2^o whose index and offset bits leave room for a tag. */
  ghost predicate Decodes(c: Config, i: nat, o: nat) {
    c.setNum == Pow2(i) && c.byteNum == Pow2(o) && c.blockNum >= 1 && 0 < i + o < 32
  }

  /** The decoder takes the set and the tag of the block out of a 32-bit address. */
  lemma DecodeExact(c: Config, i: nat, o: nat, address: nat)
    requires Decodes(c, i, o) && address < Pow2(32)
    ensures GetLowSig(address, o, i) == SetOf(c, address) < c.setNum
    ensures GetLowSig(address, i + o, 32 - i - o) == TagOf(c, address)
  {
    hide Pow2, GetLowSig;
    LowSigExact(address, o, i);
    LowSigExact(address, i + o, 32 - i - o);
    Pow2Add(o, i);
    DivModTwice(address, Pow2(o), Pow2(i));
    Pow2Add(i + o, 32 - i - o);
    TopPart(address, Pow2(i + o), Pow2(32 - i - o));
  }

  lemma TopPart(x: nat, a: nat, b: nat)
    requires a > 0 && b > 0 && x < a * b
    ensures x / a % b == x / a
  {
    DivModTwice(x, a, b);
    ModOfSmall(x, a * b);
    DivBound(x, a);
  }

  /** Two addresses fall into the same set under the same tag exactly when they share a block. */
  lemma DecodeInjective(c: Config, a: nat, b: nat)
    requires Usable(c)
    ensures SetOf(c, a) == SetOf(c, b) && TagOf(c, a) == TagOf(c, b) <==> BlockOf(c, a) == BlockOf(c, b)
  {
    var x, y := BlockOf(c, a), BlockOf(c, b);
    assert x == c.setNum * (x / c.setNum) + x % c.setNum;
    assert y == c.setNum * (y / c.setNum) + y % c.setNum;
  }

  // ----- the command line

  /** An `int` as the 32-bit pattern that `&` works on. */
  function Pattern(n: int): (p: nat) {
    n % 0x1_0000_0000
  }

  predicate IsPowerOfTwo(n: int) {
    And(Pattern(n), Pattern(n - 1)) == 0
  }

  /** A bit that both operands have is in the result. */
  lemma {:induction false} AndKeepsBit(x: nat, y: nat, i: nat)
    requires x / Pow2(i) % 2 == 1 && y / Pow2(i) % 2 == 1
    ensures And(x, y) > 0
    decreases i
  {
    AndStep(x, y);
    if i > 0 {
      DivModTwice(x, 2, Pow2(i - 1));
      DivModTwice(y, 2, Pow2(i - 1));
      AndKeepsBit(x / 2, y / 2, i - 1);
    }
  }

  /** The test accepts the powers of two, and 0. */
  lemma IsPowerOfTwoExact(n: int)
    requires -0x8000_0000 < n < 0x8000_0000
    ensures IsPowerOfTwo(n) <==> n == 0 || (n > 0 && IsPow2(n))
  {
    hide Pow2, And;
    if n > 0 {
      AndPredecessor(n);
    } else if n == 0 {
      NoBits(0xFFFF_FFFF);
    } else {
      TopBit();
      AndKeepsBit(Pattern(n), Pattern(n - 1), 31);
    }
  }

  lemma NoBits(y: nat)
    ensures And(0, y) == 0
  {
  }

  lemma TopBit()
    ensures Pow2(31) == 0x8000_0000
  {
    Pow2Literals();
  }

  /** The sizes and policies that csim.cpp lets through. */
  predicate Accepts(setNum: int, blockNum: int, byteNum: int, writeAllocate: bool, writeThrough: bool) {
    && IsPowerOfTwo(setNum) && IsPowerOfTwo(blockNum) && IsPowerOfTwo(byteNum) && byteNum >= 4
    && !(!writeAllocate && !writeThrough)
  }

  /** Powers of two pass, 0 for the two counts, and blocks of at least 4 bytes; one combination of policies does not. */
  lemma AcceptsExact(setNum: int, blockNum: int, byteNum: int, wa: bool, wt: bool)
    requires -0x8000_0000 < setNum < 0x8000_0000
    requires -0x8000_0000 < blockNum < 0x8000_0000
    requires -0x8000_0000 < byteNum < 0x8000_0000
    ensures Accepts(setNum, blockNum, byteNum, wa, wt) <==>
              && (setNum == 0 || (setNum > 0 && IsPow2(setNum)))
              && (blockNum == 0 || (blockNum > 0 && IsPow2(blockNum)))
              && byteNum >= 4 && IsPow2(byteNum) && (wa || wt)
  {
    hide IsPowerOfTwo;
    IsPowerOfTwoExact(setNum);
    IsPowerOfTwoExact(blockNum);
    IsPowerOfTwoExact(byteNum);
  }

  /** All accepted sizes are powers of two precisely when neither count is 0. */
  lemma AcceptedSizes(setNum: int, blockNum: int, byteNum: int, wa: bool, wt: bool)
    requires -0x8000_0000 < setNum < 0x8000_0000
    requires -0x8000_0000 < blockNum < 0x8000_0000
    requires -0x8000_0000 < byteNum < 0x8000_0000
    requires Accepts(setNum, blockNum, byteNum, wa, wt)
    ensures byteNum >= 4 && IsPow2(byteNum) && (wa || wt)
    ensures (setNum > 0 && IsPow2(setNum) && blockNum > 0 && IsPow2(blockNum))
       <==> setNum != 0 && blockNum != 0
  {
    hide IsPowerOfTwo;
    IsPowerOfTwoExact(setNum);
    IsPowerOfTwoExact(blockNum);
    IsPowerOfTwoExact(byteNum);
  }

  /** Accepted sizes other than 0 can be decoded, as long as index and offset leave room for a tag. */
  lemma AcceptedDecodes(c: Config)
    requires c.setNum < 0x8000_0000 && c.blockNum < 0x8000_0000 && c.byteNum < 0x8000_0000
    requires Accepts(c.setNum, c.blockNum, c.byteNum, c.writeAllocate, c.writeThrough)
    ensures c.setNum != 0 && c.blockNum != 0 && c.setNum * c.byteNum < 0x1_0000_0000 <==>
        exists i: nat, o: nat :: Decodes(c, i, o)
  {
    hide IsPowerOfTwo, Pow2;
    AcceptedSizes(c.setNum, c.blockNum, c.byteNum, c.writeAllocate, c.writeThrough);
    Pow2Literals();
    SmallPowers();
    if c.setNum != 0 && c.blockNum != 0 && c.setNum * c.byteNum < 0x1_0000_0000 {
      var i: nat :| c.setNum == Pow2(i);
      var o: nat :| c.byteNum == Pow2(o);
      Pow2Add(i, o);
      if i + o > 32 { Pow2Monotone(32, i + o); }
      assert Decodes(c, i, o);
    }
    forall i: nat, o: nat | Decodes(c, i, o)
      ensures c.setNum != 0 && c.blockNum != 0 && c.setNum * c.byteNum < 0x1_0000_0000
    {
      Pow2Add(i, o);
      Pow2Monotone(i + o, 32);
    }
  }

  lemma SmallPowers()
    ensures Pow2(0) == 1
  {
  }

  /** A cache without any block is accepted. */
  lemma AcceptsZeroBlocks()
    ensures Accepts(1, 0, 4, true, true)
  {
    hide IsPowerOfTwo;
    IsPowerOfTwoExact(1);
    IsPowerOfTwoExact(0);
    IsPowerOfTwoExact(4);
    assert Pow2(0) == 1 && Pow2(2) == 4;
  }
}
