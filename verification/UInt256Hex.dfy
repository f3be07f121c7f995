/**
 Hexadecimal parsing and printing of 256-bit integers in uint256.c.

 strtoul with base 16 and sprintf with %lx and %016lx stand for what sections 7.22.1.4
 and 7.21.6.1 of ISO/IEC 9899:2011 say of them on the arguments they get here.
 */
module UInt256Hex {
  import opened Words
  import opened UInt256

  // ----- digit strings

  predicate IsHexDigit(c: char) {
    '0' <= c <= '9' || 'a' <= c <= 'f' || 'A' <= c <= 'F'
  }

  predicate IsHex(s: string) {
    forall i | 0 <= i < |s| :: IsHexDigit(s[i])
  }

  function DigitValue(c: char): (d: nat)
    requires IsHexDigit(c)
    ensures d < 16
  {
    if c <= '9' then c as int - '0' as int
    else if c <= 'F' then c as int - 'A' as int + 10
    else c as int - 'a' as int + 10
  }

  function DigitChar(d: nat): (c: char)
    requires d < 16
    ensures IsHexDigit(c) && DigitValue(c) == d && !('A' <= c <= 'F')
  {
    "0123456789abcdef"[d]
  }

  function Pow16(n: nat): (p: nat)
    ensures p >= 1
  {
    if n == 0 then 1 else 16 * Pow16(n - 1)
  }

  /** The number that a string of digits denotes. */
  function HexValue(s: string): (n: nat)
    requires IsHex(s)
  {
    if s == [] then 0 else 16 * HexValue(s[..|s| - 1]) + DigitValue(s[|s| - 1])
  }

  lemma {:induction false} Pow16Add(a: nat, b: nat)
    ensures Pow16(a + b) == Pow16(a) * Pow16(b)
  {
    if a > 0 {
      Pow16Add(a - 1, b);
      assert Pow16(a + b) == 16 * (Pow16(a - 1) * Pow16(b)) == Pow16(a) * Pow16(b);
    }
  }

  lemma Pow16Literals()
    ensures Pow16(16) == 0x1_0000_0000_0000_0000
    ensures Pow16(64) == 0x1_0000_0000_0000_0000_0000_0000_0000_0000_0000_0000_0000_0000_0000_0000_0000_0000
  {
    assert Pow16(2) == 256;
    Pow16Add(2, 2);
    Pow16Add(4, 4);
    Pow16Add(8, 8);
    Pow16Add(16, 16);
    Pow16Add(32, 32);
  }

  lemma {:induction false} HexValueBound(s: string)
    requires IsHex(s)
    ensures HexValue(s) < Pow16(|s|)
  {
    if s != [] { HexValueBound(s[..|s| - 1]); }
  }

  lemma Unfold(s: string)
    requires IsHex(s)
    ensures s == [] ==> HexValue(s) == 0
    ensures s != [] ==> HexValue(s) == 16 * HexValue(s[..|s| - 1]) + DigitValue(s[|s| - 1])
    ensures Pow16(|s| + 1) == 16 * Pow16(|s|)
  {
  }

  lemma {:induction false} HexValueConcat(a: string, b: string)
    requires IsHex(a) && IsHex(b)
    ensures HexValue(a + b) == Pow16(|b|) * HexValue(a) + HexValue(b)
  {
    hide HexValue, Pow16, DigitValue;
    Unfold(b);
    if b == [] {
      assert a + b == a;
      assert Pow16(0) == 1 by { Unit(); }
    } else {
      var b' := b[..|b| - 1];
      assert (a + b)[..|a + b| - 1] == a + b';
      HexValueConcat(a, b');
      Unfold(a + b);
      Unfold(b');
      NextDigit(Pow16(|b'|), HexValue(a));
    }
  }

  lemma Unit()
    ensures Pow16(0) == 1
  {
  }

  lemma NextDigit(p: nat, h: nat)
    ensures 16 * (p * h) == 16 * p * h
  {
  }

  // ----- the printed form

  /** `%lx`, and more generally the digits of n without a needless leading zero. */
  function Digits(n: nat): (s: string)
    ensures IsHex(s) && |s| >= 1
  {
    if n < 16 then [DigitChar(n)] else Digits(n / 16) + [DigitChar(n % 16)]
  }

  /** The string filled up with zeros on the left to a width of k. */
  function Filled(s: string, k: nat): (t: string)
    ensures IsHex(s) ==> IsHex(t)
  {
    if |s| < k then seq(k - |s|, i => '0') + s else s
  }

  /** `%016lx`: the digits, filled up with zeros. */
  function Padded(n: nat, k: nat): (s: string)
    ensures IsHex(s)
  {
    Filled(Digits(n), k)
  }

  /** Lowercase, and no leading zero unless it is the only digit. */
  predicate IsCanonical(s: string) {
    && IsHex(s) && s != []
    && (forall i | 0 <= i < |s| :: !('A' <= s[i] <= 'F'))
    && (|s| > 1 ==> s[0] != '0')
  }

  /** The canonical form of a digit string. */
  function Canonical(s: string): (t: string)
    requires IsHex(s)
  {
    if s == [] then "0"
    else if s[0] == '0' && |s| > 1 then Canonical(s[1..])
    else seq(|s|, i requires 0 <= i < |s| => DigitChar(DigitValue(s[i])))
  }

  lemma {:induction false} DigitsValue(n: nat)
    ensures HexValue(Digits(n)) == n
  {
    if n < 16 {
      assert Digits(n)[..0] == [];
    } else {
      DigitsValue(n / 16);
      assert Digits(n)[..|Digits(n)| - 1] == Digits(n / 16);
    }
  }

  lemma {:induction false} DigitsCanonical(n: nat)
    ensures IsCanonical(Digits(n))
    ensures n > 0 ==> Digits(n)[0] != '0'
    decreases n
  {
    if n >= 16 { DigitsCanonical(n / 16); }
  }

  lemma {:induction false} CanonicalIsCanonical(s: string)
    requires IsHex(s)
    ensures IsCanonical(Canonical(s))
    ensures HexValue(Canonical(s)) == HexValue(s)
    decreases |s|
  {
    if s == [] {
      assert "0"[..0] == [];
    } else if s[0] == '0' && |s| > 1 {
      CanonicalIsCanonical(s[1..]);
      LeadingZero(s);
    } else {
      Lowercase(s);
    }
  }

  lemma LeadingZero(s: string)
    requires IsHex(s) && s != [] && s[0] == '0'
    ensures HexValue(s) == HexValue(s[1..])
  {
    hide HexValue, Pow16;
    HexValueConcat("0", s[1..]);
    assert s == "0" + s[1..];
    ZeroValue();
  }

  lemma ZeroValue()
    ensures HexValue("0") == 0
  {
    assert "0"[..0] == [];
  }

  lemma {:induction false} Lowercase(s: string)
    requires IsHex(s)
    ensures var t := seq(|s|, i requires 0 <= i < |s| => DigitChar(DigitValue(s[i])));
      IsHex(t) && HexValue(t) == HexValue(s)
  {
    if s != [] {
      var s' := s[..|s| - 1];
      Lowercase(s');
      var t := seq(|s|, i requires 0 <= i < |s| => DigitChar(DigitValue(s[i])));
      assert t[..|s| - 1] == seq(|s'|, i requires 0 <= i < |s'| => DigitChar(DigitValue(s'[i])));
    }
  }

  /** A canonical string is the printed form of its value, so no two of them share a value. */
  lemma {:induction false} CanonicalUnique(s: string)
    requires IsCanonical(s)
    ensures Digits(HexValue(s)) == s
    decreases |s|
  {
    hide HexValue, DigitValue, Digits;
    var s', c := s[..|s| - 1], s[|s| - 1];
    Unfold(s);
    LowercaseDigit(c);
    assert s == s' + [c];
    if |s| == 1 {
      Unfold(s');
      DigitsOne(DigitValue(c));
    } else {
      assert s'[0] == s[0];
      CanonicalUnique(s');
      CanonicalPositive(s');
      DigitsStep(HexValue(s));
    }
  }

  lemma LowercaseDigit(c: char)
    requires IsHexDigit(c) && !('A' <= c <= 'F')
    ensures DigitChar(DigitValue(c)) == c
  {
  }

  lemma DigitsOne(d: nat)
    requires d < 16
    ensures Digits(d) == [DigitChar(d)]
  {
  }

  lemma {:induction false} CanonicalPositive(s: string)
    requires IsHex(s) && s != [] && s[0] != '0'
    ensures HexValue(s) > 0
    decreases |s|
  {
    if |s| > 1 {
      CanonicalPositive(s[..|s| - 1]);
    } else {
      assert s[..0] == [];
    }
  }

  // ----- parsing

  predicate IsSpace(c: char): (b: bool)
    ensures b <==> c == ' ' || 9 <= c as int <= 13
  {
    c in " \t\n\r\U{000B}\U{000C}"
  }

  function SkipSpaces(s: string): (r: string)
    ensures |r| <= |s|
    ensures r != [] ==> !IsSpace(r[0])
  {
    if s != [] && IsSpace(s[0]) then SkipSpaces(s[1..]) else s
  }

  /** A prefix counts only before a digit. */
  predicate HasPrefix(s: string) {
    |s| >= 3 && s[0] == '0' && (s[1] == 'x' || s[1] == 'X') && IsHexDigit(s[2])
  }

  /** The digits at the front of a string. */
  function LeadingDigits(s: string): (d: string)
    ensures IsHex(d) && d <= s
    ensures d == s || !IsHexDigit(s[|d|])
  {
    if s == [] || !IsHexDigit(s[0]) then [] else [s[0]] + LeadingDigits(s[1..])
  }

  function Magnitude(s: string): (n: nat) {
    HexValue(LeadingDigits(if HasPrefix(s) then s[2..] else s))
  }

  /**
   strtoul(s, _, 16) on at most 16 characters, whose digits always fit 64 bits: spaces, a sign and a
   prefix may come first, the first character that is no digit ends the number, and a minus negates
   it modulo 2^64.
   */
  function Strtoul16(s: string): (x: u64)
    requires |s| <= 16
  {
    var t := SkipSpaces(s);
    var signed := t != [] && (t[0] == '+' || t[0] == '-');
    MagnitudeFits(if signed then t[1..] else t);
    if signed && t[0] == '-' then Wrap64(0 - Magnitude(t[1..]))
    else Magnitude(if signed then t[1..] else t)
  }

  lemma MagnitudeFits(s: string)
    requires |s| <= 16
    ensures Magnitude(s) <= LIMB_MAX
  {
    hide HexValue, Pow16;
    var d := LeadingDigits(if HasPrefix(s) then s[2..] else s);
    HexValueBound(d);
    Pow16Literals();
    Pow16Monotone(|d|, 16);
  }

  lemma DigitStartsNumber(s: string)
    requires s != [] ==> IsHexDigit(s[0])
    ensures SkipSpaces(s) == s
    ensures s != [] ==> s[0] != '+' && s[0] != '-'
  {
  }

  /** On digits alone strtoul gives their value. */
  lemma StrtoulOfDigits(s: string)
    requires IsHex(s) && |s| <= 16
    ensures Strtoul16(s) == HexValue(s)
  {
    hide HexValue, Wrap64, SkipSpaces, LeadingDigits;
    DigitStartsNumber(s);
    assert !HasPrefix(s);
    LeadingDigitsOf(s, []);
    assert s + [] == s;
  }

  lemma {:induction false} LeadingDigitsOf(digits: string, tail: string)
    requires IsHex(digits) && (tail == [] || !IsHexDigit(tail[0]))
    ensures LeadingDigits(digits + tail) == digits
  {
    if digits == [] {
      assert digits + tail == tail;
    } else {
      assert (digits + tail)[1..] == digits[1..] + tail;
      LeadingDigitsOf(digits[1..], tail);
    }
  }

  lemma {:induction false} SkipSpacesOf(spaces: string, rest: string)
    requires (forall c | c in spaces :: IsSpace(c)) && (rest == [] || !IsSpace(rest[0]))
    ensures SkipSpaces(spaces + rest) == rest
  {
    if spaces == [] {
      assert spaces + rest == rest;
    } else {
      assert (spaces + rest)[1..] == spaces[1..] + rest;
      SkipSpacesOf(spaces[1..], rest);
    }
  }

  /** A number as the standard writes it: what it denotes. */
  datatype Numeral = Numeral(spaces: string, sign: string, prefix: string, digits: string, tail: string)

  predicate WellFormed(n: Numeral) {
    && (forall c | c in n.spaces :: IsSpace(c))
    && n.sign in {"", "+", "-"} && n.prefix in {"", "0x", "0X"}
    && IsHex(n.digits) && n.digits != []
    && (n.tail == [] || !IsHexDigit(n.tail[0]))
    && (n.prefix == "" ==> !HasPrefix(n.digits + n.tail))
  }

  function Written(n: Numeral): (s: string) {
    n.spaces + (n.sign + (n.prefix + (n.digits + n.tail)))
  }

  lemma MagnitudeOf(n: Numeral)
    requires WellFormed(n)
    ensures Magnitude(n.prefix + (n.digits + n.tail)) == HexValue(n.digits)
  {
    hide HexValue;
    var body := n.digits + n.tail;
    LeadingDigitsOf(n.digits, n.tail);
    assert n.prefix + body == body || (n.prefix + body)[2..] == body;
    assert body[0] == n.digits[0] && IsHexDigit(body[0]);
  }

  /** strtoul reads every numeral of its grammar, whatever follows it. */
  lemma StrtoulOfNumeral(n: Numeral)
    requires WellFormed(n) && |Written(n)| <= 16
    ensures Strtoul16(Written(n)) == Wrap64(if n.sign == "-" then 0 - HexValue(n.digits) else HexValue(n.digits))
  {
    hide HexValue, Magnitude, LeadingDigits, SkipSpaces, HasPrefix;
    var body := n.prefix + (n.digits + n.tail);
    var rest := n.sign + body;
    MagnitudeOf(n);
    MagnitudeFits(body);
    assert body[0] == '0' || body[0] == n.digits[0];
    assert IsHexDigit(body[0]);
    assert n.sign == "" ==> rest == body;
    assert n.sign != "" ==> rest[0] == n.sign[0] && rest[1..] == body;
    SkipSpacesOf(n.spaces, rest);
    ModOfSmall(HexValue(n.digits), LIMB);
  }

  /** Where no digit follows the spaces and the sign, there is no number, and strtoul gives 0. */
  lemma StrtoulOfNothing(spaces: string, sign: string, tail: string)
    requires (forall c | c in spaces :: IsSpace(c)) && sign in {"", "+", "-"}
    requires tail == [] || !IsHexDigit(tail[0])
    requires sign == "" && tail != [] ==> !IsSpace(tail[0]) && tail[0] != '+' && tail[0] != '-'
    requires |spaces + (sign + tail)| <= 16
    ensures Strtoul16(spaces + (sign + tail)) == 0
  {
    hide HexValue, SkipSpaces;
    var rest := sign + tail;
    assert sign == "" ==> rest == tail;
    assert sign != "" ==> rest[0] == sign[0] && rest[1..] == tail;
    SkipSpacesOf(spaces, rest);
    EmptyValue();
    assert LeadingDigits(tail) == [] && Magnitude(tail) == 0;
  }

  lemma {:induction false} Pow16Monotone(a: nat, b: nat)
    requires a <= b
    ensures Pow16(a) <= Pow16(b)
  {
    if a < b { Pow16Monotone(a, b - 1); }
  }

  /** Copies n characters of a string into a buffer. */
  method CopyChars(s: string, from: nat, n: nat) returns (buf: string)
    requires from + n <= |s|
    ensures buf == s[from..from + n]
  {
    buf := [];
    for i := 0 to n
      invariant buf == s[from..from + i]
    {
      buf := buf + [s[from + i]];
    }
  }

  /** Limb i is read from the characters 16 i .. 16 i + 15 from the right, as far as there are any. */
  function Group(s: string, i: nat): (x: u64) {
    if 16 * i >= |s| then 0
    else if 16 * (i + 1) >= |s| then Strtoul16(s[..|s| - 16 * i])
    else Strtoul16(s[|s| - 16 * (i + 1)..|s| - 16 * i])
  }

  function Last64(s: string): (t: string)
    ensures |t| <= 64
  {
    if |s| >= 64 then s[|s| - 64..] else s
  }

  /** What parsing makes of any string. */
  function Parsed(s: string): (v: Limbs) {
    var t := Last64(s);
    [Group(t, 0), Group(t, 1), Group(t, 2), Group(t, 3)]
  }

  /** The characters left of group i. */
  function Prefix(s: string, i: nat): (p: string)
    ensures IsHex(s) ==> IsHex(p)
    ensures i == 0 ==> p == s
  {
    if 16 * i >= |s| then [] else s[..|s| - 16 * i]
  }

  lemma GroupStep(s: string, i: nat)
    requires IsHex(s)
    ensures HexValue(Prefix(s, i)) == Group(s, i) + 0x1_0000_0000_0000_0000 * HexValue(Prefix(s, i + 1))
  {
    hide HexValue, Pow16, Strtoul16;
    Pow16Literals();
    EmptyValue();
    if 16 * (i + 1) < |s| {
      var high, low := s[..|s| - 16 * (i + 1)], s[|s| - 16 * (i + 1)..|s| - 16 * i];
      assert s[..|s| - 16 * i] == high + low;
      StrtoulOfDigits(low);
      HexValueConcat(high, low);
    } else if 16 * i < |s| {
      StrtoulOfDigits(s[..|s| - 16 * i]);
    }
  }

  lemma EmptyValue()
    ensures HexValue([]) == 0
  {
  }

  /** The groups of at most 64 digits are the limbs of their value. */
  lemma GroupsOfDigits(s: string)
    requires IsHex(s) && |s| <= 64
    ensures Value([Group(s, 0), Group(s, 1), Group(s, 2), Group(s, 3)]) == HexValue(s)
  {
    hide HexValue, Group, Prefix, Value;
    GroupStep(s, 0);
    GroupStep(s, 1);
    GroupStep(s, 2);
    GroupStep(s, 3);
    EmptyValue();
    PrefixPast(s, 4);
    FoldGroups(HexValue(Prefix(s, 1)), HexValue(Prefix(s, 2)), HexValue(Prefix(s, 3)),
               [Group(s, 0), Group(s, 1), Group(s, 2), Group(s, 3)]);
  }

  lemma FoldGroups(h1: nat, h2: nat, h3: nat, v: Limbs)
    requires h1 == v[1] + 0x1_0000_0000_0000_0000 * h2
    requires h2 == v[2] + 0x1_0000_0000_0000_0000 * h3
    requires h3 == v[3]
    ensures Value(v) == v[0] + 0x1_0000_0000_0000_0000 * h1
  {
  }

  lemma PrefixPast(s: string, i: nat)
    requires 16 * i >= |s|
    ensures Prefix(s, i) == []
  {
  }

  lemma GroupPast(s: string, i: nat)
    requires 16 * i >= |s|
    ensures Group(s, i) == 0
  {
  }

  /** Digits further left than 64 only count multiples of 2^256. */
  lemma LastDigits(s: string)
    requires IsHex(s)
    ensures IsHex(Last64(s)) && HexValue(Last64(s)) == Wrap256(HexValue(s))
  {
    hide HexValue, Pow16;
    Pow16Literals();
    if |s| >= 64 {
      var high, low := s[..|s| - 64], s[|s| - 64..];
      assert s == high + low;
      HexValueConcat(high, low);
      HexValueBound(low);
      ModShift(HexValue(low), TWO_256, HexValue(high));
    } else {
      HexValueBound(s);
      Pow16Monotone(|s|, 64);
      ModOfSmall(HexValue(s), TWO_256);
    }
  }

  lemma ParsedDigits(s: string)
    requires IsHex(s)
    ensures Value(Parsed(s)) == Wrap256(HexValue(s))
  {
    hide HexValue, Group, Value, Wrap256, Last64;
    LastDigits(s);
    GroupsOfDigits(Last64(s));
  }

  /** hex is the string up to its terminator; whatever it holds, every group goes to its limb. */
  method CreateFromHex(hex: string) returns (result: Limbs)
    ensures result == Parsed(hex)
    ensures IsHex(hex) ==> Value(result) == Wrap256(HexValue(hex))
  {
    hide HexValue, Strtoul16, Value, Wrap256, Group, Last64, Parsed;
    result := [0, 0, 0, 0];
    LastOfLong(hex);
    var len := |hex|;
    if len >= 64 {
      var newstuff := CopyChars(hex, len - 64, 64);
      assert newstuff == Last64(hex);
      var newchar1 := CopyChars(newstuff, 0, 16);
      var newchar2 := CopyChars(newstuff, 16, 16);
      var newchar3 := CopyChars(newstuff, 32, 16);
      var newchar4 := CopyChars(newstuff, 48, 16);
      result := result[0 := Strtoul16(newchar4)];
      result := result[1 := Strtoul16(newchar3)];
      result := result[2 := Strtoul16(newchar2)];
      result := result[3 := Strtoul16(newchar1)];
      FourGroups(newstuff);
    } else {
      var quo, rem := len / 16, len % 16;
      var remain := CopyChars(hex, 0, rem);
      assert hex[0..0 + rem] == hex[..rem];
      TopGroup(hex);
      result := result[quo := Strtoul16(remain)];
      var rest := CopyChars(hex, rem, len - rem);
      for i := 0 to quo
        invariant result[quo] == Group(hex, quo)
        invariant forall k | quo - i <= k < quo :: result[k] == Group(hex, k)
        invariant forall k | quo < k < 4 :: result[k] == 0
      {
        var quoi := CopyChars(rest, i * 16, 16);
        LowerGroup(hex, i);
        result := result[quo - i - 1 := Strtoul16(quoi)];
      }
      forall k: nat | quo < k < 4 ensures Group(hex, k) == 0 { GroupPast(hex, k); }
    }
    ParsedByGroups(hex, result);
    if IsHex(hex) { ParsedDigits(hex); }
  }

  lemma LastOfLong(s: string)
    ensures Last64(s) == if |s| >= 64 then s[|s| - 64..|s| - 64 + 64] else s
  {
  }

  lemma ParsedByGroups(s: string, v: Limbs)
    requires var t := Last64(s);
      v[0] == Group(t, 0) && v[1] == Group(t, 1) && v[2] == Group(t, 2) && v[3] == Group(t, 3)
    ensures v == Parsed(s)
  {
    hide Group, Last64;
  }

  /** The four quarters of 64 characters, the last one the lowest. */
  lemma FourGroups(s: string)
    requires |s| == 64
    ensures Group(s, 0) == Strtoul16(s[48..48 + 16]) && Group(s, 1) == Strtoul16(s[32..32 + 16])
    ensures Group(s, 2) == Strtoul16(s[16..16 + 16]) && Group(s, 3) == Strtoul16(s[0..0 + 16])
  {
    hide Strtoul16;
    assert s[..|s| - 48] == s[0..0 + 16];
  }

  /** The i-th full group from the left, cut out of what follows the first |s| % 16 characters. */
  lemma LowerGroup(s: string, i: nat)
    requires i < |s| / 16
    ensures var rest := s[|s| % 16..|s| % 16 + (|s| - |s| % 16)];
      Strtoul16(rest[i * 16..i * 16 + 16]) == Group(s, |s| / 16 - i - 1)
  {
    hide Strtoul16;
    var rem := |s| % 16;
    var rest := s[rem..rem + (|s| - rem)];
    assert rest[i * 16..i * 16 + 16] == s[rem + i * 16..rem + i * 16 + 16];
    if rem == 0 && i == 0 { assert s[..16] == s[0..16]; }
  }

  lemma TopGroup(s: string)
    ensures Strtoul16(s[..|s| % 16]) == Group(s, |s| / 16)
  {
    if |s| % 16 == 0 {
      assert s[..0] == [];
      StrtoulOfDigits([]);
      EmptyValue();
    }
  }

  // ----- printing

  method FormatAsHex(val: Limbs) returns (hex: string)
    ensures hex == Digits(Value(val))
    ensures 1 <= |hex| <= 64 && IsCanonical(hex)
    ensures HexValue(hex) == Value(val)
  {
    hide HexValue, Digits, Padded, Value;
    hex := [];
    if val[3] != 0 {
      hex := hex + Digits(val[3]);
      for i := 3 downto 0
        invariant hex == Digits(Upper(val, i))
        invariant Upper(val, i) > 0
      {
        PrintLimb(val, i);
        hex := hex + Padded(val[i], 16);
      }
    } else if val[2] != 0 {
      hex := hex + Digits(val[2]);
      for i := 2 downto 0
        invariant hex == Digits(Upper(val, i))
        invariant Upper(val, i) > 0
      {
        PrintLimb(val, i);
        hex := hex + Padded(val[i], 16);
      }
    } else if val[1] != 0 {
      hex := hex + Digits(val[1]);
      for i := 1 downto 0
        invariant hex == Digits(Upper(val, i))
        invariant Upper(val, i) > 0
      {
        PrintLimb(val, i);
        hex := hex + Padded(val[i], 16);
      }
    } else {
      hex := hex + Digits(val[0]);
    }
    UpperIsValue(val);
    DigitsValue(Value(val));
    DigitsCanonical(Value(val));
    Pow16Literals();
    DigitsLength(Value(val), 64);
  }

  /** The number that the limbs from i upwards denote. */
  function Upper(v: Limbs, i: nat): (n: nat)
    requires i <= 3
    decreases 3 - i
  {
    if i == 3 then v[3] else v[i] + 0x1_0000_0000_0000_0000 * Upper(v, i + 1)
  }

  lemma UpperIsValue(v: Limbs)
    ensures Upper(v, 0) == Value(v)
  {
    assert Upper(v, 2) == v[2] + 0x1_0000_0000_0000_0000 * Upper(v, 3);
    assert Upper(v, 1) == v[1] + 0x1_0000_0000_0000_0000 * Upper(v, 2);
  }

  /** Printing one more limb, filled up to 16 digits. */
  lemma PrintLimb(v: Limbs, i: nat)
    requires i < 3 && Upper(v, i + 1) > 0
    ensures Upper(v, i) > 0
    ensures Digits(Upper(v, i + 1)) + Padded(v[i], 16) == Digits(Upper(v, i))
  {
    hide Digits, Padded, Pow16;
    Pow16Literals();
    DigitsConcat(Upper(v, i + 1), v[i], 16);
  }

  lemma {:induction false} DigitsLength(n: nat, k: nat)
    requires n < Pow16(k) && k >= 1
    ensures |Digits(n)| <= k
  {
    assert Pow16(1) == 16;
    if n >= 16 {
      DigitsLength(n / 16, k - 1);
    }
  }

  lemma DigitsStep(n: nat)
    requires n >= 16
    ensures Digits(n) == Digits(n / 16) + [DigitChar(n % 16)]
  {
  }

  /** Filling up commutes with appending one more digit. */
  lemma FillThenAppend(s: string, d: char, k: nat)
    requires k >= 1
    ensures Filled(s + [d], k) == Filled(s, k - 1) + [d]
  {
    if |s| + 1 < k {
      assert seq(k - (|s| + 1), i => '0') == seq(k - 1 - |s|, i => '0');
    }
  }

  lemma PaddedStep(m: nat, k: nat)
    requires k >= 2
    ensures Padded(m, k) == Padded(m / 16, k - 1) + [DigitChar(m % 16)]
  {
    hide Digits, Filled;
    if m < 16 {
      PaddedDigit(m, k);
    } else {
      DigitsStep(m);
      FillThenAppend(Digits(m / 16), DigitChar(m % 16), k);
    }
  }

  lemma PaddedDigit(m: nat, k: nat)
    requires m < 16 && k >= 2
    ensures Padded(m, k) == Padded(0, k - 1) + [DigitChar(m)]
  {
    assert Digits(m) == [DigitChar(m)] && Digits(0) == ['0'];
    hide Digits;
    assert Padded(m, k) == seq(k - 1, i => '0') + [DigitChar(m)];
    assert Padded(0, k - 1) == seq(k - 1, i => '0');
  }

  lemma PaddedOne(m: nat)
    requires m < 16
    ensures Padded(m, 1) == [DigitChar(m)]
  {
  }

  lemma SplitDigit(p: nat, n: nat, m: nat)
    requires p > 0 && n > 0
    ensures 16 * p * n + m >= 16
    ensures (16 * p * n + m) / 16 == p * n + m / 16 && (16 * p * n + m) % 16 == m % 16
  {
    NextDigit(p, n);
    MulPositive(p, n);
  }

  lemma {:induction false} DigitsConcat(n: nat, m: nat, k: nat)
    requires n > 0 && m < Pow16(k) && k >= 1
    ensures Digits(Pow16(k) * n + m) == Digits(n) + Padded(m, k)
  {
    hide Digits, Padded;
    SplitDigit(Pow16(k - 1), n, m);
    DigitsStep(Pow16(k) * n + m);
    if k == 1 {
      assert Pow16(0) == 1;
      PaddedOne(m);
    } else {
      DigitsConcat(n, m / 16, k - 1);
      PaddedStep(m, k);
    }
  }

  // ----- round trips

  /** Parsing what was printed gives the value back. */
  method ParseOfFormat(val: Limbs) returns (back: Limbs)
    ensures back == val
  {
    var hex := FormatAsHex(val);
    back := CreateFromHex(hex);
    ModOfSmall(Value(val), TWO_256);
    ValueInjective(back, val);
  }

  /** Printing what was parsed: for digits, the canonical form of the last 64 of them. */
  method FormatOfParse(s: string) returns (hex: string)
    ensures hex == Digits(Value(Parsed(s)))
    ensures IsHex(s) ==> IsHex(Last64(s)) && hex == Canonical(Last64(s))
  {
    hide HexValue, Digits, Value, Wrap256, Parsed, Last64;
    var v := CreateFromHex(s);
    hex := FormatAsHex(v);
    if IsHex(s) {
      LastDigits(s);
      CanonicalIsCanonical(Last64(s));
      CanonicalUnique(Canonical(Last64(s)));
    }
  }
}
