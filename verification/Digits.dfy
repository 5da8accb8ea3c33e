/** Numbers as little-endian digit lists in a radix that is a power of two: bytes and 64-bit limbs. */
module Digits {
  import opened Arith

  type Byte = x: nat | x < 0x100

  function Pow2(k: nat): (r: nat)
    ensures r >= 1
  {
    if k == 0 then 1 else 2 * Pow2(k - 1)
  }

  lemma {:induction false} Pow2Adds(a: nat, b: nat)
    ensures Pow2(a + b) == Pow2(a) * Pow2(b)
  {
    if a > 0 {
      Pow2Adds(a - 1, b);
      MulAssoc(2, Pow2(a - 1), Pow2(b));
    }
  }

  lemma Pow2Of8()
    ensures Pow2(8) == 0x100
  {
    assert Pow2(4) == 0x10;
  }

  lemma Pow2Of64()
    ensures Pow2(64) == 0x1_0000_0000_0000_0000
  {
    hide Pow2;
    Pow2Of8();
    Pow2Adds(8, 8);
    Pow2Adds(16, 16);
    Pow2Adds(32, 32);
  }

  /** The number with these digits, least significant first. */
  function Value(digits: seq<nat>, radix: nat): nat {
    if digits == [] then 0 else digits[0] + radix * Value(digits[1..], radix)
  }

  ghost predicate DigitsBelow(digits: seq<nat>, radix: nat) {
    forall i | 0 <= i < |digits| :: digits[i] < radix
  }

  function Power(radix: nat, k: nat): nat {
    if k == 0 then 1 else radix * Power(radix, k - 1)
  }

  lemma {:induction false} PowerOfPow2(w: nat, k: nat)
    ensures Power(Pow2(w), k) == Pow2(w * k)
  {
    hide Pow2;
    if k == 0 {
      Pow2Of0();
    } else {
      PowerOfPow2(w, k - 1);
      Pow2Adds(w, w * (k - 1));
      MulDistributes(w, 1, k - 1);
    }
  }

  lemma Pow2Of0()
    ensures Pow2(0) == 1
  {
  }

  lemma Pow2Next(k: nat)
    ensures Pow2(k + 1) == 2 * Pow2(k)
  {
  }

  lemma {:induction false} PowerAdds(radix: nat, a: nat, b: nat)
    ensures Power(radix, a + b) == Power(radix, a) * Power(radix, b)
  {
    if a > 0 {
      PowerAdds(radix, a - 1, b);
      MulAssoc(radix, Power(radix, a - 1), Power(radix, b));
    }
  }

  lemma {:induction false} PowerPositive(radix: nat, k: nat)
    requires radix >= 1
    ensures Power(radix, k) >= 1
  {
    if k > 0 {
      PowerPositive(radix, k - 1);
      MulMonotone(1, Power(radix, k - 1), radix);
    }
  }

  lemma {:induction false} ValueConcat(a: seq<nat>, b: seq<nat>, radix: nat)
    ensures Value(a + b, radix) == Value(a, radix) + Power(radix, |a|) * Value(b, radix)
  {
    if a == [] {
      assert a + b == b;
    } else {
      ValueConcat(a[1..], b, radix);
      assert (a + b)[1..] == a[1..] + b;
      var rest, p, v := Value(a[1..], radix), Power(radix, |a| - 1), Value(b, radix);
      MulDistributes(radix, rest, p * v);
      MulAssoc(radix, p, v);
    }
  }

  lemma ValueSnoc(a: seq<nat>, d: nat, radix: nat)
    ensures Value(a + [d], radix) == Value(a, radix) + d * Power(radix, |a|)
  {
    ValueConcat(a, [d], radix);
    assert Value([d], radix) == d + radix * Value([], radix);
  }

  lemma ValueAt(s: seq<nat>, i: nat, radix: nat)
    requires i < |s|
    ensures Value(s[..i + 1], radix) == Value(s[..i], radix) + s[i] * Power(radix, i)
  {
    assert s[..i + 1] == s[..i] + [s[i]];
    ValueSnoc(s[..i], s[i], radix);
  }

  /** Changing one digit changes the number by the difference at that place. */
  lemma ValueUpdate(s: seq<nat>, k: nat, d: nat, radix: nat)
    requires k < |s|
    ensures Value(s[k := d], radix) + s[k] * Power(radix, k) == Value(s, radix) + d * Power(radix, k)
  {
    hide Value, Power;
    var low, high := s[..k], s[k + 1..];
    assert s == (low + [s[k]]) + high && s[k := d] == (low + [d]) + high;
    ValueConcat(low + [s[k]], high, radix);
    ValueConcat(low + [d], high, radix);
    ValueSnoc(low, s[k], radix);
    ValueSnoc(low, d, radix);
  }

  lemma {:induction false} ValueBound(digits: seq<nat>, radix: nat)
    requires DigitsBelow(digits, radix)
    ensures Value(digits, radix) < Power(radix, |digits|)
  {
    if digits != [] {
      assert forall i | 0 <= i < |digits[1..]| :: digits[1..][i] == digits[i + 1];
      ValueBound(digits[1..], radix);
      var v, p := Value(digits[1..], radix), Power(radix, |digits| - 1);
      MulMonotone(v + 1, p, radix);
      MulDistributes(radix, v, 1);
    }
  }

  lemma {:induction false} ValueOfZeros(digits: seq<nat>, radix: nat)
    requires forall i | 0 <= i < |digits| :: digits[i] == 0
    ensures Value(digits, radix) == 0
  {
    if digits != [] {
      assert forall i | 0 <= i < |digits[1..]| :: digits[1..][i] == digits[i + 1];
      ValueOfZeros(digits[1..], radix);
    }
  }

  // ---------------------------------------------------------------------------
  // Bits
  // ---------------------------------------------------------------------------

  /** `n >> i`. */
  function Shifted(n: nat, i: nat): nat {
    Quot(n, Pow2(i))
  }

  function Bit(n: nat, i: nat): (b: nat)
    ensures b == 0 || b == 1
  {
    Shifted(n, i) % 2
  }

  /** Shifting one place less brings in one bit. */
  lemma ShiftStep(n: nat, i: nat)
    ensures Shifted(n, i) == 2 * Shifted(n, i + 1) + Bit(n, i)
  {
    hide Pow2;
    Pow2Next(i);
    QuotOfProduct(n, Pow2(i), 2);
  }

  lemma ShiftOut(n: nat, w: nat)
    requires n < Pow2(w)
    ensures Shifted(n, w) == 0
  {
  }

  lemma ShiftNone(n: nat)
    ensures Shifted(n, 0) == n
  {
    DivModUnique(n, 1, n, 0);
  }

  /** A shift within the lowest digit leaves the higher digits at a higher place. */
  lemma ShiftLow(low: nat, high: nat, w: nat, i: nat)
    requires i <= w
    ensures Shifted(low + Pow2(w) * high, i) == Shifted(low, i) + Pow2(w - i) * high
  {
    hide Pow2;
    var p, q := Pow2(i), Pow2(w - i);
    Pow2Adds(i, w - i);
    MulAssoc(p, q, high);
    AddMultiple(low, p, q * high);
    MulMonotone(0, high, q);
  }

  lemma BitLow(low: nat, high: nat, w: nat, i: nat)
    requires i < w
    ensures Bit(low + Pow2(w) * high, i) == Bit(low, i)
  {
    hide Pow2;
    ShiftLow(low, high, w, i);
    Pow2Next(w - i - 1);
    MulAssoc(2, Pow2(w - i - 1), high);
    AddMultiple(Shifted(low, i), 2, Pow2(w - i - 1) * high);
  }

  /** A shift past the lowest digit drops it. */
  lemma BitHigh(low: nat, high: nat, w: nat, i: nat)
    requires low < Pow2(w)
    ensures Bit(low + Pow2(w) * high, w + i) == Bit(high, i)
  {
    hide Pow2;
    Pow2Adds(w, i);
    QuotOfProduct(low + Pow2(w) * high, Pow2(w), Pow2(i));
    DivModUnique(low + Pow2(w) * high, Pow2(w), high, low);
  }

  /** A bit of a number is the bit of the digit it falls in. */
  lemma {:induction false} BitOfDigits(digits: seq<nat>, w: nat, place: nat, i: nat)
    requires i < w && place < |digits| && DigitsBelow(digits, Pow2(w))
    ensures Bit(Value(digits, Pow2(w)), w * place + i) == Bit(digits[place], i)
  {
    hide Pow2, Bit;
    var rest := Value(digits[1..], Pow2(w));
    if place == 0 {
      assert w * 0 == 0;
      BitLow(digits[0], rest, w, i);
    } else {
      assert forall k | 0 <= k < |digits[1..]| :: digits[1..][k] == digits[k + 1];
      BitOfDigits(digits[1..], w, place - 1, i);
      MulDistributes(w, 1, place - 1);
      BitHigh(digits[0], rest, w, w * (place - 1) + i);
    }
  }

  // ---------------------------------------------------------------------------
  // Writing a number out in digits
  // ---------------------------------------------------------------------------

  /** `count` digits of `n`, least significant first: `to_le_bytes`. */
  function ToDigits(n: nat, radix: nat, count: nat): (r: seq<nat>)
    requires radix > 0
    ensures |r| == count
    decreases count
  {
    if count == 0 then [] else [Rem(n, radix)] + ToDigits(Quot(n, radix), radix, count - 1)
  }

  lemma {:induction false} ToDigitsBelow(n: nat, radix: nat, count: nat)
    requires radix > 0
    ensures DigitsBelow(ToDigits(n, radix, count), radix)
    decreases count
  {
    hide Quot;
    if count > 0 {
      ToDigitsBelow(Quot(n, radix), radix, count - 1);
    }
  }

  lemma QuotBelow(n: nat, d: nat, p: nat)
    requires d > 0 && n < d * p
    ensures Quot(n, d) < p
  {
    DivMod(n, d);
    if n / d >= p {
      MulMonotone(p, n / d, d);
    }
  }

  lemma {:induction false} ToDigitsValue(n: nat, radix: nat, count: nat)
    requires radix > 0 && n < Power(radix, count)
    ensures Value(ToDigits(n, radix, count), radix) == n
    decreases count
  {
    if count > 0 {
      QuotBelow(n, radix, Power(radix, count - 1));
      ToDigitsValue(Quot(n, radix), radix, count - 1);
      var r := ToDigits(n, radix, count);
      assert r[1..] == ToDigits(Quot(n, radix), radix, count - 1);
      DivMod(n, radix);
    }
  }

  lemma {:induction false} ValueToDigits(digits: seq<nat>, radix: nat)
    requires radix > 0 && DigitsBelow(digits, radix)
    ensures ToDigits(Value(digits, radix), radix, |digits|) == digits
  {
    if digits != [] {
      var rest := Value(digits[1..], radix);
      assert forall i | 0 <= i < |digits[1..]| :: digits[1..][i] == digits[i + 1];
      ValueToDigits(digits[1..], radix);
      DivModUnique(digits[0] + radix * rest, radix, rest, digits[0]);
      assert digits == [digits[0]] + digits[1..];
    }
  }
}
