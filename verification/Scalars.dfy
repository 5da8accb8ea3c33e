/** Scalars mod the group order L (section 5.1 of RFC 8032): bit-by-bit reduction and multiply-add. */
module Scalars {
  import opened Arith
  import opened Digits
  import opened Limbs
  import opened Field

  const L: nat := 0x1000000000000000_0000000000000000_14def9dea2f79cd6_5812631a5cf5d3ed

  const L_LIMBS: Limbs4 := [0x5812631a5cf5d3ed, 0x14def9dea2f79cd6, 0x0000000000000000, 0x1000000000000000]

  type Bytes32 = s: seq<Byte> | |s| == 32 witness seq(32, _ => 0)
  type Bytes64 = s: seq<Byte> | |s| == 64 witness seq(64, _ => 0)

  /** The integer a little-endian byte string stands for. */
  function Le(b: seq<Byte>): nat {
    Value(b, 0x100)
  }

  lemma LLimbsAreL()
    ensures Num(L_LIMBS) == L
  {
    NumOf4(L_LIMBS);
  }

  // ---------------------------------------------------------------------------
  // Bytes and limbs
  // ---------------------------------------------------------------------------

  lemma BytePlace(i: nat)
    ensures Power(0x100, 8 * i) == Place(i)
  {
    hide Power, Pow2;
    Pow2Of8();
    Pow2Of64();
    PowerOfPow2(8, 8 * i);
    PowerOfPow2(64, i);
    assert 8 * (8 * i) == 64 * i;
  }

  lemma Place1()
    ensures Place(1) == BASE
  {
  }

  lemma WordBound(chunk: seq<Byte>)
    requires |chunk| == 8
    ensures Le(chunk) < BASE
  {
    hide Power;
    ValueBound(chunk, 0x100);
    BytePlace(1);
    Place1();
  }

  lemma LeWords(b: seq<Byte>, i: nat)
    requires 8 * i + 8 <= |b|
    ensures Le(b[..8 * i + 8]) == Le(b[..8 * i]) + Le(b[8 * i..8 * i + 8]) * Place(i)
  {
    hide Value, Power;
    assert b[..8 * i + 8] == b[..8 * i] + b[8 * i..8 * i + 8];
    ValueConcat(b[..8 * i], b[8 * i..8 * i + 8], 0x100);
    BytePlace(i);
  }

  /** le_to_limbs: eight bytes to a limb. */
  method LeToLimbs(b: Bytes32) returns (limbs: Limbs4)
    ensures Num(limbs) == Le(b)
  {
    hide Num, Le, Place;
    limbs := [0, 0, 0, 0];
    NumPrefixAll(limbs);
    assert b[..0] == [];
    LeOfNothing();
    for i := 0 to 4
      invariant Num(limbs[..i]) == Le(b[..8 * i])
    {
      var chunk := b[8 * i..8 * i + 8];
      WordBound(chunk);
      LeWords(b, i);
      ghost var before := limbs;
      limbs := limbs[i := Le(chunk)];
      assert limbs[..i] == before[..i];
      NumAt(limbs, i);
      assert 8 * (i + 1) == 8 * i + 8;
    }
    NumPrefixAll(limbs);
    assert b[..32] == b;
  }

  lemma LeOfNothing()
    ensures Le([]) == 0
  {
  }

  lemma WordBytes(x: Limb)
    ensures forall i | 0 <= i < 8 :: ToDigits(x, 0x100, 8)[i] < 0x100
    ensures Value(ToDigits(x, 0x100, 8), 0x100) == x
  {
    hide Power, ToDigits, Value;
    ToDigitsBelow(x, 0x100, 8);
    BytePlace(1);
    Place1();
    ToDigitsValue(x, 0x100, 8);
  }

  /** limbs_to_le, for any number of limbs: each limb's eight bytes in turn. */
  method LimbsToLe(limbs: seq<Limb>) returns (out: seq<Byte>)
    ensures |out| == 8 * |limbs| && Le(out) == Num(limbs)
  {
    hide Num, Le, Place, ToDigits, Value;
    out := [];
    NumPrefixAll(limbs);
    LeOfNothing();
    for i := 0 to |limbs|
      invariant |out| == 8 * i && Le(out) == Num(limbs[..i])
    {
      WordBytes(limbs[i]);
      var word: seq<Byte> := ToDigits(limbs[i], 0x100, 8);
      LeAppendWord(out, word, i);
      NumAt(limbs, i);
      LeIsValue(word);
      out := out + word;
    }
  }

  lemma LeIsValue(b: seq<Byte>)
    ensures Le(b) == Value(b, 0x100)
  {
  }

  lemma LeAppendWord(b: seq<Byte>, word: seq<Byte>, i: nat)
    requires |b| == 8 * i
    ensures Le(b + word) == Le(b) + Le(word) * Place(i)
  {
    hide Value, Power;
    ValueConcat(b, word, 0x100);
    BytePlace(i);
  }

  // ---------------------------------------------------------------------------
  // reduce_scalar_wide
  // ---------------------------------------------------------------------------

  lemma ShiftLimb(limb: Limb, carry: nat)
    requires carry <= 1
    ensures var low, high := 2 * limb % BASE, limb / 0x8000_0000_0000_0000;
            low % 2 == 0 && low + carry < BASE && high <= 1 && low + carry + BASE * high == limb + limb + carry
  {
  }

  /** `r <<= 1` across the limbs. */
  method ShiftLeft(r: Limbs4) returns (out: Limbs4, carry: Limb)
    ensures Num(out) + carry * BASE4 == 2 * Num(r)
    ensures out[0] % 2 == 0
  {
    hide Num, Place;
    out := r;
    carry := 0;
    NumPrefixAll(r);
    NumPrefixAll(out);
    Place4();
    for i := 0 to 4
      invariant carry <= 1
      invariant forall k | i <= k < 4 :: out[k] == r[k]
      invariant i > 0 ==> out[0] % 2 == 0
      invariant Num(out[..i]) + carry * Place(i) == 2 * Num(r[..i])
    {
      var newCarry: Limb := out[i] / 0x8000_0000_0000_0000;
      ShiftLimb(r[i], carry);
      AddPlace(2 * r[i] % BASE + carry, newCarry, r[i], r[i], carry, Place(i));
      ghost var before := out;
      out := out[i := 2 * out[i] % BASE + carry];
      assert out[..i] == before[..i];
      carry := newCarry;
      NumAt(r, i);
      NumAt(out, i);
    }
    NumPrefixAll(out);
  }

  /** `r[0] |= bit`, for a limb whose low bit may be set already. */
  function OrLowBit(limb: Limb, bit: nat): Limb
    requires bit <= 1
  {
    if limb % 2 == 0 && bit == 1 then limb + 1 else limb
  }

  lemma SetLowLimb(r: Limbs4, bit: nat)
    requires bit <= 1 && r[0] % 2 == 0
    ensures Num(r[0 := OrLowBit(r[0], bit)]) == Num(r) + bit
  {
    NumOf4(r);
    NumOf4(r[0 := OrLowBit(r[0], bit)]);
  }

  /** One conditional subtraction reduces a number below 2L. */
  method CondSubL(r: Limbs4, carry: Limb) returns (s: Limbs4)
    requires Num(r) + carry * BASE4 < 2 * L
    ensures Num(s) == (Num(r) + carry * BASE4) % L
  {
    hide Num;
    LLimbsAreL();
    s := r;
    var less := LessThan(r, L_LIMBS);
    if carry != 0 || !less {
      var borrow;
      s, borrow := SubLimbs(r, L_LIMBS);
    }
  }

  lemma HornerStep(high: nat, bit: nat)
    ensures (2 * (high % L) + bit) % L == (2 * high + bit) % L
    ensures bit <= 1 ==> 2 * (high % L) + bit < 2 * L
  {
    AddMultiple(2 * (high % L) + bit, L, 2 * (high / L));
  }

  lemma ByteBit(bytes: seq<Byte>, i: nat)
    requires i < 8 * |bytes|
    ensures i / 8 < |bytes| && Bit(Le(bytes), i) == Bit(bytes[i / 8], i % 8)
  {
    hide Bit, Value, Pow2;
    Pow2Of8();
    BitOfDigits(bytes, 8, i / 8, i % 8);
    assert 8 * (i / 8) + i % 8 == i;
  }

  lemma AllBitsOut(bytes: seq<Byte>)
    ensures Shifted(Le(bytes), 8 * |bytes|) == 0
  {
    hide Value, Pow2, Shifted, Power;
    Pow2Of8();
    ValueBound(bytes, 0x100);
    PowerOfPow2(8, |bytes|);
    ShiftOut(Le(bytes), 8 * |bytes|);
  }

  /** reduce_scalar_wide: the residue mod L of every 512-bit input. */
  method ReduceScalarWide(bytes: Bytes64) returns (out: Bytes32)
    ensures Le(out) == Le(bytes) % L
  {
    hide Num, Le, Bit, Shifted, OrLowBit;
    var r: Limbs4 := [0, 0, 0, 0];
    SmallNum(0);
    AllBitsOut(bytes);
    for i := 512 downto 0
      invariant Num(r) == Shifted(Le(bytes), i) % L
    {
      ByteBit(bytes, i);
      ShiftStep(Le(bytes), i);
      var bit := Bit(bytes[i / 8], i % 8);
      HornerStep(Shifted(Le(bytes), i + 1), bit);
      var carry;
      r, carry := ShiftLeft(r);
      SetLowLimb(r, bit);
      r := r[0 := OrLowBit(r[0], bit)];
      r := CondSubL(r, carry);
    }
    ShiftNone(Le(bytes));
    out := LimbsToLe(r);
  }

  // ---------------------------------------------------------------------------
  // scalar_muladd and scalar_is_canonical
  // ---------------------------------------------------------------------------

  lemma MulAddResidue(ab: nat, c: nat)
    ensures (ab % L + c) % L == (ab + c) % L
  {
    AddMultiple(ab % L + c, L, ab / L);
  }

  /** scalar_muladd: `(a * b + c) mod L` for any 256-bit a and b and any reduced c. */
  method ScalarMulAdd(a: Bytes32, b: Bytes32, c: Bytes32) returns (out: Bytes32)
    requires Le(c) < L
    ensures Le(out) == (Le(a) * Le(b) + Le(c)) % L
  {
    hide Num, Le;
    var al := LeToLimbs(a);
    var bl := LeToLimbs(b);
    var product := MulWide(al, bl);
    var wide := LimbsToLe(product);
    var ab := ReduceScalarWide(wide);
    MulAddResidue(Le(a) * Le(b), Le(c));
    var abl := LeToLimbs(ab);
    var cl := LeToLimbs(c);
    var sum, carry := AddLimbs(abl, cl);
    var r := CondSubL(sum, carry);
    out := LimbsToLe(r);
  }

  method ScalarIsCanonical(s: Bytes32) returns (canonical: bool)
    ensures canonical <==> Le(s) < L
  {
    LLimbsAreL();
    var limbs := LeToLimbs(s);
    canonical := LessThan(limbs, L_LIMBS);
  }
}
