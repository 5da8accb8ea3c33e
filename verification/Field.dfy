/**
 Arithmetic mod p = 2^255 - 19 (section 5.1 of RFC 8032): the operations on field values, and
 the limb-level methods that compute them.
 */
module Field {
  import opened Arith
  import opened Digits
  import opened Limbs

  const P: nat := 0x7fffffffffffffff_ffffffffffffffff_ffffffffffffffff_ffffffffffffffed

  const P_LIMBS: Limbs4 := [0xffffffffffffffed, 0xffffffffffffffff, 0xffffffffffffffff, 0x7fffffffffffffff]

  /** A field value in canonical form. */
  type Elem = x: nat | x < P

  function FAdd(x: int, y: int): Elem {
    (x + y) % P
  }

  function FSub(x: int, y: int): Elem {
    (x - y) % P
  }

  function FMul(x: int, y: int): Elem {
    (x * y) % P
  }

  function FNeg(x: int): Elem {
    FSub(0, x)
  }

  function FSq(x: int): Elem {
    FMul(x, x)
  }

  function FPow(x: int, e: nat): Elem {
    if e == 0 then 1 else FMul(FPow(x, e - 1), x)
  }

  // ---------------------------------------------------------------------------
  // Laws of arithmetic mod p
  // ---------------------------------------------------------------------------

  lemma ModMul(x: int, y: int)
    ensures FMul(x % P, y) == FMul(x, y) && FMul(y, x % P) == FMul(x, y)
  {
    DivMod(x, P);
    MulDistributes(y, P * (x / P), x % P);
    MulAssoc(P, x / P, y);
    AddMultiple((x % P) * y, P, (x / P) * y);
    assert x * y == y * x && (x % P) * y == y * (x % P);
  }

  lemma FMulAssoc(x: int, y: int, z: int)
    ensures FMul(FMul(x, y), z) == FMul(x, FMul(y, z))
  {
    ModMul(x * y, z);
    ModMul(y * z, x);
    MulAssoc(x, y, z);
    assert (y * z) * x == x * (y * z);
  }

  lemma FMulComm(x: int, y: int)
    ensures FMul(x, y) == FMul(y, x)
  {
  }

  lemma FMulOne(x: Elem)
    ensures FMul(x, 1) == x && FMul(1, x) == x
  {
  }

  lemma {:induction false} FPowAdds(x: int, a: nat, b: nat)
    ensures FPow(x, a + b) == FMul(FPow(x, a), FPow(x, b))
  {
    hide FMul;
    if b == 0 {
      FMulOne(FPow(x, a));
    } else {
      FPowAdds(x, a, b - 1);
      FMulAssoc(FPow(x, a), FPow(x, b - 1), x);
    }
  }

  /** Squaring, then multiplying once more if the next exponent bit is set. */
  lemma FPowBit(x: int, k: nat, bit: nat)
    requires bit <= 1
    ensures FPow(x, 2 * k + bit) == if bit == 1 then FMul(FSq(FPow(x, k)), x) else FSq(FPow(x, k))
  {
    hide FMul;
    FPowAdds(x, k, k);
    assert k + k == 2 * k;
  }

  // ---------------------------------------------------------------------------
  // Limb-level operations
  // ---------------------------------------------------------------------------

  lemma NumOf4(s: Limbs4)
    ensures Num(s) == s[0] + BASE * s[1] + BASE * BASE * s[2] + BASE * BASE * BASE * s[3]
  {
    assert s == [s[0], s[1], s[2], s[3]];
    assert s[1..] == [s[1], s[2], s[3]] && s[2..] == [s[2], s[3]] && s[3..] == [s[3]];
    assert s[1..][1..] == s[2..] && s[2..][1..] == s[3..] && s[3..][1..] == [];
    assert Num(s) == s[0] + BASE * Num(s[1..]);
    assert Num(s[1..]) == s[1] + BASE * Num(s[2..]);
    assert Num(s[2..]) == s[2] + BASE * Num(s[3..]);
    assert Num(s[3..]) == s[3] + BASE * Num([]);
  }

  lemma PLimbsAreP()
    ensures Num(P_LIMBS) == P
  {
    NumOf4(P_LIMBS);
  }

  lemma SmallNum(n: Limb)
    ensures Num([n, 0, 0, 0]) == n
  {
    NumOf4([n, 0, 0, 0]);
  }

  /** canonical: subtract p once if that is possible. */
  method Canonical(a: Limbs4) returns (r: Limbs4)
    ensures Num(r) == CanonicalNum(Num(a))
  {
    hide Num;
    PLimbsAreP();
    var s, borrow := SubLimbs(a, P_LIMBS);
    r := if borrow == 0 then s else a;
  }

  method AddSmall(a: Limbs4, n: Limb) returns (r: Limbs4)
    ensures Num(r) == (Num(a) + n) % BASE4
  {
    hide Num;
    var carry;
    SmallNum(n);
    r, carry := AddLimbs(a, [n, 0, 0, 0]);
    Num4Bound(r);
    AddMultiple(Num(r), BASE4, carry);
  }

  function CanonicalNum(x: nat): nat {
    if x < P then x else x - P
  }

  /** What `add` computes on any operands: fold a carry as 38, then subtract p at most once. */
  function AddNum(x: nat, y: nat): nat {
    CanonicalNum(if x + y < BASE4 then x + y else (x + y - BASE4 + 38) % BASE4)
  }

  /** add: canonical operands give the canonical sum, and so does any pair short of 2^257 - 38 up to p. */
  method FeAdd(a: Limbs4, b: Limbs4) returns (r: Limbs4)
    ensures Num(r) == AddNum(Num(a), Num(b))
  {
    hide Num;
    var s, carry := AddLimbs(a, b);
    Num4Bound(s);
    Num4Bound(a);
    Num4Bound(b);
    if carry != 0 {
      s := AddSmall(s, 38);
    }
    r := Canonical(s);
  }

  /** On canonical operands `add` is the canonical sum. */
  lemma AddNumIsSum(x: nat, y: nat)
    ensures x < P && y < P ==> AddNum(x, y) == FAdd(x, y)
    ensures x + y < 2 * BASE4 - 38 ==> AddNum(x, y) % P == FAdd(x, y)
  {
  }

  lemma CanonicalResidue(n: nat)
    ensures CanonicalNum(n) % P == n % P
  {
    if n >= P {
      AddMultiple(n, P, -1);
    }
  }

  /** On any two words `add` keeps the residue class exactly when folding the carry once does not carry again. */
  lemma AddKeepsResidue(x: nat, y: nat)
    requires x < BASE4 && y < BASE4
    ensures AddNum(x, y) % P == FAdd(x, y) <==> x + y < 2 * BASE4 - 38
  {
    hide CanonicalNum;
    if x + y < BASE4 {
      CanonicalResidue(x + y);
    } else if x + y < 2 * BASE4 - 38 {
      CanonicalResidue(x + y - BASE4 + 38);
      AddMultiple(x + y, P, -2);
    } else {
      var twice := x + y - 2 * BASE4 + 38;
      CanonicalResidue(twice);
      AddMultiple(twice + 38, P, 4);
    }
  }

  /** What `sub` computes on any operands: the borrow branch adds p and drops the carry. */
  function SubNum(x: nat, y: nat): nat {
    if y <= x then x - y else (x - y + BASE4 + P) % BASE4
  }

  lemma SubNumIsDifference(x: nat, y: nat)
    requires x < P && y < P
    ensures SubNum(x, y) == FSub(x, y)
  {
  }

  method FeSub(a: Limbs4, b: Limbs4) returns (r: Limbs4)
    ensures Num(r) == SubNum(Num(a), Num(b))
  {
    hide Num;
    var borrow;
    r, borrow := SubLimbs(a, b);
    Num4Bound(a);
    Num4Bound(b);
    if borrow != 0 {
      PLimbsAreP();
      var carry;
      ghost var before := Num(r);
      r, carry := AddLimbs(r, P_LIMBS);
      Num4Bound(r);
      AddMultiple(Num(r), BASE4, carry);
    }
  }

  /** On any two words `sub` keeps the residue class exactly when the subtrahend is at most p above the minuend. */
  lemma SubKeepsResidue(x: nat, y: nat)
    requires x < BASE4 && y < BASE4
    ensures SubNum(x, y) % P == FSub(x, y) <==> y <= x + P
  {
    if y <= x {
    } else if y <= x + P {
      AddMultiple(x - y, P, 1);
    } else {
      AddMultiple(x - y, P, 3);
    }
  }

  /** So on a subtrahend left unreduced, as decoding leaves y, it can leave the class. */
  lemma SubNeedsCanonical(x: nat, y: nat)
    requires x < P && x + P < y < BASE4
    ensures SubNum(x, y) % P != FSub(x, y)
  {
    SubKeepsResidue(x, y);
  }

  // ---------------------------------------------------------------------------
  // reduce_512
  // ---------------------------------------------------------------------------

  lemma Fold38Place(out: nat, carry: nat, base: nat, hi: nat, carryIn: nat, p: nat)
    requires out + BASE * carry == base + hi * 38 + carryIn
    ensures out * p + carry * (BASE * p) == base * p + 38 * (hi * p) + carryIn * p
  {
    AddPlace(out, carry, base, hi * 38, carryIn, p);
    MulAssoc(38, hi, p);
    assert hi * 38 == 38 * hi;
  }

  /** mul38_add: `base + 38 * hi`. */
  method Mul38Add(hi: Limbs4, base: Limbs4) returns (out: Limbs4, over: Limb)
    ensures Num(out) + over * BASE4 == Num(base) + 38 * Num(hi)
  {
    hide Num, Place;
    out := [0, 0, 0, 0];
    var carry: Limb := 0;
    NumPrefixAll(hi);
    NumPrefixAll(base);
    NumPrefixAll(out);
    Place4();
    for i := 0 to 4
      invariant carry <= 38
      invariant Num(out[..i]) + carry * Place(i) == Num(base[..i]) + 38 * Num(hi[..i])
    {
      var cur: nat := base[i] + hi[i] * 38 + carry;
      Split(cur);
      Fold38Place(cur % BASE, cur / BASE, base[i], hi[i], carry, Place(i));
      ghost var before := out;
      out := out[i := cur % BASE];
      assert out[..i] == before[..i];
      carry := cur / BASE;
      NumAt(base, i);
      NumAt(hi, i);
      NumAt(out, i);
    }
    NumPrefixAll(out);
    over := carry;
  }

  /** Folding the high half: 2^256 = 38 mod p, because 2^256 - 38 = 2p. */
  lemma FoldKeepsResidue(lo: nat, hi: nat)
    ensures (lo + 38 * hi) % P == (lo + BASE4 * hi) % P
  {
    AddMultiple(lo + 38 * hi, P, 2 * hi);
  }

  method CondSubP(v: Limbs4) returns (r: Limbs4)
    ensures Num(r) == if Num(v) < P then Num(v) else Num(v) - P
  {
    hide Num;
    PLimbsAreP();
    var less := LessThan(v, P_LIMBS);
    if less {
      r := v;
    } else {
      var borrow;
      r, borrow := SubLimbs(v, P_LIMBS);
    }
  }

  lemma HalvesOf(w: Limbs8)
    ensures Num(w) == Num(w[..4]) + BASE4 * Num(w[4..])
  {
    assert w == w[..4] + w[4..];
    ValueConcat(w[..4], w[4..], BASE);
    Place4();
  }

  /** reduce_512: ends, with the canonical residue of its 512-bit input. */
  method Reduce512(w: Limbs8) returns (r: Limbs4)
    ensures Num(r) == Num(w) % P
  {
    hide Num;
    var lo: Limbs4 := w[..4];
    var hi: Limbs4 := w[4..];
    HalvesOf(w);
    while true
      invariant (Num(lo) + BASE4 * Num(hi)) % P == Num(w) % P
      decreases Num(lo) + BASE4 * Num(hi)
    {
      FoldKeepsResidue(Num(lo), Num(hi));
      var acc, over := Mul38Add(hi, lo);
      Num4Bound(lo);
      lo := acc;
      if over == 0 {
        break;
      }
      SmallNum(over);
      hi := [over, 0, 0, 0];
    }
    Num4Bound(lo);
    lo := CondSubP(lo);
    r := CondSubP(lo);
  }

  /** Multiplication is exact mod p for any operands, canonical or not. */
  method FeMul(a: Limbs4, b: Limbs4) returns (r: Limbs4)
    ensures Num(r) == FMul(Num(a), Num(b))
  {
    hide Num;
    var wide := MulWide(a, b);
    var reduced := Reduce512(wide);
    r := Canonical(reduced);
  }

  // ---------------------------------------------------------------------------
  // pow
  // ---------------------------------------------------------------------------

  lemma LimbBelowPow2(x: Limb)
    ensures x < Pow2(64)
  {
    Pow2Of64();
  }

  /** The exponent read so far: the limbs above `i`, then the top bits of limb `i`. */
  lemma ExponentStep(exp: Limbs4, i: nat, bit: nat, high: nat)
    requires i < 4 && bit < 64
    ensures high * Pow2(64 - bit) + Shifted(exp[i], bit)
         == 2 * (high * Pow2(64 - (bit + 1)) + Shifted(exp[i], bit + 1)) + Bit(exp[i], bit)
  {
    hide Pow2, Shifted, Bit;
    ShiftStep(exp[i], bit);
    Pow2Next(64 - (bit + 1));
    MulAssoc(2, Pow2(64 - (bit + 1)), high);
  }

  lemma ExponentLimb(exp: Limbs4, i: nat)
    requires i < 4
    ensures Num(exp[i..]) == exp[i] + BASE * Num(exp[i + 1..])
  {
    assert exp[i..][1..] == exp[i + 1..];
  }

  /** pow: square and multiply over the 256 exponent bits, most significant first. */
  method FePow(self: Limbs4, exp: Limbs4) returns (result: Limbs4)
    ensures Num(result) == FPow(Num(self), Num(exp))
  {
    hide Num, FMul, Pow2, Bit, Shifted;
    result := [1, 0, 0, 0];
    SmallNum(1);
    assert exp[4..] == [];
    NumPrefixAll(exp);
    for i := 4 downto 0
      invariant Num(result) == FPow(Num(self), Num(exp[i..]))
    {
      ghost var high := Num(exp[i + 1..]);
      ExponentLimb(exp, i);
      LimbBelowPow2(exp[i]);
      ShiftOut(exp[i], 64);
      Pow2Of0();
      for bit := 64 downto 0
        invariant Num(result) == FPow(Num(self), high * Pow2(64 - bit) + Shifted(exp[i], bit))
      {
        ExponentStep(exp, i, bit, high);
        FPowBit(Num(self), high * Pow2(64 - (bit + 1)) + Shifted(exp[i], bit + 1), Bit(exp[i], bit));
        result := FeMul(result, result);
        if Bit(exp[i], bit) == 1 {
          result := FeMul(result, self);
        }
      }
      ShiftNone(exp[i]);
      Pow2Of64();
      assert high * Pow2(64) == BASE * high;
    }
    assert exp[0..] == exp;
  }

  const INVERT_EXP: Limbs4 := [0xffffffffffffffeb, 0xffffffffffffffff, 0xffffffffffffffff, 0x7fffffffffffffff]

  /** invert: the power p - 2. */
  method FeInvert(a: Limbs4) returns (r: Limbs4)
    ensures Num(r) == FInv(Num(a))
  {
    hide Num, FPow;
    NumOf4(INVERT_EXP);
    r := FePow(a, INVERT_EXP);
  }

  function FInv(x: int): Elem {
    FPow(x, P - 2)
  }
}
