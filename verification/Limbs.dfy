/**
 Multi-limb integers: 64-bit limbs, least significant first, with explicit carries. Every
 intermediate value is shown to fit the machine word the source computes it in.
 */
module Limbs {
  import opened Arith
  import opened Digits

  const BASE: nat := 0x1_0000_0000_0000_0000
  const BASE4: nat := 0x1_0000000000000000_0000000000000000_0000000000000000_0000000000000000
  const U128_LIMIT: nat := 0x1_0000000000000000_0000000000000000

  type Limb = x: nat | x < BASE
  type Limbs4 = s: seq<Limb> | |s| == 4 witness [0, 0, 0, 0]
  type Limbs8 = s: seq<Limb> | |s| == 8 witness [0, 0, 0, 0, 0, 0, 0, 0]

  /** The number a limb list stands for. */
  function Num(s: seq<nat>): nat {
    Value(s, BASE)
  }

  function Place(k: nat): nat {
    Power(BASE, k)
  }

  lemma Place4()
    ensures Place(0) == 1 && Place(4) == BASE4
  {
    assert Place(1) == BASE;
    assert Place(2) == U128_LIMIT;
  }

  lemma NumBound(s: seq<Limb>)
    ensures Num(s) < Place(|s|)
  {
    ValueBound(s, BASE);
  }

  lemma Num4Bound(s: Limbs4)
    ensures Num(s) < BASE4
  {
    NumBound(s);
    Place4();
  }

  lemma NumPrefixAll(s: seq<nat>)
    ensures Num(s[..|s|]) == Num(s) && Num(s[..0]) == 0
  {
    assert s[..|s|] == s;
  }

  /** A double word split into its low word and the carry. */
  lemma Split(cur: nat)
    requires cur < U128_LIMIT
    ensures cur == cur % BASE + BASE * (cur / BASE) && cur % BASE < BASE && cur / BASE < BASE
  {
  }

  // ---------------------------------------------------------------------------
  // add_limbs, sub_limbs, less_than
  // ---------------------------------------------------------------------------

  lemma AddPlace(r: nat, carry: nat, a: nat, b: nat, carryIn: nat, p: nat)
    requires r + BASE * carry == a + b + carryIn
    ensures r * p + carry * (BASE * p) == a * p + b * p + carryIn * p
  {
    MulAssoc(BASE, carry, p);
    MulAssoc(carry, BASE, p);
    MulDistributes(p, r, BASE * carry);
    MulDistributes(p, a + b, carryIn);
    MulDistributes(p, a, b);
  }

  method AddLimbs(a: Limbs4, b: Limbs4) returns (r: Limbs4, carry: Limb)
    ensures Num(r) + carry * BASE4 == Num(a) + Num(b)
    ensures carry <= 1
  {
    hide Num, Place;
    r := [0, 0, 0, 0];
    carry := 0;
    NumPrefixAll(a);
    NumPrefixAll(b);
    NumPrefixAll(r);
    Place4();
    for i := 0 to 4
      invariant carry <= 1
      invariant Num(r[..i]) + carry * Place(i) == Num(a[..i]) + Num(b[..i])
    {
      var s: nat := a[i] + b[i] + carry;
      assert s < U128_LIMIT;
      Split(s);
      AddPlace(s % BASE, s / BASE, a[i], b[i], carry, Place(i));
      ghost var before := r;
      r := r[i := s % BASE];
      assert r[..i] == before[..i];
      carry := s / BASE;
      NumAt(a, i);
      NumAt(b, i);
      NumAt(r, i);
    }
    NumPrefixAll(r);
  }

  lemma NumAt(s: seq<nat>, i: nat)
    requires i < |s|
    ensures Num(s[..i + 1]) == Num(s[..i]) + s[i] * Place(i)
    ensures Place(i + 1) == BASE * Place(i)
  {
    ValueAt(s, i, BASE);
  }

  method SubLimbs(a: Limbs4, b: Limbs4) returns (r: Limbs4, borrow: Limb)
    ensures Num(a) + borrow * BASE4 == Num(b) + Num(r)
    ensures borrow == if Num(a) < Num(b) then 1 else 0
  {
    hide Num, Place;
    r := [0, 0, 0, 0];
    borrow := 0;
    NumPrefixAll(a);
    NumPrefixAll(b);
    NumPrefixAll(r);
    Place4();
    for i := 0 to 4
      invariant borrow <= 1
      invariant Num(a[..i]) + borrow * Place(i) == Num(b[..i]) + Num(r[..i])
    {
      var d: int := a[i] - b[i] - borrow;
      ghost var before, borrowIn := r, borrow;
      if d < 0 {
        r := r[i := d + BASE];
        borrow := 1;
      } else {
        r := r[i := d];
        borrow := 0;
      }
      assert r[..i] == before[..i];
      AddPlace(a[i], borrow, b[i], r[i], borrowIn, Place(i));
      NumAt(a, i);
      NumAt(b, i);
      NumAt(r, i);
    }
    NumPrefixAll(r);
    Num4Bound(r);
    Num4Bound(a);
    Num4Bound(b);
  }

  lemma HigherLimbDecides(a: seq<Limb>, b: seq<Limb>, i: nat)
    requires |a| == |b| && i < |a| && a[i + 1..] == b[i + 1..] && a[i] < b[i]
    ensures Num(a) < Num(b)
  {
    hide Value, Power;
    var p := Place(i);
    NumBound(a[..i]);
    NumAt(a, i);
    NumAt(b, i);
    MulMonotone(a[i] + 1, b[i], p);
    MulDistributes(p, a[i], 1);
    assert a == a[..i + 1] + a[i + 1..] && b == b[..i + 1] + b[i + 1..];
    ValueConcat(a[..i + 1], a[i + 1..], BASE);
    ValueConcat(b[..i + 1], b[i + 1..], BASE);
  }

  method LessThan(a: Limbs4, b: Limbs4) returns (less: bool)
    ensures less <==> Num(a) < Num(b)
  {
    hide Num;
    for i := 4 downto 0
      invariant a[i..] == b[i..]
    {
      assert a[i..] == [a[i]] + a[i + 1..] && b[i..] == [b[i]] + b[i + 1..];
      if a[i] != b[i] {
        if a[i] < b[i] {
          HigherLimbDecides(a, b, i);
        } else {
          HigherLimbDecides(b, a, i);
        }
        return a[i] < b[i];
      }
    }
    assert a == a[0..] && b == b[0..];
    less := false;
  }

  // ---------------------------------------------------------------------------
  // mul_wide
  // ---------------------------------------------------------------------------

  lemma ProductFits(out: Limb, a: Limb, b: Limb, carry: Limb)
    ensures 0 <= out + a * b + carry < U128_LIMIT
  {
    MulMonotone(0, a, b);
    MulMonotone(a, BASE - 1, b);
    MulMonotone(b, BASE - 1, BASE - 1);
  }

  /** Replacing a limb by the low word of `cur` while carrying the rest. */
  lemma CarryStep(out: Limbs8, k: nat, cur: nat, carry: nat, extra: nat)
    requires k < 8 && cur < U128_LIMIT && cur == out[k] + extra + carry
    ensures Num(out[k := cur % BASE]) + (cur / BASE) * Place(k + 1) == Num(out) + extra * Place(k) + carry * Place(k)
  {
    hide Value, Power;
    Split(cur);
    ValueUpdate(out, k, cur % BASE, BASE);
    AddPlace(cur % BASE, cur / BASE, out[k], extra, carry, Place(k));
    PlaceNext(k);
  }

  lemma PlaceNext(k: nat)
    ensures Place(k + 1) == BASE * Place(k)
  {
  }

  lemma PlaceAdds(i: nat, j: nat)
    ensures Place(i + j) == Place(i) * Place(j)
  {
    PowerAdds(BASE, i, j);
  }

  /** One row of the product: `out + a[i] * b * BASE^i`, the carry left over at limb `i + 4`. */
  method MulRow(out: Limbs8, ai: Limb, b: Limbs4, i: nat) returns (r: Limbs8, carry: Limb)
    requires i < 4
    ensures Num(r) + carry * Place(i + 4) == Num(out) + (ai * Num(b)) * Place(i)
    ensures forall k | i + 4 <= k < 8 :: r[k] == out[k]
  {
    hide Num, Place;
    r := out;
    carry := 0;
    NumPrefixAll(b);
    assert (ai * 0) * Place(i) == 0;
    for j := 0 to 4
      invariant Num(r) + carry * Place(i + j) == Num(out) + (ai * Num(b[..j])) * Place(i)
      invariant forall k | i + 4 <= k < 8 :: r[k] == out[k]
    {
      ProductFits(r[i + j], ai, b[j], carry);
      var cur: nat := r[i + j] + ai * b[j] + carry;
      CarryStep(r, i + j, cur, carry, ai * b[j]);
      Split(cur);
      RowTerm(ai, b, i, j);
      r := r[i + j := cur % BASE];
      carry := cur / BASE;
    }
  }

  lemma RowTerm(ai: nat, b: seq<nat>, i: nat, j: nat)
    requires j < |b|
    ensures (ai * Num(b[..j + 1])) * Place(i) == (ai * Num(b[..j])) * Place(i) + (ai * b[j]) * Place(i + j)
  {
    hide Num, Place;
    NumAt(b, j);
    PlaceAdds(i, j);
    MulDistributes(ai, Num(b[..j]), b[j] * Place(j));
    MulAssoc(ai, b[j], Place(j));
    MulDistributes(Place(i), ai * Num(b[..j]), ai * b[j] * Place(j));
    MulAssoc(ai * b[j], Place(j), Place(i));
    assert Place(j) * Place(i) == Place(i) * Place(j);
  }

  /** A number below `Place(k)` has no carry left at limb `k`. */
  lemma NoCarryBeyond(n: nat, carry: nat, k: nat, total: nat)
    requires n + carry * Place(k) == total < Place(k)
    ensures carry == 0
  {
    hide Place;
    MulMonotone(0, carry, Place(k));
    MulSign(Place(k), carry);
  }

  /** The carry still to be added after row `i` dies out within the next limb: `k` stays below 8. */
  method PropagateCarry(out: Limbs8, carryIn: Limb, i: nat, ghost total: nat) returns (r: Limbs8)
    requires i < 4 && Num(out) + carryIn * Place(i + 4) == total < Place(i + 5)
    requires forall k | i + 5 <= k < 8 :: out[k] == 0
    ensures Num(r) == total
    ensures forall k | i + 5 <= k < 8 :: r[k] == 0
  {
    hide Num, Place;
    r := out;
    var carry: Limb := carryIn;
    var k := i + 4;
    while carry != 0
      invariant i + 4 <= k <= i + 5
      invariant k == i + 5 ==> carry == 0
      invariant Num(r) + carry * Place(k) == total
      invariant forall m | i + 5 <= m < 8 :: r[m] == 0
      decreases i + 5 - k
    {
      var cur: nat := r[k] + carry;
      CarryStep(r, k, cur, carry, 0);
      Split(cur);
      r := r[k := cur % BASE];
      carry := cur / BASE;
      k := k + 1;
      NoCarryBeyond(Num(r), carry, k, total);
    }
  }

  lemma RowTotal(a: Limbs4, b: Limbs4, i: nat)
    requires i < 4
    ensures Num(a[..i + 1]) * Num(b) == Num(a[..i]) * Num(b) + (a[i] * Num(b)) * Place(i)
    ensures Num(a[..i + 1]) * Num(b) < Place(i + 5)
  {
    hide Num, Place;
    NumAt(a, i);
    MulDistributes(Num(b), Num(a[..i]), a[i] * Place(i));
    MulAssoc(a[i], Place(i), Num(b));
    MulAssoc(a[i], Num(b), Place(i));
    assert Place(i) * Num(b) == Num(b) * Place(i);
    NumBound(a[..i + 1]);
    NumBound(b);
    PlaceAdds(i + 1, 4);
    ProductBelow(Num(a[..i + 1]), Num(b), Place(i + 1), Place(4));
  }

  lemma ProductBelow(x: nat, y: nat, p: nat, q: nat)
    requires x < p && y < q
    ensures x * y < p * q
  {
    MulMonotone(x, p - 1, y);
    MulMonotone(y, q, p - 1);
    MulDistributes(q, p, -1);
  }

  /** mul_wide: the exact 512-bit product. */
  method MulWide(a: Limbs4, b: Limbs4) returns (out: Limbs8)
    ensures Num(out) == Num(a) * Num(b)
  {
    hide Num, Place;
    out := [0, 0, 0, 0, 0, 0, 0, 0];
    NumOfZeros(out);
    NumPrefixAll(a);
    assert 0 * Num(b) == 0;
    for i := 0 to 4
      invariant Num(out) == Num(a[..i]) * Num(b)
      invariant forall k | i + 4 <= k < 8 :: out[k] == 0
    {
      RowTotal(a, b, i);
      var row, carry := MulRow(out, a[i], b, i);
      out := PropagateCarry(row, carry, i, Num(a[..i + 1]) * Num(b));
    }
  }

  lemma NumOfZeros(s: seq<nat>)
    requires forall i | 0 <= i < |s| :: s[i] == 0
    ensures Num(s) == 0
  {
    ValueOfZeros(s, BASE);
  }
}
