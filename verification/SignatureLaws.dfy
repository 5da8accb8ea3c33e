/**
 Signatures in the terms of section 5.1 of RFC 8032: which scalars and which digests of which bytes
 the public key, R and S are made from, and what verification compares.
 */
module SignatureLaws {
  import opened Orders
  import opened Arith
  import opened Digits
  import opened Limbs
  import opened Field
  import opened Scalars
  import opened Curve
  import opened Ed25519

  // ---------------------------------------------------------------------------
  // Constants
  // ---------------------------------------------------------------------------

  /** p = 2^255 - 19 and L = 2^252 + 27742317777372353535851937790883648493. */
  lemma ModuliAre()
    ensures P == Pow2(255) - 19
    ensures L == Pow2(252) + 27742317777372353535851937790883648493
  {
    Pow2Of256();
    Pow2Next(255);
    Pow2Next(254);
    Pow2Next(253);
    Pow2Next(252);
  }

  /** d = -121665/121666, and the base point's y is 4/5. */
  lemma CurveConstants()
    requires PrimeField()
    ensures FMul(121666, D()) == P - 121665 && FMul(5, BaseY()) == 4
  {
    hide PrimeField, FInv;
    Inverse(121666);
    Inverse(5);
    assert NegW(121665) == P - 121665;
    Exchange(121666, P - 121665, FInv(121666));
    Exchange(5, 4, FInv(5));
    TimesOne(P - 121665);
    TimesOne(4);
  }

  lemma TimesOne(x: Elem)
    ensures FMul(x, 1) == x
  {
  }

  // ---------------------------------------------------------------------------
  // Encodings, bit by bit
  // ---------------------------------------------------------------------------

  /** The sign bit of an encoding is the lowest bit of x; the other 255 bits are y. */
  lemma EncodedBits(p: Point)
    ensures var (x, y) := Affine(p);
      Le(Encode(p)) == y + if x % 2 == 1 then TOP_BIT else 0
  {
    hide FInv, FMul, EncodeY;
    var (x, y) := Affine(p);
    EncodeYIs(y, IsNegative(x));
    CanonicalIsSame(x);
  }

  lemma CanonicalIsSame(x: Elem)
    ensures CanonicalNum(x) == x
  {
  }

  /** A decoded point has the y of the low 255 bits, unreduced, and the x whose lowest bit is the sign bit. */
  lemma DecodedBits(b: Bytes32)
    requires Decode(b).Some?
    ensures var p := Decode(b).value;
      && p.x < P && p.z == 1 && p.t == FMul(p.x, p.y) && p.y < TOP_BIT
      && Le(b) == p.y + if p.x % 2 == 1 then TOP_BIT else 0
  {
    hide Decode, RootFor, FMul;
    DecodeIs(b);
    TopBitOf(b);
    var root := RootFor(FromBytes(b) % P).value;
    NegFlipsParity(root);
    CanonicalIsSame(root);
    CanonicalIsSame(FNeg(root));
    LowBits(b);
  }

  lemma LowBits(b: Bytes32)
    ensures FromBytes(b) < TOP_BIT
  {
  }

  // ---------------------------------------------------------------------------
  // The secret scalar
  // ---------------------------------------------------------------------------

  const BIT_254: nat := 0x4000000000000000_0000000000000000_0000000000000000_0000000000000000

  /** The low 254 bits of n with the lowest three cleared, and bit 254 set. */
  function Pruned(n: nat): nat {
    BIT_254 + (n % BIT_254 - n % 8)
  }

  lemma PrunedRange(n: nat)
    ensures BIT_254 <= Pruned(n) < TOP_BIT
    ensures Pruned(n) % 8 == 0
  {
    assert BIT_254 == 8 * (BIT_254 / 8);
    DivMod(n, BIT_254);
    AddMultiple(n % BIT_254, 8, (BIT_254 / 8) * (n / BIT_254));
    MulAssoc(8, BIT_254 / 8, n / BIT_254);
    assert n % 8 == (n % BIT_254) % 8;
    assert Pruned(n) == 8 * (BIT_254 / 8) + 8 * ((n % BIT_254) / 8);
  }

  /** Clamping keeps bits 3 to 253 of the bytes as they are, clears those around them and sets bit 254. */
  lemma ClampIs(a: Bytes32)
    ensures Le(Clamp(a)) == Pruned(Le(a))
  {
    hide Power, Value;
    var place := Power(0x100, 31);
    var low := a[0 := a[0] - a[0] % 8];
    TopPlace();
    MultipleOf8(a);
    ValueUpdate(a, 0, a[0] - a[0] % 8, 0x100);
    ValueUpdate(low, 31, a[31] % 64 + 64, 0x100);
    assert Power(0x100, 0) == 1 by { PowerZero(); }
    assert a[..32] == a;
    ValueAt(a, 31, 0x100);
    ValueBound(a[..31], 0x100);
    ClampedSum(Le(a), Value(a[..31], 0x100), a[31], place);
  }

  lemma PowerZero()
    ensures Power(0x100, 0) == 1
  {
  }

  lemma ClampedSum(n: nat, low: nat, top: Byte, place: nat)
    requires n == low + top * place && low < place && place * 0x80 == TOP_BIT
    ensures n % BIT_254 == low + (top % 64) * place
    ensures (top % 64) * place + BIT_254 == (top % 64 + 64) * place
  {
    assert BIT_254 == 64 * place;
    DivMod(top, 64);
    MulDistributes(place, 64 * (top / 64), top % 64);
    MulAssoc(top / 64, 64, place);
    MulMonotone(top % 64, 63, place);
    MulDistributes(place, top % 64, 64);
    DivModUnique(n, BIT_254, top / 64, low + (top % 64) * place);
  }

  /** The scalar a seed stands for: the first half of its digest, pruned. */
  function ScalarOf(sha: Hash, seed: Bytes32): nat {
    Pruned(Le(sha(seed)[..32]))
  }

  lemma SecretScalarIs(sha: Hash, seed: Bytes32)
    ensures Le(SecretScalar(sha, seed)) == ScalarOf(sha, seed) < BASE4
  {
    ClampIs(sha(seed)[..32]);
    PrunedRange(Le(sha(seed)[..32]));
  }

  // ---------------------------------------------------------------------------
  // What is signed
  // ---------------------------------------------------------------------------

  /** The bytes encode that multiple of the base point. */
  ghost predicate Encodes(b: Bytes32, n: nat)
    requires Decode(BaseBytes()).Some?
  {
    Decode(b).Some? && Valid(Decode(b).value) && Same(Decode(b).value, Mul(n, Base()))
  }

  lemma EncodesMultiple(n: nat)
    requires FieldFacts() && GroupLaws() && Decode(BaseBytes()).Some? && n < BASE4
    ensures Encodes(Encode(Times(Base(), n)), n)
  {
    hide Decode, Encode, Valid, BaseBytes, FieldFacts, GroupLaws, Affine, Mul, Ladder;
    BaseIsValid();
    TimesIsMul(Base(), n);
    DecodeEncodeIsSame(Times(Base(), n));
  }

  /** The public key encodes the secret scalar's multiple of the base point. */
  lemma PublicKeyIs(sha: Hash, seed: Bytes32)
    requires FieldFacts() && GroupLaws() && Decode(BaseBytes()).Some?
    ensures Encodes(PublicKeyOf(sha, seed), ScalarOf(sha, seed))
  {
    hide Decode, Encode, Valid, BaseBytes, FieldFacts, GroupLaws, Affine, Mul, Ladder, SecretScalar, ScalarOf, Encodes;
    SecretScalarIs(sha, seed);
    EncodesMultiple(ScalarOf(sha, seed));
  }

  /**
   R encodes [r]B for r the digest of the second half of the seed's digest and the message, and
   S is r + k * a, for k the digest of R, the public key and the message, all mod L.
   */
  lemma SignatureIs(sha: Hash, seed: Bytes32, msg: seq<Byte>)
    requires FieldFacts() && GroupLaws() && Decode(BaseBytes()).Some?
    ensures var (rBytes, s) := SignatureOf(sha, seed, msg);
      var r := Le(sha(sha(seed)[32..] + msg)) % L;
      var k := Le(sha(rBytes + PublicKeyOf(sha, seed) + msg)) % L;
      && Encodes(rBytes, r)
      && Le(s) == (k * ScalarOf(sha, seed) + r) % L
  {
    hide Decode, Encode, Valid, BaseBytes, FieldFacts, GroupLaws, Affine, Mul, Ladder, SecretScalar, ScalarOf, Encodes, Le, PublicKeyOf;
    SecretScalarIs(sha, seed);
    ResidueIsSmall(Le(sha(sha(seed)[32..] + msg)));
    EncodesMultiple(Le(sha(sha(seed)[32..] + msg)) % L);
  }

  lemma ResidueIsSmall(n: nat)
    ensures 0 <= n % L < L < BASE4
  {
  }

  // ---------------------------------------------------------------------------
  // What is accepted
  // ---------------------------------------------------------------------------

  /** S below L, two encodings that decode, and [S]B = R + [k]A for k the digest of R, A and the message. */
  lemma AcceptsIff(sha: Hash, public: Bytes32, msg: seq<Byte>, r: Bytes32, s: Bytes32)
    requires FieldFacts() && GroupLaws() && Decode(BaseBytes()).Some?
    requires Decode(public).Some? ==> Valid(Decode(public).value)
    requires Decode(r).Some? ==> Valid(Decode(r).value)
    ensures Accepts(sha, public, msg, r, s) <==>
      && Le(s) < L && Decode(public).Some? && Decode(r).Some?
      && Same(Mul(Le(s), Base()), PAdd(Decode(r).value, Mul(Le(sha(r + public + msg)) % L, Decode(public).value)))
  {
    hide Decode, Encode, Valid, BaseBytes, FieldFacts, GroupLaws, Affine, PAdd, Mul, Ladder, Le;
    if Le(s) < L && Decode(public).Some? && Decode(r).Some? {
      var k := Le(sha(r + public + msg)) % L;
      var a, point := Decode(public).value, Decode(r).value;
      ResidueIsSmall(Le(sha(r + public + msg)));
      BaseIsValid();
      TimesIsMul(Base(), Le(s));
      TimesIsMul(a, k);
      MulIsValid(k, a);
      MulIsValid(Le(s), Base());
      Congruence(point, Times(a, k), point, Mul(k, a));
      Laws(point, Times(a, k), point);
      EncodeIsInjective(Times(Base(), Le(s)), PAdd(point, Times(a, k)));
    }
  }

  /** [r]B + [k]([a]B) is [r + k * a]B. */
  lemma SumOfMultiples(r: nat, k: nat, a: nat, ka: nat, point: Point, public: Point)
    requires FieldFacts() && GroupLaws() && Decode(BaseBytes()).Some? && ka == k * a
    requires Valid(point) && Valid(public) && Same(point, Mul(r, Base())) && Same(public, Mul(a, Base()))
    ensures Same(PAdd(point, Mul(k, public)), Mul(r + ka, Base()))
  {
    hide Decode, Valid, BaseBytes, FieldFacts, GroupLaws, Affine, PAdd, Mul;
    var b := Base();
    BaseIsValid();
    MulMul(k, a, ka, b, public);
    MulIsValid(ka, b);
    MulIsValid(r, b);
    MulIsValid(k, public);
    Congruence(point, Mul(k, public), Mul(r, b), Mul(ka, b));
    MulAdds(r, ka, b);
  }

  /** The equation in scalars, when both points are multiples of the base point. */
  lemma EquationInScalars(s: nat, r: nat, k: nat, a: nat, ka: nat, point: Point, public: Point)
    requires FieldFacts() && GroupLaws() && Decode(BaseBytes()).Some? && BaseOrder() && ka == k * a
    requires s < L && Valid(point) && Valid(public) && Same(point, Mul(r, Base())) && Same(public, Mul(a, Base()))
    ensures Same(Mul(s, Base()), PAdd(point, Mul(k, public))) <==> s == Rem(r + ka, L)
  {
    hide Decode, Valid, BaseBytes, FieldFacts, GroupLaws, BaseOrder, Affine, PAdd, Mul, Rem, OrderDividesL;
    SumOfMultiples(r, k, a, ka, point, public);
    LIsAMultiple();
    ReducedMultiple(r + ka);
    var reduced := Rem(r + ka, L);
    if Same(Mul(s, Base()), Mul(reduced, Base())) {
      EqualMultiples(s, reduced);
    }
  }

  lemma LIsAMultiple()
    requires Decode(BaseBytes()).Some? && BaseOrder()
    ensures OrderDividesL()
  {
    hide Decode, BaseBytes, Mul;
    OrderOf(L);
    assert L % L == 0;
  }

  /**
   A signature made for one message is accepted for another exactly when the two digests, mod L, differ by
   nothing that the secret scalar does not annihilate.
   */
  lemma SignatureIsForItsMessage(sha: Hash, seed: Bytes32, msg: seq<Byte>, other: seq<Byte>)
    requires FieldFacts() && GroupLaws() && Decode(BaseBytes()).Some? && BaseOrder()
    ensures var (r, s) := SignatureOf(sha, seed, msg);
      var public := PublicKeyOf(sha, seed);
      var k, k' := Le(sha(r + public + msg)) % L, Le(sha(r + public + other)) % L;
      Accepts(sha, public, other, r, s) <==> (ScalarOf(sha, seed) * (k - k')) % L == 0
  {
    hide Decode, Encode, Valid, BaseBytes, FieldFacts, GroupLaws, BaseOrder, Affine, PAdd, Mul, Ladder, Le, ScalarOf, SignatureOf, PublicKeyOf, Accepts;
    var (rBytes, s) := SignatureOf(sha, seed, msg);
    var public, a := PublicKeyOf(sha, seed), ScalarOf(sha, seed);
    var k, k' := Le(sha(rBytes + public + msg)) % L, Le(sha(rBytes + public + other)) % L;
    var ka, ka': nat := k * a, k' * a;
    PublicKeyIs(sha, seed);
    SignatureIs(sha, seed, msg);
    AcceptsIff(sha, public, other, rBytes, s);
    SignedElsewhere(s, Le(sha(sha(seed)[32..] + msg)) % L, k, k', a, ka, ka', Decode(rBytes).value, Decode(public).value);
  }

  lemma SignedElsewhere(s: Bytes32, r: nat, k: nat, k': nat, a: nat, ka: nat, ka': nat, point: Point, public: Point)
    requires FieldFacts() && GroupLaws() && Decode(BaseBytes()).Some? && BaseOrder() && ka == k * a && ka' == k' * a
    requires Le(s) == (ka + r) % L
    requires Valid(point) && Valid(public) && Same(point, Mul(r, Base())) && Same(public, Mul(a, Base()))
    ensures Le(s) < L
    ensures Same(Mul(Le(s), Base()), PAdd(point, Mul(k', public))) <==> (a * (k - k')) % L == 0
  {
    hide Decode, Valid, BaseBytes, FieldFacts, GroupLaws, BaseOrder, Affine, PAdd, Mul, Le, Rem;
    ResidueIsSmall(ka + r);
    EquationInScalars(Le(s), r, k', a, ka', point, public);
    DigestsDiffer(a, k, k', ka, ka', r);
  }

  lemma DigestsDiffer(a: nat, k: nat, k': nat, ka: nat, ka': nat, r: nat)
    requires ka == k * a && ka' == k' * a
    ensures (ka + r) % L == Rem(r + ka', L) <==> (a * (k - k')) % L == 0
  {
    var minus: int := 0 - k';
    MulDistributes(a, k, minus);
    var difference := (ka + r) - (r + ka');
    assert a * (k - k') == difference;
    SameResidue(ka + r, r + ka', L);
  }

  lemma SameResidue(m: int, n: int, d: int)
    requires d > 0
    ensures m % d == n % d <==> (m - n) % d == 0
  {
    DivMod(m, d);
    DivMod(n, d);
    DivMod(m - n, d);
    MulDistributes(d, m / d, -(n / d));
    if m % d == n % d {
      DivModUnique(m - n, d, m / d - n / d, 0);
    } else if (m - n) % d == 0 {
      AddMultiple(n, d, (m - n) / d);
    }
  }
}
