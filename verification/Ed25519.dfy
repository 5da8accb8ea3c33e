/**
 Ed25519 signing and verification (sections 5.1.5 to 5.1.7 of RFC 8032). SHA-512 is a parameter;
 what the group is known to satisfy is stated as hypotheses.
 */
module Ed25519 {
  import opened Orders
  import opened Arith
  import opened Digits
  import opened Limbs
  import opened Field
  import opened Scalars
  import opened Curve

  // ---------------------------------------------------------------------------
  // Multiples of a point
  // ---------------------------------------------------------------------------

  /** [n]p, by repeated addition. */
  ghost function Mul(n: nat, p: Point): Point {
    if n == 0 then IDENTITY else PAdd(Mul(n - 1, p), p)
  }

  /** Double-and-add over bits 255 down to `i` of `n`. */
  function Ladder(p: Point, n: nat, i: nat): Point
    decreases 256 - i
  {
    if i >= 256 then IDENTITY
    else
      var r := Ladder(p, n, i + 1);
      var twice := PAdd(r, r);
      if Bit(n, i) == 1 then PAdd(twice, p) else twice
  }

  function Times(p: Point, n: nat): Point {
    Ladder(p, n, 0)
  }

  method ScalarMul(p: Point, scalar: Bytes32) returns (r: Point)
    ensures r == Times(p, Le(scalar))
  {
    hide PAdd, Bit, Le;
    r := IDENTITY;
    for i := 256 downto 0
      invariant r == Ladder(p, Le(scalar), i)
    {
      r := PAdd(r, r);
      ByteBit(scalar, i);
      if Bit(scalar[i / 8], i % 8) == 1 {
        r := PAdd(r, p);
      }
    }
  }

  /** Two points in extended coordinates stand for the same point of the curve. */
  predicate Same(p: Point, q: Point) {
    Affine(p) == Affine(q)
  }

  // ---------------------------------------------------------------------------
  // Hypotheses about the group
  // ---------------------------------------------------------------------------

  predicate ClosedAt(p: Point, q: Point) {
    Valid(p) && Valid(q) ==> Valid(PAdd(p, q))
  }

  predicate CongruentAt(p: Point, q: Point, p': Point, q': Point) {
    Valid(p) && Valid(q) && Valid(p') && Valid(q') && Same(p, p') && Same(q, q') ==> Same(PAdd(p, q), PAdd(p', q'))
  }

  predicate AssociativeAt(p: Point, q: Point, r: Point) {
    Valid(p) && Valid(q) && Valid(r) ==> Same(PAdd(PAdd(p, q), r), PAdd(p, PAdd(q, r)))
  }

  predicate IdentityAt(p: Point) {
    Valid(p) ==> Same(PAdd(p, IDENTITY), p)
  }

  ghost predicate Closed() {
    forall p: Point, q: Point :: ClosedAt(p, q)
  }

  ghost predicate Congruent() {
    forall p: Point, q: Point, p': Point, q': Point :: CongruentAt(p, q, p', q')
  }

  ghost predicate Associative() {
    forall p: Point, q: Point, r: Point :: AssociativeAt(p, q, r)
  }

  ghost predicate RightIdentity() {
    Valid(IDENTITY) && forall p: Point :: IdentityAt(p)
  }

  ghost predicate GroupLaws() {
    Closed() && Congruent() && Associative() && RightIdentity()
  }

  function BaseBytes(): Bytes32 {
    EncodeY(BaseY(), false)
  }

  /** The base point; the source panics if its encoding does not decode. */
  function Base(): Point
    requires Decode(BaseBytes()).Some?
  {
    Decode(BaseBytes()).value
  }

  /** [n]B is the identity exactly for the multiples of L. */
  ghost predicate OrderAt(n: nat)
    requires Decode(BaseBytes()).Some?
  {
    Same(Mul(n, Base()), IDENTITY) <==> n % L == 0
  }

  /** The order of the base point is L. */
  ghost predicate BaseOrder()
    requires Decode(BaseBytes()).Some?
  {
    forall n: nat :: OrderAt(n)
  }

  /** All that acceptance needs of it: L times the base point is the identity. */
  ghost predicate OrderDividesL()
    requires Decode(BaseBytes()).Some?
  {
    Same(Mul(L, Base()), IDENTITY)
  }

  ghost predicate FieldFacts() {
    PrimeField() && RootOfMinusOne() && DIsNotSquare()
  }

  // ---------------------------------------------------------------------------
  // Laws of multiples
  // ---------------------------------------------------------------------------

  lemma Laws(p: Point, q: Point, r: Point)
    requires GroupLaws() && Valid(p) && Valid(q) && Valid(r)
    ensures Valid(PAdd(p, q)) && Valid(PAdd(q, r))
    ensures Same(PAdd(PAdd(p, q), r), PAdd(p, PAdd(q, r)))
  {
    hide PAdd, Valid, Same;
    assert ClosedAt(p, q) && ClosedAt(q, r) && AssociativeAt(p, q, r);
  }

  lemma Congruence(p: Point, q: Point, p': Point, q': Point)
    requires GroupLaws() && Valid(p) && Valid(q) && Valid(p') && Valid(q') && Same(p, p') && Same(q, q')
    ensures Same(PAdd(p, q), PAdd(p', q'))
  {
    hide PAdd, Valid, Same;
    assert CongruentAt(p, q, p', q');
  }

  lemma Identity(p: Point)
    requires GroupLaws() && Valid(p)
    ensures Valid(IDENTITY) && Same(PAdd(p, IDENTITY), p)
  {
    hide PAdd, Valid, Same;
    assert IdentityAt(p);
  }

  lemma OrderOf(n: nat)
    requires Decode(BaseBytes()).Some? && BaseOrder()
    ensures Same(Mul(n, Base()), IDENTITY) <==> n % L == 0
  {
    hide Decode, BaseBytes, Same, Mul;
    assert OrderAt(n);
  }

  lemma {:induction false} MulIsValid(n: nat, p: Point)
    requires GroupLaws() && Valid(p)
    ensures Valid(Mul(n, p))
  {
    hide PAdd, Valid, GroupLaws;
    if n == 0 {
      Identity(p);
    } else {
      MulIsValid(n - 1, p);
      Laws(Mul(n - 1, p), p, p);
    }
  }

  /** [a + b]p = [a]p + [b]p */
  lemma {:induction false} MulAdds(a: nat, b: nat, p: Point)
    requires GroupLaws() && Valid(p)
    ensures Same(Mul(a + b, p), PAdd(Mul(a, p), Mul(b, p)))
  {
    hide PAdd, Valid, GroupLaws, Affine;
    MulIsValid(a, p);
    if b == 0 {
      Identity(Mul(a, p));
    } else {
      var ma, mb := Mul(a, p), Mul(b - 1, p);
      MulIsValid(b - 1, p);
      MulIsValid(a + (b - 1), p);
      MulAdds(a, b - 1, p);
      Laws(ma, mb, p);
      Congruence(Mul(a + (b - 1), p), p, PAdd(ma, mb), p);
    }
  }

  /** [k]q = [k * a]p when q is [a]p. */
  lemma {:induction false} MulMul(k: nat, a: nat, n: nat, p: Point, q: Point)
    requires n == k * a
    requires GroupLaws() && Valid(p) && Valid(q) && Same(q, Mul(a, p))
    ensures Same(Mul(k, q), Mul(n, p))
    decreases k
  {
    hide PAdd, Valid, GroupLaws, Affine;
    if k > 0 {
      MulDistributes(a, k, -1);
      MulMonotone(0, k - 1, a);
      var m := n - a;
      MulMul(k - 1, a, m, p, q);
      MulIsValid(k - 1, q);
      MulIsValid(a, p);
      MulIsValid(m, p);
      Congruence(Mul(k - 1, q), q, Mul(m, p), Mul(a, p));
      MulAdds(m, a, p);
    }
  }

  lemma {:induction false} MulIdentity(k: nat)
    requires GroupLaws()
    ensures Same(Mul(k, IDENTITY), IDENTITY)
  {
    hide PAdd, Valid, GroupLaws, Affine;
    IdentityIsValid();
    if k > 0 {
      MulIdentity(k - 1);
      MulIsValid(k - 1, IDENTITY);
      Identity(Mul(k - 1, IDENTITY));
    }
  }

  lemma IdentityIsValid()
    requires GroupLaws()
    ensures Valid(IDENTITY)
  {
    hide PAdd, Valid, Affine;
  }

  /** The ladder computes the multiple. */
  lemma {:induction false} LadderIsMul(p: Point, n: nat, i: nat)
    requires GroupLaws() && Valid(p) && i <= 256 && Shifted(n, 256) == 0
    ensures Valid(Ladder(p, n, i)) && Same(Ladder(p, n, i), Mul(Shifted(n, i), p))
    decreases 256 - i
  {
    hide PAdd, Valid, GroupLaws, Affine, Bit, Shifted;
    Identity(p);
    if i < 256 {
      LadderIsMul(p, n, i + 1);
      ShiftStep(n, i);
      var r, m := Ladder(p, n, i + 1), Shifted(n, i + 1);
      var twice := PAdd(r, r);
      MulIsValid(m, p);
      MulIsValid(2 * m, p);
      Laws(r, r, p);
      Congruence(r, r, Mul(m, p), Mul(m, p));
      MulAdds(m, m, p);
      if Bit(n, i) == 1 {
        Laws(twice, p, p);
        Congruence(twice, p, Mul(2 * m, p), p);
      }
    }
  }

  /** Scalars of 256 bits. */
  lemma TimesIsMul(p: Point, n: nat)
    requires GroupLaws() && Valid(p) && n < BASE4
    ensures Valid(Times(p, n)) && Same(Times(p, n), Mul(n, p))
  {
    hide PAdd, Valid, GroupLaws, Affine, Bit, Shifted, Ladder, Mul, Pow2;
    Pow2Of256();
    ShiftOut(n, 256);
    LadderIsMul(p, n, 0);
    ShiftNone(n);
  }

  lemma Pow2Of256()
    ensures Pow2(256) == BASE4
  {
    hide Pow2;
    Pow2Of64();
    Pow2Adds(64, 64);
    Pow2Adds(128, 128);
  }

  // ---------------------------------------------------------------------------
  // sign and verify
  // ---------------------------------------------------------------------------

  type Hash = seq<Byte> -> Bytes64

  /** The 32 little-endian bytes of a scalar. */
  function ScalarBytes(n: nat): (b: Bytes32)
    requires n < BASE4
    ensures Le(b) == n
  {
    ThirtyTwoBytes(n);
    ToDigits(n, 0x100, 32)
  }

  lemma ThirtyTwoBytes(n: nat)
    ensures forall i | 0 <= i < 32 :: ToDigits(n, 0x100, 32)[i] < 0x100
    ensures n < BASE4 ==> Value(ToDigits(n, 0x100, 32), 0x100) == n
  {
    hide Power, ToDigits, Value, Place;
    ToDigitsBelow(n, 0x100, 32);
    BytePlace(4);
    Place4();
    if n < BASE4 {
      ToDigitsValue(n, 0x100, 32);
    }
  }

  /** `a[0] &= 248`, `a[31] &= 127`, `a[31] |= 64`. */
  function Clamp(a: Bytes32): Bytes32 {
    a[0 := a[0] - a[0] % 8][31 := a[31] % 64 + 64]
  }

  /** A clamped scalar is a multiple of 8 between 2^254 and 2^255. */
  lemma ClampedScalar(a: Bytes32)
    ensures Le(Clamp(a)) % 8 == 0 && TOP_BIT / 2 <= Le(Clamp(a)) < TOP_BIT
  {
    hide Power, Value;
    var c := Clamp(a);
    MultipleOf8(c);
    TopPlace();
    ValueAt(c, 31, 0x100);
    assert c[..32] == c;
    ValueBound(c[..31], 0x100);
    ClampedTop(Value(c[..31], 0x100), c[31], Power(0x100, 31));
  }

  lemma MultipleOf8(c: Bytes32)
    ensures Le(c) % 8 == c[0] % 8
  {
    AddMultiple(c[0], 8, 32 * Value(c[1..], 0x100));
  }

  lemma ClampedTop(low: nat, top: Byte, place: nat)
    requires low < place && place * 0x80 == TOP_BIT && 64 <= top < 128
    ensures TOP_BIT / 2 <= low + top * place < TOP_BIT
  {
    MulMonotone(64, top, place);
    MulMonotone(top, 127, place);
  }

  function SecretScalar(sha: Hash, seed: Bytes32): Bytes32 {
    Clamp(sha(seed)[..32])
  }

  function PublicKeyOf(sha: Hash, seed: Bytes32): Bytes32
    requires Decode(BaseBytes()).Some?
  {
    Encode(Times(Base(), Le(SecretScalar(sha, seed))))
  }

  /** r = SHA512(prefix || msg) mod L */
  function NonceOf(sha: Hash, seed: Bytes32, msg: seq<Byte>): nat {
    Le(sha(sha(seed)[32..] + msg)) % L
  }

  /** k = SHA512(R || A || msg) mod L */
  function ChallengeOf(sha: Hash, r: Bytes32, public: Bytes32, msg: seq<Byte>): nat {
    Le(sha(r + public + msg)) % L
  }

  /** The two halves of a signature: the encoding of R, and S. */
  function SignatureOf(sha: Hash, seed: Bytes32, msg: seq<Byte>): (Bytes32, Bytes32)
    requires Decode(BaseBytes()).Some?
  {
    var r := NonceOf(sha, seed, msg);
    var rBytes := Encode(Times(Base(), r));
    var k := ChallengeOf(sha, rBytes, PublicKeyOf(sha, seed), msg);
    (rBytes, ScalarBytes(ResponseOf(k, Le(SecretScalar(sha, seed)), r)))
  }

  /** S = (r + k * a) mod L */
  function ResponseOf(k: nat, a: nat, r: nat): (s: nat)
    ensures s < L
  {
    DivMod(k * a + r, L);
    (k * a + r) % L
  }

  predicate Accepts(sha: Hash, public: Bytes32, msg: seq<Byte>, r: Bytes32, s: Bytes32)
    requires Decode(BaseBytes()).Some?
  {
    && Le(s) < L
    && Decode(public).Some?
    && Decode(r).Some?
    && Encode(Times(Base(), Le(s)))
       == Encode(PAdd(Decode(r).value, Times(Decode(public).value, ChallengeOf(sha, r, public, msg))))
  }

  method PublicKey(sha: Hash, seed: Bytes32) returns (public: Bytes32)
    requires Decode(BaseBytes()).Some?
    ensures public == PublicKeyOf(sha, seed)
  {
    hide Decode, Encode, Ladder, Le;
    var h := sha(seed);
    var a := Clamp(h[..32]);
    var point := ScalarMul(Base(), a);
    public := Encode(point);
  }

  method Sign(sha: Hash, seed: Bytes32, msg: seq<Byte>) returns (sig: Bytes64)
    requires Decode(BaseBytes()).Some?
    ensures (sig[..32], sig[32..]) == SignatureOf(sha, seed, msg)
  {
    hide Decode, Encode, Ladder, Le, Clamp, BaseBytes;
    var h := sha(seed);
    var a := Clamp(h[..32]);
    var prefix := h[32..];
    var publicPoint := ScalarMul(Base(), a);
    var public := Encode(publicPoint);
    var r := ReduceScalarWide(sha(prefix + msg));
    var rPoint := ScalarMul(Base(), r);
    var rBytes := Encode(rPoint);
    var input: seq<Byte> := rBytes;
    input := input + public;
    input := input + msg;
    var k := ReduceScalarWide(sha(input));
    var s := ScalarMulAdd(k, a, r);
    SameBytes(s, ScalarBytes(ResponseOf(Le(k), Le(a), Le(r))));
    var r32: seq<Byte> := rBytes;
    sig := r32 + s;
  }

  method Verify(sha: Hash, public: Bytes32, msg: seq<Byte>, sig: Bytes64) returns (ok: bool)
    requires Decode(BaseBytes()).Some?
    ensures ok <==> Accepts(sha, public, msg, sig[..32], sig[32..])
  {
    hide Decode, Encode, Ladder, Le, PAdd, BaseBytes;
    var rBytes: Bytes32 := sig[..32];
    var s: Bytes32 := sig[32..];
    var canonical := ScalarIsCanonical(s);
    if !canonical {
      return false;
    }
    if Decode(public).None? {
      return false;
    }
    if Decode(rBytes).None? {
      return false;
    }
    var input: seq<Byte> := rBytes;
    input := input + public;
    input := input + msg;
    var k := ReduceScalarWide(sha(input));
    var lhs := ScalarMul(Base(), s);
    var kA := ScalarMul(Decode(public).value, k);
    var rhs := PAdd(Decode(rBytes).value, kA);
    ok := Encode(lhs) == Encode(rhs);
  }

  // ---------------------------------------------------------------------------
  // Verification accepts what signing makes
  // ---------------------------------------------------------------------------

  lemma BaseIsValid()
    requires FieldFacts() && Decode(BaseBytes()).Some?
    ensures Valid(Base())
  {
    hide Decode, Valid, BaseY, FromBytes, PrimeField, RootOfMinusOne, DIsNotSquare;
    DecodedIsOnCurve(BaseBytes());
    EncodeYIs(BaseY(), false);
    TopBitOf(BaseBytes());
  }

  /** Decoding an encoded point gives the same point. */
  lemma DecodeEncodeIsSame(p: Point)
    requires FieldFacts() && Valid(p)
    ensures Decode(Encode(p)).Some? && Valid(Decode(Encode(p)).value) && Same(Decode(Encode(p)).value, p)
  {
    hide Decode, Valid, FromBytes, EncodeY, PrimeField, RootOfMinusOne, DIsNotSquare, FInv, FMul;
    var (x, y) := Affine(p);
    DecodeEncode(p);
    DecodedIsOnCurve(Encode(p));
    EncodeYIs(y, IsNegative(x));
    TopBitOf(Encode(p));
    AffineOfUnit(x, y, FMul(x, y));
  }

  /** On the curve, equal encodings mean equal points. */
  lemma EncodeIsInjective(p: Point, q: Point)
    requires FieldFacts() && Valid(p) && Valid(q)
    ensures Encode(p) == Encode(q) <==> Same(p, q)
  {
    hide Decode, Valid, EncodeY, FInv, FMul, FieldFacts;
    DecodeEncodeIsSame(p);
    DecodeEncodeIsSame(q);
  }

  /** Every multiple of L sends the base point to the identity. */
  lemma {:induction false} MultipleVanishes(k: nat, m: nat)
    requires FieldFacts() && GroupLaws() && Decode(BaseBytes()).Some? && OrderDividesL() && m == L * k
    ensures Same(Mul(m, Base()), IDENTITY)
    decreases k
  {
    hide Decode, Valid, BaseBytes, FieldFacts, GroupLaws, Affine, PAdd;
    BaseIsValid();
    IdentityIsValid();
    if k > 0 {
      MulDistributes(L, k - 1, 1);
      MulSign(L, k - 1);
      MultipleVanishes(k - 1, m - L);
      MulIsValid(L, Base());
      MulIsValid(m - L, Base());
      MulAdds(m - L, L, Base());
      Congruence(Mul(m - L, Base()), Mul(L, Base()), IDENTITY, IDENTITY);
      Identity(IDENTITY);
    }
  }

  /** Multiples of the base point depend on the scalar mod L only. */
  lemma ReducedMultiple(n: nat)
    requires FieldFacts() && GroupLaws() && Decode(BaseBytes()).Some? && OrderDividesL()
    ensures Same(Mul(n, Base()), Mul(Rem(n, L), Base()))
  {
    hide Decode, Valid, BaseBytes, FieldFacts, GroupLaws, OrderDividesL, Affine, PAdd, Mul;
    BaseIsValid();
    IdentityIsValid();
    var r := Rem(n, L);
    var m, k := WholePart(n);
    MultipleVanishes(k, m);
    MulIsValid(m, Base());
    MulIsValid(r, Base());
    MulAdds(r, m, Base());
    Congruence(Mul(r, Base()), Mul(m, Base()), Mul(r, Base()), IDENTITY);
    Identity(Mul(r, Base()));
  }

  lemma WholePart(n: nat) returns (m: nat, k: nat)
    ensures n == Rem(n, L) + m && m == L * k
  {
    DivMod(n, L);
    MulSign(L, n / L);
    m, k := L * (n / L), n / L;
  }

  /** Every signature made with a seed is accepted under that seed's public key. */
  lemma VerifyAcceptsSigned(sha: Hash, seed: Bytes32, msg: seq<Byte>)
    requires FieldFacts() && GroupLaws() && Decode(BaseBytes()).Some? && OrderDividesL()
    ensures var (r, s) := SignatureOf(sha, seed, msg);
      Accepts(sha, PublicKeyOf(sha, seed), msg, r, s)
  {
    hide Decode, Encode, Valid, BaseBytes, FieldFacts, GroupLaws, OrderDividesL, Affine, PAdd, Mul, Ladder, Clamp, Le,
         ResponseOf, NonceOf, ChallengeOf;
    var a, r := Le(SecretScalar(sha, seed)), NonceOf(sha, seed, msg);
    var (rBytes, sBytes) := SignatureOf(sha, seed, msg);
    var k := ChallengeOf(sha, rBytes, PublicKeyOf(sha, seed), msg);
    SmallScalars(sha, seed, msg, rBytes);
    SignedEquation(a, r, k);
    var s := ResponseOf(k, a, r);
    assert Le(sBytes) == s;
  }

  lemma SmallScalars(sha: Hash, seed: Bytes32, msg: seq<Byte>, rBytes: Bytes32)
    requires Decode(BaseBytes()).Some?
    ensures Le(SecretScalar(sha, seed)) < BASE4 && NonceOf(sha, seed, msg) < L
    ensures ChallengeOf(sha, rBytes, PublicKeyOf(sha, seed), msg) < L
  {
    hide Decode, Encode, BaseBytes, Ladder, Le, Clamp;
    ClampedScalar(sha(seed)[..32]);
  }

  /** [S]B = R + [k]A for S = k * a + r mod L, A = [a]B and R = [r]B, each sent encoded. */
  lemma SignedEquation(a: nat, r: nat, k: nat)
    requires FieldFacts() && GroupLaws() && Decode(BaseBytes()).Some? && OrderDividesL()
    requires a < BASE4 && r < L && k < L
    ensures var publicPoint, rPoint := Decode(Encode(Times(Base(), a))), Decode(Encode(Times(Base(), r)));
      && publicPoint.Some? && rPoint.Some?
      && Encode(Times(Base(), ResponseOf(k, a, r))) == Encode(PAdd(rPoint.value, Times(publicPoint.value, k)))
  {
    hide Decode, Encode, Valid, BaseBytes, FieldFacts, GroupLaws, OrderDividesL, Affine, PAdd, Mul, Ladder;
    var b, ka := Base(), k * a;
    BaseIsValid();
    TimesIsMul(b, a);
    TimesIsMul(b, r);
    DecodeEncodeIsSame(Times(b, a));
    DecodeEncodeIsSame(Times(b, r));
    var A, R := Decode(Encode(Times(b, a))).value, Decode(Encode(Times(b, r))).value;
    TimesIsMul(A, k);
    MulMonotone(0, k, a);
    MulMul(k, a, ka, b, A);
    MulIsValid(ka, b);
    MulIsValid(r, b);
    MulIsValid(ka + r, b);
    MulAdds(r, ka, b);
    Congruence(R, Times(A, k), Mul(r, b), Mul(ka, b));
    Laws(R, Times(A, k), b);
    ReducedMultiple(ka + r);
    var s := ResponseOf(k, a, r);
    TimesIsMul(b, s);
    EncodeIsInjective(Times(b, s), PAdd(R, Times(A, k)));
  }

  // ---------------------------------------------------------------------------
  // For each R at most one S is accepted
  // ---------------------------------------------------------------------------

  lemma AcceptedScalarIsUnique(sha: Hash, public: Bytes32, msg: seq<Byte>, r: Bytes32, s1: Bytes32, s2: Bytes32)
    requires FieldFacts() && GroupLaws() && Decode(BaseBytes()).Some? && BaseOrder()
    requires Accepts(sha, public, msg, r, s1) && Accepts(sha, public, msg, r, s2)
    ensures s1 == s2
  {
    hide Decode, Encode, Valid, BaseBytes, FieldFacts, GroupLaws, BaseOrder, Affine, PAdd, Mul, Ladder, Le;
    BaseIsValid();
    TimesIsMul(Base(), Le(s1));
    TimesIsMul(Base(), Le(s2));
    EncodeIsInjective(Times(Base(), Le(s1)), Times(Base(), Le(s2)));
    EqualMultiples(Le(s1), Le(s2));
    SameBytes(s1, s2);
  }

  /** Reduced scalars with the same multiple of the base point are equal. */
  lemma EqualMultiples(m: nat, n: nat)
    requires FieldFacts() && GroupLaws() && Decode(BaseBytes()).Some? && BaseOrder()
    requires m < L && n < L && Same(Mul(m, Base()), Mul(n, Base()))
    ensures m == n
  {
    hide Decode, Valid, BaseBytes, FieldFacts, GroupLaws, Affine, PAdd, Mul;
    var b := Base();
    BaseIsValid();
    MulIsValid(m, b);
    MulIsValid(n, b);
    MulIsValid(L - n, b);
    MulAdds(m, L - n, b);
    MulAdds(n, L - n, b);
    Congruence(Mul(m, b), Mul(L - n, b), Mul(n, b), Mul(L - n, b));
    OrderOf(n + (L - n));
    OrderOf(m + (L - n));
    SmallMultiple(m + (L - n));
  }

  lemma SmallMultiple(n: nat)
    requires 0 < n < 2 * L && n % L == 0
    ensures n == L
  {
  }
}
