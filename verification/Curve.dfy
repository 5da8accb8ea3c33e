/**
 Edwards25519 (section 5.1 of RFC 8032) over field values: points in extended coordinates, their
 encoding, and decoding by a modular square root. Field values are what the limb-level methods of
 Field compute; `AddNum` and `SubNum` are their exact results on any operand.
 */
module Curve {
  import opened Orders
  import opened Arith
  import opened Digits
  import opened Limbs
  import opened Field
  import opened Scalars

  type Word = x: nat | x < BASE4

  const TOP_BIT: nat := 0x8000000000000000_0000000000000000_0000000000000000_0000000000000000

  datatype Point = Point(x: Word, y: Word, z: Word, t: Word)

  const IDENTITY := Point(0, 1, 1, 0)

  function AddW(x: Word, y: Word): Word {
    AddNum(x, y)
  }

  function SubW(x: Word, y: Word): Word {
    SubNum(x, y)
  }

  function NegW(x: Word): Word {
    SubW(0, x)
  }

  /** d = -121665 / 121666. */
  function D(): Elem {
    FMul(NegW(121665), FInv(121666))
  }

  /** The square root of -1 the source uses: 2^((p-1)/4). */
  function SqrtM1(): Elem {
    FPow(2, (P - 1) / 4)
  }

  /** Twisted Edwards addition in extended coordinates. */
  function PAdd(p: Point, o: Point): Point {
    var a := FMul(SubW(p.x, p.y), SubW(o.x, o.y));
    var b := FMul(AddW(p.x, p.y), AddW(o.x, o.y));
    var c := FMul(FMul(FMul(p.t, o.t), D()), 2);
    var d := FMul(FMul(p.z, o.z), 2);
    var e, f, g, h := SubW(b, a), SubW(d, c), AddW(d, c), AddW(b, a);
    Point(FMul(e, f), FMul(g, h), FMul(f, g), FMul(e, h))
  }

  function Affine(p: Point): (Elem, Elem) {
    (FMul(p.x, FInv(p.z)), FMul(p.y, FInv(p.z)))
  }

  predicate IsNegative(x: Word) {
    CanonicalNum(x) % 2 == 1
  }

  /** `out[31] |= 0x80` on the 32 bytes of `y`. */
  function EncodeY(y: Elem, xNegative: bool): Bytes32 {
    YBytes(y);
    var out: Bytes32 := ToDigits(y, 0x100, 32);
    if xNegative && out[31] < 0x80 then out[31 := out[31] + 0x80] else out
  }

  lemma YBytes(y: Elem)
    ensures forall i | 0 <= i < 32 :: ToDigits(y, 0x100, 32)[i] < 0x100
  {
    ToDigitsBelow(y, 0x100, 32);
  }

  function Encode(p: Point): Bytes32 {
    EncodeY(Affine(p).1, IsNegative(Affine(p).0))
  }

  /** from_bytes: the low 255 bits, not reduced. */
  function FromBytes(b: Bytes32): Word {
    Le(b) % TOP_BIT
  }

  const SQRT_EXP: nat := (P - 5) / 8

  /** The candidate root of u / v. */
  function RootCandidate(u: Word, v: Word): Elem {
    var v3 := FMul(FSq(v), v);
    var v7 := FMul(FSq(v3), v);
    FMul(FMul(FPow(FMul(u, v7), SQRT_EXP), u), v3)
  }

  function SqrtRatio(u: Word, v: Word): Option<Elem> {
    var x := RootCandidate(u, v);
    var vx2 := FMul(v, FSq(x));
    if CanonicalNum(SubW(vx2, u)) == 0 then Some(x)
    else if CanonicalNum(AddW(vx2, u)) == 0 then Some(FMul(x, SqrtM1()))
    else None
  }

  function Decode(b: Bytes32): Option<Point> {
    var sign := b[31] >= 0x80;
    var y := FromBytes(b);
    var y2 := FSq(y);
    match SqrtRatio(SubW(y2, 1), AddW(FMul(D(), y2), 1))
    case None => None
    case Some(root) =>
      var x: Word := if IsNegative(root) != sign then NegW(root) else root;
      if x == 0 && sign then None else Some(Point(x, y, 1, FMul(x, y)))
  }

  function BaseY(): Elem {
    FMul(4, FInv(5))
  }

  // ---------------------------------------------------------------------------
  // Hypotheses about the field
  // ---------------------------------------------------------------------------

  predicate NoZeroDivisors(a: Elem, b: Elem) {
    FMul(a, b) == 0 ==> a == 0 || b == 0
  }

  predicate Fermat(a: Elem) {
    a != 0 ==> FPow(a, P - 1) == 1
  }

  /** What the primality of p gives: no zero divisors, and Fermat's theorem. */
  ghost predicate PrimeField() {
    (forall a: Elem, b: Elem :: NoZeroDivisors(a, b)) && (forall a: Elem :: Fermat(a))
  }

  ghost predicate RootOfMinusOne() {
    FSq(SqrtM1()) == P - 1
  }

  predicate NotRootOfD(z: Elem) {
    FSq(z) != D()
  }

  ghost predicate DIsNotSquare() {
    forall z: Elem :: NotRootOfD(z)
  }

  lemma ProductIsZero(a: Elem, b: Elem)
    requires PrimeField() && FMul(a, b) == 0
    ensures a == 0 || b == 0
  {
    hide FMul, Fermat;
    assert NoZeroDivisors(a, b);
  }

  lemma LastPowerIsOne(a: Elem)
    requires PrimeField() && a != 0
    ensures FPow(a, P - 1) == 1
  {
    hide FPow, NoZeroDivisors;
    assert Fermat(a);
  }

  // ---------------------------------------------------------------------------
  // Field algebra
  // ---------------------------------------------------------------------------

  lemma ModAdd(a: int, b: int)
    ensures FAdd(a % P, b % P) == (a + b) % P
    ensures FSub(a % P, b % P) == (a - b) % P
  {
    DivMod(a, P);
    DivMod(b, P);
    var q, r := a / P, b / P;
    MulDistributes(P, q, r);
    MulDistributes(P, q - r, r);
    AddMultiple(a % P + b % P, P, q + r);
    AddMultiple(a % P - b % P, P, q - r);
  }

  function Mod(n: int): Elem {
    n % P
  }

  lemma MulModIs(x: int, y: int)
    ensures FMul(x, y) == Mod(x * y) == FMul(x, Mod(y))
  {
    ModMul(y, x);
  }

  lemma AddModIs(x: int, y: int)
    ensures FAdd(x, y) == Mod(x + y) == FAdd(Mod(x), Mod(y))
  {
    ModAdd(x, y);
  }

  lemma SubModIs(x: int, y: int)
    ensures FSub(x, y) == Mod(x - y) == FSub(Mod(x), Mod(y))
  {
    ModAdd(x, y);
  }

  lemma FMulAddsRight(x: Elem, y: Elem, z: Elem)
    ensures FMul(x, FAdd(y, z)) == FAdd(FMul(x, y), FMul(x, z))
  {
    hide FMul, FAdd, Mod;
    MulModIs(x, y);
    MulModIs(x, z);
    AddModIs(y, z);
    MulModIs(x, y + z);
    AddModIs(x * y, x * z);
    MulDistributes(x, y, z);
  }

  lemma FMulSubsRight(x: Elem, y: Elem, z: Elem)
    ensures FMul(x, FSub(y, z)) == FSub(FMul(x, y), FMul(x, z))
  {
    hide FMul, FSub, Mod;
    MulModIs(x, y);
    MulModIs(x, z);
    SubModIs(y, z);
    MulModIs(x, y - z);
    SubModIs(x * y, x * z);
    MulSubs(x, y, z);
  }

  lemma MulSubs(x: int, y: int, z: int)
    ensures x * (y - z) == x * y - x * z
  {
    MulDistributes(x, y - z, z);
  }

  lemma {:induction false} FPowOne(e: nat)
    ensures FPow(1, e) == 1
  {
    if e > 0 {
      FPowOne(e - 1);
    }
  }

  lemma {:induction false} FPowSquare(h: int, k: nat)
    ensures FPow(FSq(h), k) == FPow(h, 2 * k)
  {
    hide FMul;
    if k > 0 {
      FPowSquare(h, k - 1);
      FPowAdds(h, 2 * (k - 1), 2);
      FPowTwo(h);
    }
  }

  lemma FPowTwo(h: int)
    ensures FPow(h, 2) == FSq(h)
  {
    assert FPow(h, 1) == FMul(1, h) == h % P;
    ModMul(h, h);
  }

  lemma Inverse(x: Elem)
    requires PrimeField() && x != 0
    ensures FMul(x, FInv(x)) == 1
  {
    hide FMul, FPow;
    FMulComm(x, FInv(x));
    FPowLast(x, P - 1);
    LastPowerIsOne(x);
  }

  lemma FPowLast(x: int, e: nat)
    requires e > 0
    ensures FPow(x, e) == FMul(FPow(x, e - 1), x)
  {
  }

  lemma Wraps(a: Elem, b: Elem)
    ensures FAdd(a, b) == if a + b < P then a + b else a + b - P
    ensures FSub(a, b) == if b <= a then a - b else a - b + P
  {
  }

  /** A square of 1 is 1 or -1. */
  lemma RootsOfOne(s: Elem)
    requires PrimeField() && FSq(s) == 1
    ensures s == 1 || s == P - 1
  {
    hide FPow, FMul, FAdd, FSub;
    FMulOne(1);
    ProductOfSumAndDifference(s, 1);
    Wraps(1, 1);
    ProductIsZero(FSub(s, 1), FAdd(s, 1));
    Wraps(s, 1);
  }

  lemma ProductOfSumAndDifference(a: Elem, b: Elem)
    ensures FMul(FSub(a, b), FAdd(a, b)) == FSub(FSq(a), FSq(b))
  {
    DifferenceOfSquares(a, b);
    Reduces(a - b, a + b);
    ModAdd(a * a, b * b);
  }

  lemma DifferenceOfSquares(a: int, b: int)
    ensures (a - b) * (a + b) == a * a - b * b
  {
    MulDistributes(a - b, a, b);
    MulDistributes(a, a - b, b);
    MulDistributes(b, a - b, b);
  }

  lemma Reduces(a: int, b: int)
    ensures FMul(a % P, b % P) == (a * b) % P
  {
    ModMul(a, b % P);
    ModMul(b, a);
  }

  // ---------------------------------------------------------------------------
  // Square roots of ratios
  // ---------------------------------------------------------------------------

  /** v * candidate^2 = u * w^(2e+1), where w = u * v^7 and e is the exponent used. */
  lemma CandidateSquared(u: Elem, v: Elem)
    ensures var w := FMul(u, FMul(FSq(FMul(FSq(v), v)), v));
      FMul(v, FSq(RootCandidate(u, v))) == FMul(u, FPow(w, 2 * SQRT_EXP + 1))
  {
    hide FPow;
    var v3 := FMul(FSq(v), v);
    var w := FMul(u, FMul(FSq(v3), v));
    var k := FPow(w, SQRT_EXP);
    CandidateTerms(k, u, v3, v, FMul(FMul(k, u), v3), FSq(v3));
    FPowLast(w, 2 * SQRT_EXP + 1);
    FPowAdds(w, SQRT_EXP, SQRT_EXP);
  }

  lemma CandidateTerms(k: Elem, u: Elem, v3: Elem, v: Elem, c: Elem, s: Elem)
    requires c == FMul(FMul(k, u), v3) && s == FSq(v3)
    ensures FMul(v, FSq(c)) == FMul(u, FMul(FSq(k), FMul(u, FMul(s, v))))
  {
    hide FMul;
    FMulAssoc(k, u, v3);
    Interchange(k, FMul(u, v3), k, FMul(u, v3));
    Interchange(u, v3, u, v3);
    FMulAssoc(u, u, s);
    Exchange(v, FSq(k), FMul(u, FMul(u, s)));
    Exchange(v, u, FMul(u, s));
    Exchange(v, u, s);
    FMulComm(v, s);
    Exchange(u, FSq(k), FMul(u, FMul(s, v)));
  }

  lemma Exchange(a: Elem, b: Elem, c: Elem)
    ensures FMul(a, FMul(b, c)) == FMul(b, FMul(a, c))
  {
    hide FMul;
    FMulAssoc(a, b, c);
    FMulAssoc(b, a, c);
    FMulComm(a, b);
  }

  lemma Interchange(a: Elem, b: Elem, c: Elem, d: Elem)
    ensures FMul(FMul(a, b), FMul(c, d)) == FMul(FMul(a, c), FMul(b, d))
  {
    hide FMul;
    FMulAssoc(FMul(a, b), c, d);
    FMulAssoc(a, b, c);
    FMulComm(b, c);
    FMulAssoc(a, c, b);
    FMulAssoc(FMul(a, c), b, d);
  }

  /** If u = v * x0^2, then w is the square of x0 * v * v^3. */
  lemma RatioIsSquare(x0: Elem, v: Elem, v3: Elem)
    ensures FMul(FMul(v, FSq(x0)), FMul(FSq(v3), v)) == FSq(FMul(x0, FMul(v, v3)))
  {
    hide FMul;
    FMulComm(v, FSq(x0));
    FMulComm(FSq(v3), v);
    Interchange(FSq(x0), v, v, FSq(v3));
    Interchange(x0, FMul(v, v3), x0, FMul(v, v3));
    Interchange(v, v3, v, v3);
    FMulAssoc(FSq(x0), v, FMul(v, FSq(v3)));
    FMulAssoc(v, v, FSq(v3));
  }

  /** The odd power of a nonzero square that the candidate leaves is 1 or -1. */
  lemma SquareToOddHalf(h: Elem)
    requires PrimeField() && h != 0
    ensures FPow(FSq(h), 2 * SQRT_EXP + 1) == 1 || FPow(FSq(h), 2 * SQRT_EXP + 1) == P - 1
  {
    hide FPow, FMul;
    var k := 2 * SQRT_EXP + 1;
    FPowSquare(h, k);
    FPowAdds(h, 2 * k, 2 * k);
    assert 4 * k == P - 1;
    LastPowerIsOne(h);
    RootsOfOne(FPow(h, 2 * k));
  }

  lemma ZeroProduct(a: int)
    ensures FMul(a, 0) == 0 && FMul(0, a) == 0
  {
  }

  lemma NegProduct(u: int)
    ensures FMul(u, P - 1) == FNeg(u)
  {
    AddMultiple(-u, P, u);
    MulSubs(u, P, 1);
  }

  /** When u / v has a root, the candidate squared times v is u or -u. */
  lemma CandidateOfSquare(u: Elem, v: Elem, x0: Elem)
    requires PrimeField() && v != 0 && FMul(v, FSq(x0)) == u
    ensures FMul(v, FSq(RootCandidate(u, v))) == u || FMul(v, FSq(RootCandidate(u, v))) == FNeg(u)
  {
    hide FPow, FMul;
    var v3 := FMul(FSq(v), v);
    var h := FMul(x0, FMul(v, v3));
    CandidateSquared(u, v);
    RatioIsSquare(x0, v, v3);
    if h == 0 {
      ProductIsZero(x0, FMul(v, v3));
      if x0 != 0 {
        ProductIsZero(v, v3);
        ProductIsZero(FSq(v), v);
        ProductIsZero(v, v);
      }
      ZeroProduct(0);
      ZeroProduct(v);
      ZeroProduct(FPow(FSq(h), 2 * SQRT_EXP + 1));
    } else {
      SquareToOddHalf(h);
      FMulOne(u);
      NegProduct(u);
    }
  }

  lemma SqrtChecks(a: Elem, u: Elem)
    ensures CanonicalNum(SubW(a, u)) == 0 <==> a == u
    ensures CanonicalNum(AddW(a, u)) == 0 <==> a == FNeg(u)
  {
  }

  lemma NegTwice(u: Elem)
    ensures FNeg(FNeg(u)) == u
  {
  }

  predicate IsRoot(x: Elem, u: Elem, v: Elem) {
    FMul(v, FSq(x)) == u
  }

  lemma TurnedRoot(c: Elem, u: Elem, v: Elem)
    requires RootOfMinusOne() && FMul(v, FSq(c)) == FNeg(u)
    ensures IsRoot(FMul(c, SqrtM1()), u, v)
  {
    hide FPow, FMul, SqrtM1, FNeg;
    Interchange(c, SqrtM1(), c, SqrtM1());
    FMulAssoc(v, FSq(c), P - 1);
    NegProduct(FMul(v, FSq(c)));
    NegTwice(u);
  }

  /** sqrt_ratio finds a root of u / v exactly when there is one. */
  lemma SqrtRatioIsRoot(u: Elem, v: Elem)
    requires PrimeField() && RootOfMinusOne() && v != 0
    ensures SqrtRatio(u, v).Some? <==> exists x: Elem :: IsRoot(x, u, v)
    ensures SqrtRatio(u, v).Some? ==> IsRoot(SqrtRatio(u, v).value, u, v)
  {
    hide FPow, FMul, RootCandidate, SqrtM1, CanonicalNum, SubW, AddW, FNeg;
    var c := RootCandidate(u, v);
    var a := FMul(v, FSq(c));
    SqrtChecks(a, u);
    if x0: Elem :| IsRoot(x0, u, v) {
      CandidateOfSquare(u, v, x0);
    }
    if a == u {
      assert IsRoot(c, u, v);
    } else if a == FNeg(u) {
      TurnedRoot(c, u, v);
    }
  }

  // ---------------------------------------------------------------------------
  // Points, and decoding what was encoded
  // ---------------------------------------------------------------------------

  /** -x^2 + y^2 = 1 + d x^2 y^2. */
  predicate OnCurve(x: Elem, y: Elem) {
    FSub(FSq(y), FSq(x)) == FAdd(1, FMul(D(), FMul(FSq(x), FSq(y))))
  }

  predicate Valid(p: Point) {
    && p.x < P && p.y < P && p.z < P && p.t < P && p.z != 0
    && FMul(p.t, p.z) == FMul(p.x, p.y)
    && OnCurve(Affine(p).0, Affine(p).1)
  }

  /** The curve equation solved for x^2, as decoding uses it. */
  lemma SolvedForX(x: Elem, y: Elem, d: Elem)
    ensures FSub(FSq(y), FSq(x)) == FAdd(1, FMul(d, FMul(FSq(x), FSq(y))))
       <==> FMul(FAdd(FMul(d, FSq(y)), 1), FSq(x)) == FSub(FSq(y), 1)
  {
    hide FMul;
    var a, b := FSq(x), FSq(y);
    var m := FMul(d, FMul(a, b));
    FMulComm(a, b);
    FMulAssoc(d, b, a);
    FMulComm(FAdd(FMul(d, b), 1), a);
    FMulAddsRight(a, FMul(d, b), 1);
    FMulOne(a);
    FMulComm(a, FMul(d, b));
    MoveTerms(a, b, m);
  }

  lemma MoveTerms(a: Elem, b: Elem, m: Elem)
    ensures FSub(b, a) == FAdd(1, m) <==> FAdd(m, a) == FSub(b, 1)
  {
    hide FAdd, FSub;
    Wraps(b, a);
    Wraps(1, m);
    Wraps(m, a);
    Wraps(b, 1);
  }

  /** If the denominator is zero then sqrt(-1) / y is a root of d. */
  lemma ZeroDenominatorRoot(y: Elem, i: Elem)
    requires PrimeField() && RootOfMinusOne() && y != 0 && FAdd(FMul(D(), FSq(y)), 1) == 0 && i == FInv(y)
    ensures FSq(FMul(SqrtM1(), i)) == D()
  {
    hide FPow, FMul, D, FInv, SqrtM1;
    MinusOneOf(FMul(D(), FSq(y)));
    Inverse(y);
    Interchange(y, i, y, i);
    FMulOne(1);
    FMulOne(D());
    FMulAssoc(D(), FSq(y), FSq(i));
    Interchange(SqrtM1(), i, SqrtM1(), i);
  }

  lemma NoRootOfD(z: Elem)
    requires DIsNotSquare()
    ensures FSq(z) != D()
  {
    hide FMul, D;
    assert NotRootOfD(z);
  }

  /** Because d is no square, the denominator d y^2 + 1 is never zero. */
  lemma DenominatorNonZero(y: Elem)
    requires PrimeField() && RootOfMinusOne() && DIsNotSquare()
    ensures FAdd(FMul(D(), FSq(y)), 1) != 0
  {
    hide FPow, FMul, D, FInv, SqrtM1;
    if y == 0 {
      ZeroProduct(0);
      ZeroProduct(D());
    } else {
      NoRootOfD(FMul(SqrtM1(), FInv(y)));
      if FAdd(FMul(D(), FSq(y)), 1) == 0 {
        ZeroDenominatorRoot(y, FInv(y));
      }
    }
  }

  lemma MinusOneOf(x: Elem)
    ensures FAdd(x, 1) == 0 <==> x == P - 1
  {
  }

  lemma TopPlace()
    ensures Power(0x100, 31) * 0x80 == TOP_BIT
  {
    PowerAdds(0x100, 24, 7);
    BytePlace(3);
    assert Place(3) == BASE * BASE * BASE by {
      assert Place(1) == BASE;
    }
    SeventhPower();
  }

  lemma NextPower(radix: nat, k: nat)
    ensures Power(radix, k + 1) == radix * Power(radix, k)
  {
  }

  lemma SeventhPower()
    ensures Power(0x100, 7) == 0x100000000000000
  {
    assert Power(0x100, 1) == 0x100;
    assert Power(0x100, 3) == 0x1000000;
    assert Power(0x100, 5) == 0x10000000000;
  }

  /** The sign bit and the other 255 bits of an encoding. */
  lemma TopBitOf(b: Bytes32)
    ensures Le(b) < 2 * TOP_BIT
    ensures b[31] >= 0x80 <==> Le(b) >= TOP_BIT
    ensures FromBytes(b) == if b[31] >= 0x80 then Le(b) - TOP_BIT else Le(b)
  {
    hide Power, Value;
    TopPlace();
    ValueAt(b, 31, 0x100);
    assert b[..32] == b;
    ValueBound(b[..31], 0x100);
    TopByte(Value(b[..31], 0x100), b[31], Power(0x100, 31));
  }

  lemma TopByte(low: nat, top: Byte, place: nat)
    requires low < place && place * 0x80 == TOP_BIT
    ensures low + top * place < 2 * TOP_BIT
    ensures top >= 0x80 <==> low + top * place >= TOP_BIT
  {
  }

  lemma EncodeYIs(y: Elem, negative: bool)
    ensures Le(EncodeY(y, negative)) == y + if negative then TOP_BIT else 0
  {
    hide Power, Value, ToDigits;
    YBytes(y);
    var out: Bytes32 := ToDigits(y, 0x100, 32);
    TopPlace();
    NextPower(0x100, 31);
    assert Power(0x100, 32) == 2 * TOP_BIT;
    ToDigitsValue(y, 0x100, 32);
    TopBitOf(out);
    if negative {
      ValueUpdate(out, 31, out[31] + 0x80, 0x100);
    }
  }

  /** The root decoding takes for y: there is one exactly when y is on the curve. */
  function RootFor(y: Elem): Option<Elem> {
    SqrtRatio(FSub(FSq(y), 1), FAdd(FMul(D(), FSq(y)), 1))
  }

  lemma RootForIsOnCurve(y: Elem)
    requires PrimeField() && RootOfMinusOne() && DIsNotSquare()
    ensures RootFor(y).Some? <==> exists x: Elem :: OnCurve(x, y)
    ensures RootFor(y).Some? ==> OnCurve(RootFor(y).value, y)
  {
    hide FMul, FAdd, FSub, D, SqrtRatio;
    var u := FSub(FSq(y), 1);
    var v := FAdd(FMul(D(), FSq(y)), 1);
    DenominatorNonZero(y);
    SqrtRatioIsRoot(u, v);
    if x: Elem :| OnCurve(x, y) {
      SolvedForX(x, y, D());
      assert IsRoot(x, u, v);
    }
    if RootFor(y).Some? {
      SolvedForX(RootFor(y).value, y, D());
      assert OnCurve(RootFor(y).value, y);
    }
  }

  lemma SquareOfNeg(x: Elem, n: Elem)
    requires n == FNeg(x)
    ensures FSq(n) == FSq(x)
  {
    hide FMul;
    NegProduct(x);
    Interchange(x, P - 1, x, P - 1);
    NegProduct(P - 1);
    FMulOne(FSq(x));
  }

  lemma NegKeepsCurve(x: Elem, y: Elem)
    ensures OnCurve(FNeg(x), y) <==> OnCurve(x, y)
  {
    hide FMul, FAdd, FSub, D, FNeg;
    SquareOfNeg(x, FNeg(x));
  }

  /** Two points with the same y have the same x up to sign. */
  lemma SameUpToSign(x1: Elem, x2: Elem, y: Elem)
    requires PrimeField() && RootOfMinusOne() && DIsNotSquare()
    requires OnCurve(x1, y) && OnCurve(x2, y)
    ensures x1 == x2 || x1 == FNeg(x2)
  {
    hide FMul, FAdd, D, FSub;
    var v := FAdd(FMul(D(), FSq(y)), 1);
    DenominatorNonZero(y);
    SolvedForX(x1, y, D());
    SolvedForX(x2, y, D());
    FMulSubsRight(v, FSq(x1), FSq(x2));
    Wraps(FSq(x1), FSq(x2));
    Wraps(FMul(v, FSq(x1)), FMul(v, FSq(x2)));
    ProductIsZero(v, FSub(FSq(x1), FSq(x2)));
    ProductOfSumAndDifference(x1, x2);
    ProductIsZero(FSub(x1, x2), FAdd(x1, x2));
    Wraps(x1, x2);
    Wraps(0, x2);
  }

  lemma NegFlipsParity(x: Elem)
    ensures NegW(x) == FNeg(x)
    ensures x != 0 ==> IsNegative(FNeg(x)) != IsNegative(x)
    ensures x == 0 ==> FNeg(x) == 0 && !IsNegative(x)
  {
  }

  lemma AffineOfUnit(x: Elem, y: Word, t: Word)
    ensures Affine(Point(x, y, 1, t)) == (x, y % P)
  {
    hide FPow;
    FPowOne(P - 2);
  }

  /** The x chosen for a root and a sign bit. */
  function WithSign(root: Elem, sign: bool): Elem {
    if IsNegative(root) != sign then FNeg(root) else root
  }

  lemma DecodeIs(b: Bytes32)
    ensures var sign, y, root := b[31] >= 0x80, FromBytes(b), RootFor(FromBytes(b) % P);
      Decode(b) ==
      if root.None? || (WithSign(root.value, sign) == 0 && sign) then None
      else Some(Point(WithSign(root.value, sign), y, 1, FMul(WithSign(root.value, sign), y)))
  {
    hide FMul, FNeg, SqrtRatio, IsNegative, NegW;
    var y := FromBytes(b);
    ModMul(y, y % P);
    ModMul(y, y);
    UnitIsReduced(FSq(y));
    UnitIsReduced(FMul(D(), FSq(y)));
    if RootFor(y % P).Some? {
      NegFlipsParity(RootFor(y % P).value);
    }
  }

  lemma UnitIsReduced(a: Elem)
    ensures SubW(a, 1) == FSub(a, 1) && AddW(a, 1) == FAdd(a, 1)
  {
  }

  /** decode(encode(p)) is p, in affine form, for every point of the curve. */
  lemma DecodeEncode(p: Point)
    requires PrimeField() && RootOfMinusOne() && DIsNotSquare()
    requires Valid(p)
    ensures var (x, y) := Affine(p); Decode(Encode(p)) == Some(Point(x, y, 1, FMul(x, y)))
  {
    hide FMul, Affine, RootFor, Decode, OnCurve, IsNegative, FNeg, EncodeY, FromBytes;
    var (x, y) := Affine(p);
    var b := Encode(p);
    EncodeYIs(y, IsNegative(x));
    TopBitOf(b);
    DecodeIs(b);
    RootForIsOnCurve(y);
    var root := RootFor(y).value;
    SameUpToSign(root, x, y);
    NegFlipsParity(x);
    NegFlipsParity(root);
    NegTwice(x);
  }

  /** Whatever decodes is on the curve, and encodes back to itself exactly when its y is below p. */
  lemma DecodedIsOnCurve(b: Bytes32)
    requires PrimeField() && RootOfMinusOne() && DIsNotSquare()
    requires Decode(b).Some?
    ensures var p := Decode(b).value;
      && OnCurve(Affine(p).0, Affine(p).1)
      && (Encode(p) == b <==> FromBytes(b) < P)
      && (FromBytes(b) < P ==> Valid(p))
  {
    hide FMul, Affine, RootFor, Decode, OnCurve, IsNegative, FNeg, EncodeY, FromBytes;
    var p := Decode(b).value;
    var y := FromBytes(b);
    DecodeIs(b);
    RootForIsOnCurve(y % P);
    var root := RootFor(y % P).value;
    NegFlipsParity(root);
    NegTwice(root);
    NegKeepsCurve(root, y % P);
    FMulOne(FMul(p.x, y));
    AffineOfUnit(p.x, y, p.t);
    EncodeYIs(y % P, IsNegative(p.x));
    TopBitOf(b);
    TopBitOf(Encode(p));
    SameBytes(b, Encode(p));
  }

  lemma SameBytes(a: Bytes32, b: Bytes32)
    ensures a == b <==> Le(a) == Le(b)
  {
    hide Value, ToDigits;
    ValueToDigits(a, 0x100);
    ValueToDigits(b, 0x100);
  }

  // ---------------------------------------------------------------------------
  // Addition
  // ---------------------------------------------------------------------------

  predicate CanonicalPoint(p: Point) {
    p.x < P && p.y < P && p.z < P && p.t < P
  }

  lemma SumOfProducts(a: int, b: int, c: int, d: int)
    ensures (a + b) * (c + d) - (a - b) * (c - d) == 2 * (a * d + b * c)
    ensures (a + b) * (c + d) + (a - b) * (c - d) == 2 * (a * c + b * d)
  {
    MulDistributes(a + b, c, d);
    MulDistributes(c, a, b);
    MulDistributes(d, a, b);
    MulSubs(a - b, c, d);
    MulSubs(c, a, b);
    MulSubs(d, a, b);
  }

  /** The two products of addition, taken apart and together. */
  lemma CrossTerms(a: Elem, b: Elem, c: Elem, d: Elem, minus: Elem, plus: Elem)
    requires minus == FMul(FSub(a, b), FSub(c, d)) && plus == FMul(FAdd(a, b), FAdd(c, d))
    ensures FSub(plus, minus) == FMul(2, FAdd(FMul(a, d), FMul(b, c)))
    ensures FAdd(plus, minus) == FMul(2, FAdd(FMul(a, c), FMul(b, d)))
  {
    TermsOfSum(a, d, b, c);
    TermsOfSum(a, c, b, d);
    Reduces(a - b, c - d);
    Reduces(a + b, c + d);
    ModAdd((a + b) * (c + d), (a - b) * (c - d));
    SumOfProducts(a, b, c, d);
  }

  lemma TermsOfSum(a: int, b: int, c: int, d: int)
    ensures FMul(2, FAdd(FMul(a, b), FMul(c, d))) == (2 * (a * b + c * d)) % P
  {
    ModAdd(a * b, c * d);
    ModMul(a * b + c * d, 2);
  }

  lemma CanonicalWords(x: Elem, y: Elem)
    ensures AddW(x, y) == FAdd(x, y) && SubW(x, y) == FSub(x, y)
  {
    AddNumIsSum(x, y);
    SubNumIsDifference(x, y);
  }

  /** The intermediate values of addition, as field elements. */
  function Parts(p: Point, o: Point): (Elem, Elem, Elem, Elem)
    requires CanonicalPoint(p) && CanonicalPoint(o)
  {
    var zz, tt := FMul(p.z, o.z), FMul(FMul(p.t, o.t), D());
    (FMul(2, FAdd(FMul(p.x, o.y), FMul(p.y, o.x))), FMul(2, FSub(zz, tt)),
     FMul(2, FAdd(zz, tt)), FMul(2, FAdd(FMul(p.x, o.x), FMul(p.y, o.y))))
  }

  /**
   Addition is the twisted Edwards law in projective form: x3 : z3 is x1 y2 + y1 x2 to z1 z2 + d t1 t2,
   y3 : z3 is x1 x2 + y1 y2 to z1 z2 - d t1 t2, and t3 z3 is x3 y3.
   */
  lemma AdditionLaw(p: Point, o: Point)
    requires CanonicalPoint(p) && CanonicalPoint(o)
    ensures var s, zz, tt := PAdd(p, o), FMul(p.z, o.z), FMul(FMul(p.t, o.t), D());
      && FMul(s.x, FMul(2, FAdd(zz, tt))) == FMul(s.z, FMul(2, FAdd(FMul(p.x, o.y), FMul(p.y, o.x))))
      && FMul(s.y, FMul(2, FSub(zz, tt))) == FMul(s.z, FMul(2, FAdd(FMul(p.x, o.x), FMul(p.y, o.y))))
      && FMul(s.t, s.z) == FMul(s.x, s.y)
  {
    hide FMul, FAdd, FSub, D, AddW, SubW;
    var (e, f, g, h) := Parts(p, o);
    var zz, tt := FMul(p.z, o.z), FMul(FMul(p.t, o.t), D());
    var minus, plus := FMul(FSub(p.x, p.y), FSub(o.x, o.y)), FMul(FAdd(p.x, p.y), FAdd(o.x, o.y));
    CanonicalWords(p.x, p.y);
    CanonicalWords(o.x, o.y);
    CanonicalWords(plus, minus);
    CanonicalWords(FMul(zz, 2), FMul(tt, 2));
    CrossTerms(p.x, p.y, o.x, o.y, minus, plus);
    FMulAddsRight(2, zz, tt);
    FMulSubsRight(2, zz, tt);
    FMulComm(zz, 2);
    FMulComm(tt, 2);
    assert PAdd(p, o) == Point(FMul(e, f), FMul(g, h), FMul(f, g), FMul(e, h));
    FMulAssoc(e, f, g);
    FMulComm(e, FMul(f, g));
    FMulComm(FMul(g, h), f);
    FMulAssoc(f, g, h);
    FMulComm(f, g);
    Interchange(e, f, g, h);
    Interchange(e, h, f, g);
    FMulComm(h, g);
  }

  // ---------------------------------------------------------------------------
  // Unreduced y
  // ---------------------------------------------------------------------------

  /** Adding a decoded point, the `x - y` of addition is right exactly when y is at most p above x. */
  lemma DecodedSubIsExact(b: Bytes32)
    requires Decode(b).Some?
    ensures var p := Decode(b).value; SubW(p.x, p.y) % P == FSub(p.x, p.y) <==> p.y <= p.x + P
  {
    hide Decode, SubW;
    var p := Decode(b).value;
    SubIsSubNum(p.x, p.y);
    SubKeepsResidue(p.x, p.y);
  }

  lemma SubIsSubNum(x: Word, y: Word)
    ensures SubW(x, y) == SubNum(x, y)
  {
  }

  /** The ratio with numerator 0 has root 0, whatever the denominator. */
  lemma RootOfZero(v: Elem)
    ensures SqrtRatio(0, v) == Some(0)
  {
    hide FMul, FPow;
    var v3 := FMul(FSq(v), v);
    var k := FPow(FMul(0, FMul(FSq(v3), v)), SQRT_EXP);
    ZeroProduct(k);
    ZeroProduct(v3);
    ZeroProduct(0);
    ZeroProduct(v);
  }

  /** Key bytes with y = p + 1 decode, y unreduced, and reach a `sub` that leaves the residue class. */
  lemma UnreducedKeyReachesSub(b: Bytes32)
    requires Le(b) == P + 1
    ensures Decode(b) == Some(Point(0, P + 1, 1, 0))
    ensures SubW(0, P + 1) % P != FSub(0, P + 1)
  {
    hide FMul, FNeg, SqrtRatio, IsNegative, Le, Decode;
    TopBitOf(b);
    DecodeIs(b);
    OneAbove();
    FMulOne(1);
    RootOfZero(FAdd(FMul(D(), 1), 1));
    NegFlipsParity(0);
    ZeroProduct(P + 1);
    SubNeedsCanonical(0, P + 1);
  }

  lemma OneAbove()
    ensures (P + 1) % P == 1 && FSub(1, 1) == 0 && P + 1 < TOP_BIT
  {
  }
}
