/** Decimal numerals and plain string scans, as `format!`, `parse`, `find` and `split` use them. */
module Text {
  import opened Orders

  predicate IsDigit(c: char) {
    '0' <= c <= '9'
  }

  function DigitChar(d: nat): (c: char)
    requires d < 10
    ensures IsDigit(c) && DigitValue(c) == d
  {
    (d + 48) as char
  }

  function DigitValue(c: char): (d: nat)
    requires IsDigit(c)
    ensures d < 10
  {
    c as int - 48
  }

  predicate AllDigits(s: string) {
    forall c | c in s :: IsDigit(c)
  }

  /** The value of a numeral, leading zeros allowed. */
  function NumeralValue(s: string): nat
    requires AllDigits(s)
  {
    if s == "" then 0 else 10 * NumeralValue(s[..|s| - 1]) + DigitValue(s[|s| - 1])
  }

  /** `format!("{n}")` of an unsigned integer. */
  function Decimal(n: nat): (s: string)
    ensures s != "" && AllDigits(s)
  {
    if n < 10 then [DigitChar(n)] else Decimal(n / 10) + [DigitChar(n % 10)]
  }

  lemma {:induction false} DecimalReadsBack(n: nat)
    ensures NumeralValue(Decimal(n)) == n
  {
    if n < 10 {
      assert Decimal(n)[..0] == "";
    } else {
      DecimalReadsBack(n / 10);
      assert Decimal(n)[..|Decimal(n)| - 1] == Decimal(n / 10);
    }
  }

  lemma DecimalIsInjective(a: nat, b: nat)
    requires Decimal(a) == Decimal(b)
    ensures a == b
  {
    DecimalReadsBack(a);
    DecimalReadsBack(b);
  }

  // ---------------------------------------------------------------------------
  // Zero-padded numerals: `format!("{n:020}")`.
  // ---------------------------------------------------------------------------

  const PAD_WIDTH: nat := 20
  const PAD_LIMIT: nat := 100_000_000_000_000_000_000

  function Zeros(count: nat): (s: string)
    ensures |s| == count && AllDigits(s)
  {
    if count == 0 then "" else "0" + Zeros(count - 1)
  }

  function Padded(n: nat): (s: string)
    ensures AllDigits(s)
  {
    var digits := Decimal(n);
    if |digits| < PAD_WIDTH then Zeros(PAD_WIDTH - |digits|) + digits else digits
  }

  function Power10(w: nat): nat {
    if w == 0 then 1 else 10 * Power10(w - 1)
  }

  lemma {:induction false} DecimalLength(n: nat, w: nat)
    requires 0 < w && n < Power10(w)
    ensures |Decimal(n)| <= w
  {
    if n >= 10 {
      DecimalLength(n / 10, w - 1);
    }
  }

  lemma Power10Of20()
    ensures Power10(20) == PAD_LIMIT
  {
    assert Power10(5) == 100_000;
    assert Power10(10) == 10_000_000_000;
    assert Power10(15) == 1_000_000_000_000_000;
  }

  lemma {:induction false} ZerosAddNothing(count: nat, s: string)
    requires AllDigits(s)
    ensures AllDigits(Zeros(count) + s) && NumeralValue(Zeros(count) + s) == NumeralValue(s)
  {
    if s == "" {
      assert Zeros(count) + s == Zeros(count);
      ZerosAreZero(count);
    } else {
      ZerosAddNothing(count, s[..|s| - 1]);
      assert (Zeros(count) + s)[..|Zeros(count) + s| - 1] == Zeros(count) + s[..|s| - 1];
    }
  }

  lemma {:induction false} ZerosAreZero(count: nat)
    ensures NumeralValue(Zeros(count)) == 0
  {
    if count > 0 {
      ZerosAreZero(count - 1);
      ZerosEndInZero(count);
      assert Zeros(count)[..count - 1] == Zeros(count - 1);
    }
  }

  lemma {:induction false} ZerosEndInZero(count: nat)
    ensures forall i | 0 <= i < count :: Zeros(count)[i] == '0'
    ensures count > 0 ==> Zeros(count)[..count - 1] == Zeros(count - 1)
  {
    if count > 0 {
      ZerosEndInZero(count - 1);
      forall i | 0 <= i < count ensures Zeros(count)[i] == '0' {
        if i > 0 { assert Zeros(count)[i] == Zeros(count - 1)[i - 1]; }
      }
    }
  }

  lemma PaddedReadsBack(n: nat)
    ensures NumeralValue(Padded(n)) == n
    ensures n < PAD_LIMIT ==> |Padded(n)| == PAD_WIDTH
  {
    DecimalReadsBack(n);
    var digits := Decimal(n);
    if |digits| < PAD_WIDTH {
      ZerosAddNothing(PAD_WIDTH - |digits|, digits);
    }
    if n < PAD_LIMIT {
      hide Decimal, Zeros, Power10;
      Power10Of20();
      DecimalLength(n, PAD_WIDTH);
    }
  }

  /** Numerals of equal length sort as strings exactly as they sort as numbers. */
  lemma {:induction false} NumeralOrder(a: string, b: string)
    requires AllDigits(a) && AllDigits(b) && |a| == |b|
    ensures StrLess(a, b) <==> NumeralValue(a) < NumeralValue(b)
    ensures NumeralValue(a) == NumeralValue(b) ==> a == b
  {
    if a != "" {
      var a', b' := a[..|a| - 1], b[..|b| - 1];
      NumeralOrder(a', b');
      assert a == a' + [a[|a| - 1]] && b == b' + [b[|b| - 1]];
      StrLessOnSplit(a', b', [a[|a| - 1]], [b[|b| - 1]]);
    }
  }

  /** Prefixes of equal length decide the order unless they are the same. */
  lemma {:induction false} StrLessOnSplit(a: string, b: string, x: string, y: string)
    requires |a| == |b|
    ensures StrLess(a + x, b + y) <==> StrLess(a, b) || (a == b && StrLess(x, y))
  {
    if a == "" {
      assert a + x == x && b + y == y;
    } else {
      assert (a + x)[1..] == a[1..] + x && (b + y)[1..] == b[1..] + y;
      assert a == [a[0]] + a[1..] && b == [b[0]] + b[1..];
      StrLessOnSplit(a[1..], b[1..], x, y);
    }
  }

  lemma Regroup(a: string, b: string, c: string, d: string)
    ensures a + (b + c + d) == ((a + b) + c) + d
  {
  }

  // ---------------------------------------------------------------------------
  // `str::find`, `split_once` and `split`.
  // ---------------------------------------------------------------------------

  predicate StartsWith(s: string, prefix: string) {
    prefix <= s
  }

  /** The index of the first occurrence of `key` in `s`. */
  function Find(s: string, key: string): (r: Option<nat>)
    ensures r.Some? ==> r.value + |key| <= |s| && s[r.value..r.value + |key|] == key
    ensures r.Some? ==> forall i | 0 <= i < r.value :: !(key <= s[i..])
    ensures r == None ==> forall i | 0 <= i <= |s| :: !(key <= s[i..])
  {
    if key <= s then Some(0)
    else if s == "" then None
    else
      match Find(s[1..], key)
      case Some(i) =>
        assert forall j | 1 <= j <= i :: s[j..] == s[1..][j - 1..];
        Some(i + 1)
      case None =>
        assert forall j | 1 <= j <= |s| :: s[j..] == s[1..][j - 1..];
        None
  }

  function SplitOnce(s: string, sep: char): (r: Option<(string, string)>)
    ensures r.Some? ==> s == r.value.0 + [sep] + r.value.1 && sep !in r.value.0
    ensures r == None ==> sep !in s
  {
    if s == "" then None
    else if s[0] == sep then
      assert s == "" + [sep] + s[1..];
      Some(("", s[1..]))
    else
      match SplitOnce(s[1..], sep)
      case None =>
        assert s == [s[0]] + s[1..];
        None
      case Some((head, tail)) =>
        assert s == [s[0]] + s[1..];
        assert s == ([s[0]] + head) + [sep] + tail;
        Some(([s[0]] + head, tail))
  }

  lemma {:induction false} SplitOnceAt(head: string, sep: char, tail: string)
    requires sep !in head
    ensures SplitOnce(head + [sep] + tail, sep) == Some((head, tail))
  {
    var s := head + [sep] + tail;
    if head == "" {
      assert s[1..] == tail;
    } else {
      assert s[1..] == head[1..] + [sep] + tail;
      SplitOnceAt(head[1..], sep, tail);
      assert head == [head[0]] + head[1..];
    }
  }
}
