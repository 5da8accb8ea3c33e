/**
 The grammar of JSON texts (RFC 8259), as a relation between a stretch of a text and the value it
 denotes, and that the reader accepts exactly the texts of the grammar, with exactly their values.
 */
module JsonGrammar {
  import opened Orders
  import opened Text
  import opened Json
  import opened JsonRoundTrip

  // ---------------------------------------------------------------------------
  // The grammar. Each predicate speaks of chars[i..j].
  // ---------------------------------------------------------------------------

  /** Insignificant whitespace (section 2). */
  ghost predicate Blank(chars: string, i: nat, j: nat) {
    i <= j <= |chars| && forall k | i <= k < j :: chars[k] in " \t\n\r"
  }

  ghost predicate HexIs(c: char, d: nat) {
    d < 16 && (c == "0123456789abcdef"[d] || c == "0123456789ABCDEF"[d])
  }

  /** Four hex digits from `i` on denote `n`. */
  ghost predicate FourHex(chars: string, i: nat, n: int) {
    && i + 4 <= |chars| && 0 <= n < 0x1_0000
    && HexIs(chars[i], n / 0x1000) && HexIs(chars[i + 1], n / 0x100 % 0x10)
    && HexIs(chars[i + 2], n / 0x10 % 0x10) && HexIs(chars[i + 3], n % 0x10)
  }

  /** A reverse solidus and a `u` at `i`, then four hex digits that denote `n`. */
  ghost predicate Unit(chars: string, i: nat, n: int) {
    i + 6 <= |chars| && chars[i] == '\\' && chars[i + 1] == 'u' && FourHex(chars, i + 2, n)
  }

  ghost predicate ShortEscape(e: char, c: char) {
    || (e == c && e in "\"\\/")
    || (e == 'b' && c as int == 0x08) || (e == 'f' && c as int == 0x0C)
    || (e == 'n' && c as int == 0x0A) || (e == 'r' && c as int == 0x0D) || (e == 't' && c as int == 0x09)
  }

  /** One character of a string (section 7): itself, a short escape, one UTF-16 unit, or a surrogate pair. */
  ghost predicate Spelled(chars: string, i: nat, j: nat, c: char) {
    i < j <= |chars|
    && (|| (j == i + 1 && chars[i] == c && c as int >= 0x20 && c !in "\"\\")
        || (j == i + 2 && chars[i] == '\\' && ShortEscape(chars[i + 1], c))
        || (j == i + 6 && Unit(chars, i, c as int))
        || (j == i + 12 && c as int >= 0x1_0000
            && Unit(chars, i, 0xD800 + (c as int - 0x1_0000) / 0x400)
            && Unit(chars, i + 6, 0xDC00 + (c as int - 0x1_0000) % 0x400)))
  }

  ghost predicate IsText(chars: string, i: nat, j: nat, s: string)
    decreases |s|
  {
    if s == "" then i == j <= |chars|
    else exists m | i < m <= j :: Spelled(chars, i, m, s[0]) && IsText(chars, m, j, s[1..])
  }

  /** A string between quotation marks. */
  ghost predicate IsString(chars: string, i: nat, j: nat, s: string) {
    i + 1 < j <= |chars| && chars[i] == '"' && chars[j - 1] == '"' && IsText(chars, i + 1, j - 1, s)
  }

  ghost predicate DigitIs(c: char, d: nat) {
    d < 10 && c == "0123456789"[d]
  }

  /** Decimal digits, leading zeros allowed. */
  ghost predicate IsNumeral(chars: string, i: nat, j: nat, n: int)
    decreases j
  {
    i < j <= |chars| && n >= 0 && DigitIs(chars[j - 1], n % 10)
    && if j == i + 1 then n < 10 else IsNumeral(chars, i, j - 1, n / 10)
  }

  ghost predicate IsInteger(chars: string, i: nat, j: nat, n: int) {
    i < |chars| && if chars[i] == '-' then IsNumeral(chars, i + 1, j, -n) else IsNumeral(chars, i, j, n)
  }

  /** The value under a key is the one given last, and the keys ascend. */
  ghost predicate Filled(members: seq<Member>, written: seq<Member>) {
    && KeysAscend(members)
    && forall m :: m in members <==> GivenLast(written, m)
  }

  ghost predicate GivenLast(written: seq<Member>, m: Member) {
    exists k :: LastGiven(written, m, k)
  }

  ghost predicate LastGiven(written: seq<Member>, m: Member, k: nat) {
    k < |written| && written[k] == m && forall l | k < l < |written| :: written[l].key != m.key
  }

  /** A value at a nesting depth of at most 128. */
  ghost predicate IsValue(chars: string, i: nat, j: nat, v: Json, depth: nat)
    decreases j - i, 0
  {
    i < j <= |chars| && depth <= 128
    && match v
       case Null => j == i + 4 && chars[i..j] == "null"
       case Bool(b) => if b then j == i + 4 && chars[i..j] == "true" else j == i + 5 && chars[i..j] == "false"
       case Number(n) => IsInteger(chars, i, j, n)
       case Str(s) => IsString(chars, i, j, s)
       case Array(items) =>
         i + 1 < j && chars[i] == '[' && chars[j - 1] == ']'
         && if items == [] then Blank(chars, i + 1, j - 1) else IsItems(chars, i + 1, j - 1, items, depth + 1)
       case Object(members) =>
         i + 1 < j && chars[i] == '{' && chars[j - 1] == '}'
         && if members == [] then Blank(chars, i + 1, j - 1)
            else exists written :: IsMembers(chars, i + 1, j - 1, written, depth + 1) && Filled(members, written)
  }

  /** Values with commas between them. */
  ghost predicate IsItems(chars: string, i: nat, j: nat, items: seq<Json>, depth: nat)
    decreases j - i, 2
  {
    items != [] && exists a, b, c :: ItemsSplit(chars, i, j, items, depth, a, b, c)
  }

  ghost predicate ItemsSplit(chars: string, i: nat, j: nat, items: seq<Json>, depth: nat, a: nat, b: nat, c: nat)
    requires items != []
    decreases j - i, 1
  {
    && i <= a < b <= c <= j <= |chars| && Blank(chars, i, a) && Blank(chars, b, c)
    && IsValue(chars, a, b, items[0], depth)
    && if |items| == 1 then c == j else c < j && chars[c] == ',' && IsItems(chars, c + 1, j, items[1..], depth)
  }

  /** A string, a colon and a value. */
  ghost predicate IsMember(chars: string, i: nat, j: nat, m: Member, depth: nat)
    decreases j - i, 1
  {
    exists a, b, c ::
      && i < a <= b < c < j <= |chars| && chars[b] == ':'
      && IsString(chars, i, a, m.key) && Blank(chars, a, b) && Blank(chars, b + 1, c) && IsValue(chars, c, j, m.value, depth)
  }

  ghost predicate IsMembers(chars: string, i: nat, j: nat, written: seq<Member>, depth: nat)
    decreases j - i, 3
  {
    written != [] && exists a, b, c :: MembersSplit(chars, i, j, written, depth, a, b, c)
  }

  ghost predicate MembersSplit(chars: string, i: nat, j: nat, written: seq<Member>, depth: nat, a: nat, b: nat, c: nat)
    requires written != []
    decreases j - i, 2
  {
    && i <= a < b <= c <= j <= |chars| && Blank(chars, i, a) && Blank(chars, b, c)
    && IsMember(chars, a, b, written[0], depth)
    && if |written| == 1 then c == j else c < j && chars[c] == ',' && IsMembers(chars, c + 1, j, written[1..], depth)
  }

  /** A whole text: one value with whitespace around it. */
  ghost predicate IsDocument(text: string, v: Json) {
    exists a, b :: Blank(text, 0, a) && IsValue(text, a, b, v, 0) && Blank(text, b, |text|)
  }

  // ---------------------------------------------------------------------------
  // Whitespace
  // ---------------------------------------------------------------------------

  lemma SpaceIs(c: char)
    ensures IsSpace(c) <==> c in " \t\n\r"
  {
  }

  lemma {:induction false} SkipIs(chars: string, i: nat, a: nat)
    requires i <= |chars|
    ensures SkipSpace(chars, i) == a <==> Blank(chars, i, a) && (a < |chars| ==> chars[a] !in " \t\n\r")
    decreases |chars| - i
  {
    if i < |chars| {
      SpaceIs(chars[i]);
      if IsSpace(chars[i]) {
        SkipIs(chars, i + 1, a);
      }
    }
  }

  // ---------------------------------------------------------------------------
  // Strings
  // ---------------------------------------------------------------------------

  lemma HexDigitIs(c: char, d: nat)
    ensures HexDigit(c) == Some(d) <==> HexIs(c, d)
  {
    var low, high := "0123456789abcdef", "0123456789ABCDEF";
    if d < 16 {
      assert low[d] as int == if d < 10 then 48 + d else 87 + d;
      assert high[d] as int == if d < 10 then 48 + d else 55 + d;
    }
  }

  lemma FourHexIs(chars: string, pos: nat, n: nat, escPos: nat)
    requires pos <= |chars|
    ensures HexAt(chars, pos, 4, 0, escPos) == Ok(Read(n, pos + 4)) <==> FourHex(chars, pos, n)
  {
    hide HexDigit, HexIs, HexAt;
    if pos + 4 <= |chars| {
      HexDigitIs(chars[pos], n / 0x1000);
      HexDigitIs(chars[pos + 1], n / 0x100 % 0x10);
      HexDigitIs(chars[pos + 2], n / 0x10 % 0x10);
      HexDigitIs(chars[pos + 3], n % 0x10);
      var p, q, r, s := HexDigit(chars[pos]), HexDigit(chars[pos + 1]), HexDigit(chars[pos + 2]), HexDigit(chars[pos + 3]);
      if p.Some? && q.Some? && r.Some? && s.Some? {
        HexUnrolls(chars, pos, p.value, q.value, r.value, s.value, escPos);
        FourDigits(p.value, q.value, r.value, s.value, n);
      } else {
        HexStops(chars, pos, 4, 0, escPos);
      }
    }
  }

  lemma FourDigits(p: nat, q: nat, r: nat, s: nat, n: nat)
    requires p < 16 && q < 16 && r < 16 && s < 16
    ensures n == 0x1000 * p + 0x100 * q + 0x10 * r + s
      <==> n < 0x1_0000 && n / 0x1000 == p && n / 0x100 % 0x10 == q && n / 0x10 % 0x10 == r && n % 0x10 == s
  {
    var n1 := n / 0x10;
    var n2 := n1 / 0x10;
    assert n2 == n / 0x100 && n2 / 0x10 == n / 0x1000;
    LastHex(n, 0x100 * p + 0x10 * q + r, s);
    LastHex(n1, 0x10 * p + q, r);
    LastHex(n2, p, q);
  }

  lemma LastHex(n: nat, m: nat, d: nat)
    requires d < 16
    ensures n == 0x10 * m + d <==> n / 0x10 == m && n % 0x10 == d
  {
  }

  lemma HexUnrolls(chars: string, pos: nat, p: nat, q: nat, r: nat, s: nat, escPos: nat)
    requires pos + 4 <= |chars|
    requires HexDigit(chars[pos]) == Some(p) && HexDigit(chars[pos + 1]) == Some(q)
    requires HexDigit(chars[pos + 2]) == Some(r) && HexDigit(chars[pos + 3]) == Some(s)
    ensures HexAt(chars, pos, 4, 0, escPos) == Ok(Read(0x1000 * p + 0x100 * q + 0x10 * r + s, pos + 4))
  {
    hide HexDigit;
    var v := 0x1000 * p + 0x100 * q + 0x10 * r + s;
    assert HexAt(chars, pos + 4, 0, v, escPos) == Ok(Read(v, pos + 4));
    assert HexAt(chars, pos + 3, 1, 0x100 * p + 0x10 * q + r, escPos) == Ok(Read(v, pos + 4));
    assert HexAt(chars, pos + 2, 2, 0x10 * p + q, escPos) == Ok(Read(v, pos + 4));
    assert HexAt(chars, pos + 1, 3, p, escPos) == Ok(Read(v, pos + 4));
  }

  lemma {:induction false} HexStops(chars: string, pos: nat, count: nat, value: nat, escPos: nat)
    requires pos <= |chars|
    requires pos + count <= |chars| ==> exists k | pos <= k < pos + count :: HexDigit(chars[k]).None?
    ensures HexAt(chars, pos, count, value, escPos).Err?
    decreases count
  {
    hide HexDigit;
    if pos < |chars| && HexDigit(chars[pos]).Some? {
      HexStops(chars, pos + 1, count - 1, value * 16 + HexDigit(chars[pos]).value, escPos);
    }
  }

  /** The escape of one UTF-16 unit or of a surrogate pair, after its `u`. */
  lemma UnicodeIs(chars: string, pos: nat, c: char, next: nat, escPos: nat)
    requires 2 <= pos <= |chars| && chars[pos - 2] == '\\' && chars[pos - 1] == 'u'
    ensures UnicodeAt(chars, pos, escPos) == Ok(Read(c, next))
      <==> Spelled(chars, pos - 2, next, c)
  {
    hide HexAt, FourHex;
    var high := HexAt(chars, pos, 4, 0, escPos);
    UnitsAre(chars, pos, escPos);
    if pos + 6 <= |chars| {
      UnitsAre(chars, pos + 6, escPos);
    }
    UnitsAreSmall(chars);
  }

  lemma UnitsAre(chars: string, pos: nat, escPos: nat)
    requires pos <= |chars|
    ensures forall n: nat :: HexAt(chars, pos, 4, 0, escPos) == Ok(Read(n, pos + 4)) <==> FourHex(chars, pos, n)
  {
    forall n: nat ensures HexAt(chars, pos, 4, 0, escPos) == Ok(Read(n, pos + 4)) <==> FourHex(chars, pos, n) {
      FourHexIs(chars, pos, n, escPos);
    }
  }

  lemma UnitsAreSmall(chars: string)
    ensures forall i: nat, n :: FourHex(chars, i, n) ==> 0 <= n < 0x1_0000
  {
  }

  lemma ShortIs(e: char, c: char)
    ensures SimpleEscape(e) == Some(c) <==> ShortEscape(e, c)
  {
  }

  /** What the reader of strings does at `pos`, character by character. */
  lemma TextTurn(chars: string, pos: nat, m: nat, c: char, acc: string)
    requires pos < |chars| && Spelled(chars, pos, m, c)
    ensures StringBodyAt(chars, pos, acc) == StringBodyAt(chars, m, acc + [c])
  {
    hide UnicodeAt, SimpleEscape;
    if chars[pos] == '\\' {
      ShortIs(chars[pos + 1], c);
      if m != pos + 2 {
        ShortIs('u', 'u');
        NoShortU();
        UnicodeIs(chars, pos + 2, c, m, pos);
      }
    }
  }

  lemma NoShortU()
    ensures SimpleEscape('u') == None
  {
  }

  lemma {:induction false} TextReads(chars: string, pos: nat, end: nat, s: string, acc: string)
    requires IsText(chars, pos, end, s) && end < |chars| && chars[end] == '"'
    ensures StringBodyAt(chars, pos, acc) == Ok(Read(acc + s, end + 1))
    decreases |s|
  {
    hide Spelled;
    if s == "" {
      assert acc + s == acc;
    } else {
      var m :| pos < m <= end && Spelled(chars, pos, m, s[0]) && IsText(chars, m, end, s[1..]);
      TextTurn(chars, pos, m, s[0], acc);
      TextReads(chars, m, end, s[1..], acc + [s[0]]);
      assert acc + [s[0]] + s[1..] == acc + s;
    }
  }

  /** Reading on past `pos` takes one spelled character. */
  lemma TextStep(chars: string, pos: nat, acc: string) returns (c: char, m: nat)
    requires pos < |chars| && StringBodyAt(chars, pos, acc).Ok? && chars[pos] != '"'
    ensures pos < m && Spelled(chars, pos, m, c) && StringBodyAt(chars, pos, acc) == StringBodyAt(chars, m, acc + [c])
  {
    hide UnicodeAt, SimpleEscape;
    if chars[pos] != '\\' {
      c, m := chars[pos], pos + 1;
    } else {
      var e := chars[pos + 1];
      if SimpleEscape(e).Some? {
        c, m := SimpleEscape(e).value, pos + 2;
        ShortIs(e, c);
      } else {
        var unit := UnicodeAt(chars, pos + 2, pos).value;
        c, m := unit.value, unit.next;
        UnicodeIs(chars, pos + 2, c, m, pos);
      }
    }
  }

  lemma {:induction false} TextIsRead(chars: string, pos: nat, acc: string)
    requires pos <= |chars| && StringBodyAt(chars, pos, acc).Ok?
    ensures var r := StringBodyAt(chars, pos, acc).value;
      && acc <= r.value && pos < r.next <= |chars| && chars[r.next - 1] == '"'
      && IsText(chars, pos, r.next - 1, r.value[|acc|..])
    decreases |chars| - pos
  {
    hide Spelled, UnicodeAt, SimpleEscape;
    if chars[pos] != '"' {
      var c, m := TextStep(chars, pos, acc);
      TextIsRead(chars, m, acc + [c]);
      var r := StringBodyAt(chars, pos, acc).value;
      assert r.value[|acc|..][0] == c && r.value[|acc|..][1..] == r.value[|acc + [c]|..];
    }
  }

  lemma StringIs(chars: string, pos: nat, s: string, end: nat)
    requires pos < |chars| && chars[pos] == '"'
    ensures StringBodyAt(chars, pos + 1, "") == Ok(Read(s, end)) <==> IsString(chars, pos, end, s)
  {
    hide IsText;
    if IsString(chars, pos, end, s) {
      TextReads(chars, pos + 1, end - 1, s, "");
      assert "" + s == s;
    }
    if StringBodyAt(chars, pos + 1, "") == Ok(Read(s, end)) {
      TextIsRead(chars, pos + 1, "");
      assert s[0..] == s;
    }
  }

  // ---------------------------------------------------------------------------
  // Numbers
  // ---------------------------------------------------------------------------

  lemma DigitIsIts(c: char, d: nat)
    ensures IsDigit(c) && DigitValue(c) == d <==> DigitIs(c, d)
  {
    var digits := "0123456789";
    if d < 10 {
      assert digits[d] as int == 48 + d;
    }
  }

  lemma {:induction false} NumeralIs(chars: string, i: nat, j: nat, n: int)
    requires i <= j <= |chars|
    ensures i < j && AllDigits(chars[i..j]) && NumeralValue(chars[i..j]) == n <==> IsNumeral(chars, i, j, n)
    decreases j
  {
    hide DigitIs, DigitValue, AllDigits, NumeralValue;
    if i < j {
      LastDigit(chars, i, j);
      if n >= 0 {
        DigitIsIts(chars[j - 1], n % 10);
        NumeralIs(chars, i, j - 1, n / 10);
        if j == i + 1 {
          NoDigits();
          assert chars[i..i] == "";
        }
      }
    }
  }

  lemma LastDigit(chars: string, i: nat, j: nat)
    requires i < j <= |chars|
    ensures AllDigits(chars[i..j]) <==> AllDigits(chars[i..j - 1]) && IsDigit(chars[j - 1])
    ensures AllDigits(chars[i..j]) ==> NumeralValue(chars[i..j]) == 10 * NumeralValue(chars[i..j - 1]) + DigitValue(chars[j - 1])
  {
    var text, c := chars[i..j], chars[j - 1];
    assert text == chars[i..j - 1] + [c];
    assert text[..|text| - 1] == chars[i..j - 1];
  }

  lemma NoDigits()
    ensures AllDigits("") && NumeralValue("") == 0
  {
  }

  lemma {:induction false} NumberEndIs(chars: string, i: nat, j: nat)
    requires i <= |chars|
    ensures NumberEnd(chars, i) == j <==> i <= j <= |chars| && (forall k | i <= k < j :: NumberChar(chars[k])) && Ends(chars, j)
    decreases |chars| - i
  {
    if i < |chars| && NumberChar(chars[i]) {
      NumberEndIs(chars, i + 1, j);
    }
  }

  lemma NumberIs(chars: string, i: nat, v: Json, j: nat)
    requires i < |chars| && (chars[i] == '-' || IsDigit(chars[i]))
    ensures NumberAt(chars, i) == Ok(Read(v, j)) <==> v.Number? && IsInteger(chars, i, j, v.n) && Ends(chars, j)
  {
    hide IsNumeral;
    NumberEndIs(chars, i, NumberEnd(chars, i));
    var end := NumberEnd(chars, i);
    if v.Number? && IsInteger(chars, i, j, v.n) && Ends(chars, j) {
      IntegerChars(chars, i, j, v.n);
      NumberEndIs(chars, i, j);
      IntegerIs(chars, i, j, v.n);
    }
    if NumberAt(chars, i) == Ok(Read(v, j)) {
      IntegerIs(chars, i, j, v.n);
    }
  }

  lemma IntegerIs(chars: string, i: nat, j: nat, n: int)
    requires i < |chars| && (chars[i] == '-' || IsDigit(chars[i])) && i <= j <= |chars|
    ensures IntegerOf(chars[i..j]) == Some(n) <==> IsInteger(chars, i, j, n)
  {
    hide IsNumeral, AllDigits, NumeralValue;
    if i < j {
      var text := chars[i..j];
      if chars[i] == '-' {
        NumeralIs(chars, i + 1, j, -n);
        assert text[1..] == chars[i + 1..j];
      } else {
        NumeralIs(chars, i, j, n);
      }
    } else {
      assert chars[i..j] == "";
      EmptyNumeral(chars, i, j, n);
      EmptyNumeral(chars, i + 1, j, -n);
    }
  }

  lemma EmptyNumeral(chars: string, i: nat, j: nat, n: int)
    ensures IsNumeral(chars, i, j, n) ==> i < j <= |chars|
  {
  }

  lemma IntegerChars(chars: string, i: nat, j: nat, n: int)
    requires IsInteger(chars, i, j, n)
    ensures i < j <= |chars| && forall k | i <= k < j :: NumberChar(chars[k])
  {
    hide IsNumeral;
    var start, m := if chars[i] == '-' then i + 1 else i, if chars[i] == '-' then -n else n;
    EmptyNumeral(chars, start, j, m);
    NumeralIs(chars, start, j, m);
    forall k | start <= k < j ensures IsDigit(chars[k]) {
      assert chars[start..j][k - start] == chars[k];
    }
  }

  // ---------------------------------------------------------------------------
  // Objects
  // ---------------------------------------------------------------------------

  lemma {:induction false} PutIs(members: seq<Member>, key: string, value: Json)
    requires KeysAscend(members)
    ensures KeysAscend(Put(members, key, value))
    ensures forall m :: m in Put(members, key, value) <==> m == Member(key, value) || (m in members && m.key != key)
  {
    PutKeepsOrder(members, key, value);
    if members != [] {
      StrLessTotal(key, members[0].key);
      var rest := members[1..];
      assert members == [members[0]] + rest;
      PutIs(rest, key, value);
      forall m | m in rest ensures m.key != members[0].key && (StrLess(key, members[0].key) ==> m.key != key) {
        var k :| 0 <= k < |rest| && rest[k] == m;
        assert StrLess(members[0].key, members[k + 1].key);
        StrLessTotal(m.key, m.key);
        if StrLess(key, members[0].key) {
          StrLessTransitive(key, members[0].key, m.key);
        }
      }
    }
  }

  lemma {:induction false} CollectFills(written: seq<Member>)
    ensures Filled(Collect(written), written)
  {
    if written != [] {
      var n := |written| - 1;
      var (before, last) := (written[..n], written[n]);
      CollectFills(before);
      PutIs(Collect(before), last.key, last.value);
      forall m ensures m in Collect(written) <==> GivenLast(written, m) {
        assert written == before + [last];
        GivenNext(before, last, m);
      }
    }
  }

  lemma GivenNext(before: seq<Member>, last: Member, m: Member)
    ensures GivenLast(before + [last], m) <==> m == last || (GivenLast(before, m) && m.key != last.key)
  {
    var written := before + [last];
    if m == last {
      assert LastGiven(written, m, |before|);
    }
    if GivenLast(before, m) && m.key != last.key {
      var k: nat :| LastGiven(before, m, k);
      assert LastGiven(written, m, k);
    }
    if GivenLast(written, m) && m != last {
      var k: nat :| LastGiven(written, m, k);
      assert written[|before|] == last && k < |before|;
      forall l | k < l < |before| ensures before[l].key != m.key {
        assert written[l] == before[l];
      }
      assert LastGiven(before, m, k);
    }
  }

  lemma {:induction false} SameMembers(a: seq<Member>, b: seq<Member>)
    requires KeysAscend(a) && KeysAscend(b) && forall m :: m in a <==> m in b
    ensures a == b
  {
    if a != [] || b != [] {
      assert a != [] ==> a[0] in b;
      assert b != [] ==> b[0] in a;
      LeastFirst(a, b[0]);
      LeastFirst(b, a[0]);
      StrLessTotal(a[0].key, b[0].key);
      RestIs(a);
      RestIs(b);
      SameMembers(a[1..], b[1..]);
    }
  }

  lemma LeastFirst(a: seq<Member>, m: Member)
    requires KeysAscend(a) && m in a
    ensures m == a[0] || StrLess(a[0].key, m.key)
  {
  }

  lemma RestIs(a: seq<Member>)
    requires a != [] && KeysAscend(a)
    ensures forall m :: m in a[1..] <==> m in a && m != a[0]
  {
    assert a == [a[0]] + a[1..];
    forall m | m in a[1..] ensures m != a[0] {
      var k :| 0 <= k < |a[1..]| && a[1..][k] == m;
      StrLessTotal(a[0].key, a[k + 1].key);
    }
  }

  lemma CollectIs(members: seq<Member>, written: seq<Member>)
    ensures Collect(written) == members <==> Filled(members, written)
  {
    hide Collect, GivenLast, KeysAscend;
    CollectFills(written);
    if Filled(members, written) {
      SameMembers(members, Collect(written));
    }
  }

  lemma {:induction false} CollectsSomething(written: seq<Member>)
    requires written != []
    ensures Collect(written) != []
  {
    CollectFills(written);
    assert LastGiven(written, written[|written| - 1], |written| - 1);
  }

  // ---------------------------------------------------------------------------
  // Every text of the grammar is read as its value
  // ---------------------------------------------------------------------------

  /** What follows a value in a list or an object. */
  lemma ValueEnds(chars: string, b: nat, c: nat)
    requires Blank(chars, b, c) && (c < |chars| ==> chars[c] in ",]}")
    ensures Ends(chars, b)
  {
  }

  lemma IntegerStarts(chars: string, i: nat, j: nat, n: int)
    requires IsInteger(chars, i, j, n)
    ensures chars[i] == '-' || IsDigit(chars[i])
  {
    if chars[i] != '-' {
      NumeralStarts(chars, i, j, n);
    }
  }

  lemma {:induction false} NumeralStarts(chars: string, i: nat, j: nat, n: int)
    requires IsNumeral(chars, i, j, n)
    ensures IsDigit(chars[i])
    decreases j
  {
    if j > i + 1 {
      NumeralStarts(chars, i, j - 1, n / 10);
    }
  }

  lemma ValueStarts(chars: string, i: nat, j: nat, v: Json, depth: nat)
    requires IsValue(chars, i, j, v, depth)
    ensures chars[i] !in " \t\n\r" && chars[i] != ']'
  {
    hide IsItems, IsMembers, IsText, IsNumeral, Filled;
    if v.Number? {
      IntegerStarts(chars, i, j, v.n);
    } else if v.Null? || v.Bool? {
      assert chars[i..j][0] == chars[i];
    }
  }

  lemma LiteralIs(chars: string, i: nat, literal: string)
    requires i <= |chars|
    ensures Has(chars, i, literal) <==> i + |literal| <= |chars| && chars[i..i + |literal|] == literal
  {
  }

  lemma {:induction false} ValueReads(chars: string, i: nat, j: nat, v: Json, depth: nat)
    requires IsValue(chars, i, j, v, depth) && Ends(chars, j)
    ensures ValueAt(chars, i, depth) == Ok(Read(v, j))
    decreases j - i, 1
  {
    hide IsItems, IsMembers, Filled, IsString, IsInteger, Blank, ObjectAt, ArrayAt, StringBodyAt, NumberAt, LiteralAt;
    if v.Object? {
      ObjectReads(chars, i, j, v, depth);
    } else if v.Array? {
      ArrayReads(chars, i, j, v, depth);
    } else {
      ScalarReads(chars, i, j, v, depth);
    }
  }

  lemma ScalarReads(chars: string, i: nat, j: nat, v: Json, depth: nat)
    requires IsValue(chars, i, j, v, depth) && Ends(chars, j) && !v.Object? && !v.Array?
    ensures ValueAt(chars, i, depth) == Ok(Read(v, j))
  {
    hide IsItems, IsMembers, IsInteger, Filled, IsText, StringBodyAt, NumberAt;
    if v.Number? {
      IntegerStarts(chars, i, j, v.n);
      NumberIs(chars, i, v, j);
    } else if v.Str? {
      StringIs(chars, i, v.s, j);
    } else {
      assert chars[i..j][0] == chars[i];
      LiteralIs(chars, i, "null");
      LiteralIs(chars, i, "true");
      LiteralIs(chars, i, "false");
    }
  }

  lemma {:induction false} ArrayReads(chars: string, i: nat, j: nat, v: Json, depth: nat)
    requires IsValue(chars, i, j, v, depth) && v.Array?
    ensures ArrayAt(chars, i, depth) == Ok(Read(v, j))
    decreases j - i, 0
  {
    hide IsItems, IsMembers, ItemsAt;
    if v.items == [] {
      SkipIs(chars, i + 1, j - 1);
    } else {
      ItemsRead(chars, i + 1, j - 1, v.items, depth);
    }
  }

  lemma {:induction false} ObjectReads(chars: string, i: nat, j: nat, v: Json, depth: nat)
    requires IsValue(chars, i, j, v, depth) && v.Object?
    ensures ObjectAt(chars, i, depth) == Ok(Read(v, j))
    decreases j - i, 0
  {
    hide IsItems, IsMembers, Filled, Collect, MembersAt;
    if v.members == [] {
      SkipIs(chars, i + 1, j - 1);
    } else {
      var written :| IsMembers(chars, i + 1, j - 1, written, depth + 1) && Filled(v.members, written);
      MembersRead(chars, i + 1, j - 1, written, depth);
      CollectIs(v.members, written);
    }
  }

  lemma {:induction false} ItemsRead(chars: string, i: nat, j: nat, items: seq<Json>, depth: nat)
    requires i <= j < |chars| && chars[j] == ']' && IsItems(chars, i, j, items, depth + 1)
    ensures var start := SkipSpace(chars, i);
      !Sees(chars, start, ']') && ItemsAt(chars, start, depth, []) == Ok(Read(items, j + 1))
    decreases j - i, 5
  {
    hide IsValue;
    var a: nat, b: nat, c: nat :| ItemsSplit(chars, i, j, items, depth + 1, a, b, c);
    ValueStarts(chars, a, b, items[0], depth + 1);
    SkipIs(chars, i, a);
    assert Blank(chars, a, a);
    assert ItemsSplit(chars, a, j, items, depth + 1, a, b, c);
    ItemsReadOn(chars, a, j, items, depth, []);
    assert [] + items == items;
  }

  lemma {:induction false} ItemsReadOn(chars: string, i: nat, j: nat, items: seq<Json>, depth: nat, acc: seq<Json>)
    requires i <= j < |chars| && chars[j] == ']' && IsItems(chars, i, j, items, depth + 1)
    ensures ItemsAt(chars, i, depth, acc) == Ok(Read(acc + items, j + 1))
    decreases j - i, 4
  {
    hide IsValue, ValueAt, Blank;
    var a: nat, b: nat, c: nat :| ItemsSplit(chars, i, j, items, depth + 1, a, b, c);
    var item := items[0];
    ValueStarts(chars, a, b, item, depth + 1);
    SkipIs(chars, i, a);
    ValueEnds(chars, b, c);
    ValueReads(chars, a, b, item, depth + 1);
    SkipIs(chars, b, c);
    if |items| == 1 {
      assert items == [item];
    } else {
      ItemsReadOn(chars, c + 1, j, items[1..], depth, acc + [item]);
      assert acc + [item] + items[1..] == acc + items;
    }
  }

  lemma {:induction false} MemberReads(chars: string, i: nat, j: nat, m: Member, depth: nat)
    requires IsMember(chars, i, j, m, depth + 1) && Ends(chars, j)
    ensures chars[i] == '"' && MemberAt(chars, i, depth) == Ok(Read(m, j))
    decreases j - i, 3
  {
    hide IsValue, ValueAt, IsText, StringBodyAt;
    var a: nat, b: nat, c: nat :| && i < a <= b < c < j <= |chars| && chars[b] == ':'
      && IsString(chars, i, a, m.key) && Blank(chars, a, b) && Blank(chars, b + 1, c) && IsValue(chars, c, j, m.value, depth + 1);
    assert Blank(chars, i, i);
    SkipIs(chars, i, i);
    StringIs(chars, i, m.key, a);
    SkipIs(chars, a, b);
    ValueStarts(chars, c, j, m.value, depth + 1);
    SkipIs(chars, b + 1, c);
    ValueReads(chars, c, j, m.value, depth + 1);
  }

  lemma {:induction false} MembersRead(chars: string, i: nat, j: nat, written: seq<Member>, depth: nat)
    requires i <= j < |chars| && chars[j] == '}' && IsMembers(chars, i, j, written, depth + 1)
    ensures var start := SkipSpace(chars, i);
      !Sees(chars, start, '}') && MembersAt(chars, start, depth, []) == Ok(Read(written, j + 1))
    decreases j - i, 5
  {
    hide IsMember;
    var a: nat, b: nat, c: nat :| MembersSplit(chars, i, j, written, depth + 1, a, b, c);
    MemberStarts(chars, a, b, written[0], depth + 1);
    SkipIs(chars, i, a);
    assert Blank(chars, a, a);
    assert MembersSplit(chars, a, j, written, depth + 1, a, b, c);
    MembersReadOn(chars, a, j, written, depth, []);
    assert [] + written == written;
  }

  lemma MemberStarts(chars: string, i: nat, j: nat, m: Member, depth: nat)
    requires IsMember(chars, i, j, m, depth)
    ensures chars[i] == '"'
  {
  }

  lemma {:induction false} MembersReadOn(chars: string, i: nat, j: nat, written: seq<Member>, depth: nat, acc: seq<Member>)
    requires i <= j < |chars| && chars[j] == '}' && IsMembers(chars, i, j, written, depth + 1)
    ensures MembersAt(chars, i, depth, acc) == Ok(Read(acc + written, j + 1))
    decreases j - i, 4
  {
    hide IsMember, MemberAt;
    var a: nat, b: nat, c: nat :| MembersSplit(chars, i, j, written, depth + 1, a, b, c);
    var m := written[0];
    ValueEnds(chars, b, c);
    MemberReads(chars, a, b, m, depth);
    SkipIs(chars, i, a);
    MemberFrom(chars, i, a, depth);
    SkipIs(chars, b, c);
    if |written| == 1 {
      assert written == [m];
    } else {
      MembersReadOn(chars, c + 1, j, written[1..], depth, acc + [m]);
      assert acc + [m] + written[1..] == acc + written;
    }
  }

  /** Whitespace before a member is skipped. */
  lemma MemberFrom(chars: string, i: nat, a: nat, depth: nat)
    requires i <= a < |chars| && SkipSpace(chars, i) == a && chars[a] == '"'
    ensures MemberAt(chars, i, depth) == MemberAt(chars, a, depth)
  {
    hide StringBodyAt, ValueAt;
    assert SkipSpace(chars, a) == a;
  }

  // ---------------------------------------------------------------------------
  // Whatever is read is a text of the grammar
  // ---------------------------------------------------------------------------

  lemma {:induction false} ValueIsRead(chars: string, i: nat, depth: nat)
    requires i <= |chars| && ValueAt(chars, i, depth).Ok?
    ensures var r := ValueAt(chars, i, depth).value; IsValue(chars, i, r.next, r.value, depth)
    decreases |chars| - i, 1
  {
    hide IsValue, ObjectAt, ArrayAt, StringBodyAt, NumberAt, LiteralAt;
    if chars[i] == '{' {
      ObjectIsRead(chars, i, depth);
    } else if chars[i] == '[' {
      ArrayIsRead(chars, i, depth);
    } else {
      ScalarIsRead(chars, i, depth);
    }
  }

  lemma ScalarIsRead(chars: string, i: nat, depth: nat)
    requires i <= |chars| && ValueAt(chars, i, depth).Ok? && chars[i] !in "{["
    ensures var r := ValueAt(chars, i, depth).value; IsValue(chars, i, r.next, r.value, depth)
  {
    hide IsItems, IsMembers, IsInteger, Filled, IsString, StringBodyAt, NumberAt;
    var r := ValueAt(chars, i, depth).value;
    if chars[i] == '"' {
      StringIs(chars, i, r.value.s, r.next);
    } else if chars[i] in "tfn" {
      LiteralIs(chars, i, "true");
      LiteralIs(chars, i, "false");
      LiteralIs(chars, i, "null");
    } else {
      NumberIs(chars, i, r.value, r.next);
    }
  }

  lemma {:induction false} ObjectIsRead(chars: string, i: nat, depth: nat)
    requires i < |chars| && ObjectAt(chars, i, depth).Ok? && chars[i] == '{' && depth <= 128
    ensures var r := ObjectAt(chars, i, depth).value; IsValue(chars, i, r.next, r.value, depth)
    decreases |chars| - i, 0
  {
    hide IsItems, IsMembers, Filled, Collect, MembersAt;
    var r := ObjectAt(chars, i, depth).value;
    var start := SkipSpace(chars, i + 1);
    SkipIs(chars, i + 1, start);
    if !Sees(chars, start, '}') {
      MembersAreRead(chars, start, depth, []);
      var written := MembersAt(chars, start, depth, []).value.value;
      assert written[0..] == written;
      MembersFrom(chars, i + 1, start, r.next - 1, written, depth + 1);
      CollectIs(Collect(written), written);
      NoMembers(chars, i + 1, r.next - 1, depth + 1);
      CollectsSomething(written);
    }
  }

  lemma {:induction false} ArrayIsRead(chars: string, i: nat, depth: nat)
    requires i < |chars| && ArrayAt(chars, i, depth).Ok? && chars[i] == '[' && depth <= 128
    ensures var r := ArrayAt(chars, i, depth).value; IsValue(chars, i, r.next, r.value, depth)
    decreases |chars| - i, 0
  {
    hide IsItems, IsMembers, ItemsAt;
    var r := ArrayAt(chars, i, depth).value;
    var start := SkipSpace(chars, i + 1);
    SkipIs(chars, i + 1, start);
    if !Sees(chars, start, ']') {
      ItemsAreRead(chars, start, depth, []);
      var items := ItemsAt(chars, start, depth, []).value.value;
      assert items[0..] == items;
      ItemsFrom(chars, i + 1, start, r.next - 1, items, depth + 1);
      NoItems(chars, i + 1, r.next - 1, depth + 1);
    }
  }

  lemma NoItems(chars: string, i: nat, j: nat, depth: nat)
    ensures !IsItems(chars, i, j, [], depth)
  {
  }

  lemma NoMembers(chars: string, i: nat, j: nat, depth: nat)
    ensures !IsMembers(chars, i, j, [], depth)
  {
  }

  lemma BlanksJoin(chars: string, i: nat, k: nat, j: nat)
    requires Blank(chars, i, k) && Blank(chars, k, j)
    ensures Blank(chars, i, j)
  {
  }

  lemma ItemsFrom(chars: string, i: nat, start: nat, j: nat, items: seq<Json>, depth: nat)
    requires Blank(chars, i, start) && IsItems(chars, start, j, items, depth)
    ensures IsItems(chars, i, j, items, depth)
  {
    hide Blank, IsValue;
    var a: nat, b: nat, c: nat :| ItemsSplit(chars, start, j, items, depth, a, b, c);
    BlanksJoin(chars, i, start, a);
    BlankGoesUp(chars, i, start);
    assert ItemsSplit(chars, i, j, items, depth, a, b, c);
  }

  lemma MembersFrom(chars: string, i: nat, start: nat, j: nat, written: seq<Member>, depth: nat)
    requires Blank(chars, i, start) && IsMembers(chars, start, j, written, depth)
    ensures IsMembers(chars, i, j, written, depth)
  {
    hide Blank, IsMember;
    var a: nat, b: nat, c: nat :| MembersSplit(chars, start, j, written, depth, a, b, c);
    BlanksJoin(chars, i, start, a);
    BlankGoesUp(chars, i, start);
    assert MembersSplit(chars, i, j, written, depth, a, b, c);
  }

  lemma BlankGoesUp(chars: string, i: nat, j: nat)
    requires Blank(chars, i, j)
    ensures i <= j <= |chars|
  {
  }

  lemma {:induction false} ItemsAreRead(chars: string, i: nat, depth: nat, acc: seq<Json>)
    requires i <= |chars| && ItemsAt(chars, i, depth, acc).Ok?
    ensures var r := ItemsAt(chars, i, depth, acc).value;
      && acc <= r.value && i < r.next && chars[r.next - 1] == ']'
      && IsItems(chars, i, r.next - 1, r.value[|acc|..], depth + 1)
    decreases |chars| - i, 2
  {
    hide IsValue, ValueAt, Blank;
    var a := SkipSpace(chars, i);
    var item := ValueAt(chars, a, depth + 1).value;
    var c := SkipSpace(chars, item.next);
    SkipIs(chars, i, a);
    SkipIs(chars, item.next, c);
    ValueIsRead(chars, a, depth + 1);
    var r := ItemsAt(chars, i, depth, acc).value;
    if Sees(chars, c, ',') {
      ItemsAreRead(chars, c + 1, depth, acc + [item.value]);
      assert r.value[|acc|..] == [item.value] + r.value[|acc| + 1..];
    } else {
      assert r.value[|acc|..] == [item.value];
    }
    assert ItemsSplit(chars, i, r.next - 1, r.value[|acc|..], depth + 1, a, item.next, c);
  }

  lemma {:induction false} MemberIsRead(chars: string, i: nat, depth: nat)
    requires i <= |chars| && MemberAt(chars, i, depth).Ok?
    ensures var r := MemberAt(chars, i, depth).value;
      IsMember(chars, SkipSpace(chars, i), r.next, r.value, depth + 1)
    decreases |chars| - i, 1
  {
    hide IsValue, ValueAt, IsText, StringBodyAt, Blank;
    var start := SkipSpace(chars, i);
    var key := StringBodyAt(chars, start + 1, "").value;
    var colon := SkipSpace(chars, key.next);
    var from := SkipSpace(chars, colon + 1);
    StringIs(chars, start, key.value, key.next);
    SkipIs(chars, key.next, colon);
    SkipIs(chars, colon + 1, from);
    ValueIsRead(chars, from, depth + 1);
  }

  lemma {:induction false} MembersAreRead(chars: string, i: nat, depth: nat, acc: seq<Member>)
    requires i <= |chars| && MembersAt(chars, i, depth, acc).Ok?
    ensures var r := MembersAt(chars, i, depth, acc).value;
      && acc < r.value && i < r.next && chars[r.next - 1] == '}'
      && IsMembers(chars, i, r.next - 1, r.value[|acc|..], depth + 1)
    decreases |chars| - i, 2
  {
    hide IsMember, MemberAt, Blank;
    var a := SkipSpace(chars, i);
    var m := MemberAt(chars, i, depth).value;
    var c := SkipSpace(chars, m.next);
    SkipIs(chars, i, a);
    SkipIs(chars, m.next, c);
    MemberIsRead(chars, i, depth);
    MemberSpans(chars, a, m.next, m.value, depth + 1);
    var r := MembersAt(chars, i, depth, acc).value;
    if Sees(chars, c, ',') {
      MembersAreRead(chars, c + 1, depth, acc + [m.value]);
      assert r.value[|acc|..] == [m.value] + r.value[|acc| + 1..];
    } else {
      assert r.value[|acc|..] == [m.value];
    }
    assert MembersSplit(chars, i, r.next - 1, r.value[|acc|..], depth + 1, a, m.next, c);
  }

  lemma MemberSpans(chars: string, i: nat, j: nat, m: Member, depth: nat)
    requires IsMember(chars, i, j, m, depth)
    ensures i < j
  {
  }

  // ---------------------------------------------------------------------------
  // The law
  // ---------------------------------------------------------------------------

  /** A text parses to a value exactly if the grammar says that it denotes that value. */
  lemma ParseIff(text: string, v: Json)
    ensures Parse(text) == Ok(v) <==> IsDocument(text, v)
  {
    hide IsValue, ValueAt;
    if Parse(text) == Ok(v) {
      var a := SkipSpace(text, 0);
      var b := ValueAt(text, a, 0).value.next;
      SkipIs(text, 0, a);
      ValueIsRead(text, a, 0);
      SkipIs(text, b, |text|);
    }
    if IsDocument(text, v) {
      var a: nat, b: nat :| Blank(text, 0, a) && IsValue(text, a, b, v, 0) && Blank(text, b, |text|);
      ValueStarts(text, a, b, v, 0);
      ValueSpans(text, a, b, v, 0);
      SkipIs(text, 0, a);
      ValueEnds(text, b, |text|);
      ValueReads(text, a, b, v, 0);
      SkipIs(text, b, |text|);
    }
  }

  lemma ValueSpans(chars: string, i: nat, j: nat, v: Json, depth: nat)
    requires IsValue(chars, i, j, v, depth)
    ensures i < j <= |chars|
  {
  }

  /** The grammar is unambiguous: a text denotes at most one value, and that value prints to a text of its own. */
  lemma GrammarIsUnambiguous(text: string, v: Json, w: Json)
    requires IsDocument(text, v) && IsDocument(text, w)
    ensures v == w && IsDocument(Print(v), v)
  {
    ParseIff(text, v);
    ParseIff(text, w);
    PrintIsCanonical(text);
    ParseIff(Print(v), v);
  }
}
