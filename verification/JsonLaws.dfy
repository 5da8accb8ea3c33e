/** What the reader's errors mean, and that the writer's text of a value is a shortest one. */
module JsonLaws {
  import opened Orders
  import opened Text
  import opened Json
  import opened JsonRoundTrip
  import opened JsonGrammar

  // ---------------------------------------------------------------------------
  // Errors
  // ---------------------------------------------------------------------------

  /** The brackets and braces opened before `i`. */
  function Opened(chars: string, i: nat): nat
    requires i <= |chars|
  {
    if i == 0 then 0 else Opened(chars, i - 1) + if chars[i - 1] in "[{" then 1 else 0
  }

  lemma {:induction false} OpenedGrows(chars: string, i: nat, j: nat)
    requires i <= j <= |chars|
    ensures Opened(chars, i) <= Opened(chars, j)
    decreases j
  {
    if i < j {
      OpenedGrows(chars, i, j - 1);
    }
  }

  /** What an error says of the text. */
  ghost predicate Explains(text: string, e: JsonError) {
    match e
    case UnexpectedEof => true
    case UnexpectedChar(p) => p <= |text|
    case InvalidNumber(p) => p < |text| && NoInteger(text, p)
    case InvalidEscape(p) => p < |text| && text[p] == '\\' && NothingSpelled(text, p)
    case TrailingData(p) => p < |text| && text[p] !in " \t\n\r" && exists a, v :: EndsAt(text, a, p, v)
    case DepthExceeded => Opened(text, |text|) > 128
  }

  ghost predicate NoInteger(text: string, p: nat)
    requires p < |text|
  {
    (text[p] == '-' || exists d :: DigitIs(text[p], d)) && forall j, n | IsInteger(text, p, j, n) :: !Ends(text, j)
  }

  ghost predicate NothingSpelled(text: string, p: nat) {
    forall m, c :: !Spelled(text, p, m, c)
  }

  /** A value from `a`, and whitespace from its end up to `p`. */
  ghost predicate EndsAt(text: string, a: nat, p: nat, v: Json) {
    Blank(text, 0, a) && exists b :: IsValue(text, a, b, v, 0) && Blank(text, b, p)
  }

  lemma {:induction false} TextErrorExplains(chars: string, pos: nat, acc: string)
    requires pos <= |chars| && StringBodyAt(chars, pos, acc).Err?
    ensures Explains(chars, StringBodyAt(chars, pos, acc).error)
    decreases |chars| - pos
  {
    hide UnicodeAt, SimpleEscape, Spelled;
    if pos < |chars| && chars[pos] as int >= 0x20 {
      if chars[pos] != '\\' {
        TextErrorExplains(chars, pos + 1, acc + [chars[pos]]);
      } else if pos + 1 < |chars| {
        if SimpleEscape(chars[pos + 1]).Some? {
          TextErrorExplains(chars, pos + 2, acc + [SimpleEscape(chars[pos + 1]).value]);
          return;
        }
        EscapeErrorExplains(chars, pos, acc);
        if chars[pos + 1] == 'u' && UnicodeAt(chars, pos + 2, pos).Ok? {
          var unit := UnicodeAt(chars, pos + 2, pos).value;
          TextErrorExplains(chars, unit.next, acc + [unit.value]);
        }
      }
    }
  }

  lemma EscapeErrorExplains(chars: string, pos: nat, acc: string)
    requires pos + 1 < |chars| && chars[pos] == '\\' && SimpleEscape(chars[pos + 1]).None?
    ensures (chars[pos + 1] == 'u' && UnicodeAt(chars, pos + 2, pos).Ok?) || NothingSpelled(chars, pos)
    ensures UnicodeAt(chars, pos + 2, pos).Err? ==> UnicodeAt(chars, pos + 2, pos).error in {UnexpectedEof, InvalidEscape(pos)}
  {
    HexErrors(chars, pos + 2, 4, 0, pos);
    if pos + 8 <= |chars| {
      HexErrors(chars, pos + 8, 4, 0, pos);
    }
    hide UnicodeAt, SimpleEscape, HexAt, FourHex;
    forall m: nat, c | Spelled(chars, pos, m, c) ensures chars[pos + 1] == 'u' && UnicodeAt(chars, pos + 2, pos).Ok? {
      ShortIs(chars[pos + 1], c);
      UnicodeIs(chars, pos + 2, c, m, pos);
    }
  }

  lemma {:induction false} HexErrors(chars: string, pos: nat, count: nat, value: nat, escPos: nat)
    requires pos <= |chars|
    ensures var r := HexAt(chars, pos, count, value, escPos); r.Err? ==> r.error in {UnexpectedEof, InvalidEscape(escPos)}
    decreases count
  {
    if count > 0 && pos < |chars| && HexDigit(chars[pos]).Some? {
      HexErrors(chars, pos + 1, count - 1, value * 16 + HexDigit(chars[pos]).value, escPos);
    }
  }

  lemma NumberErrorExplains(chars: string, i: nat)
    requires i < |chars| && (chars[i] == '-' || IsDigit(chars[i])) && NumberAt(chars, i).Err?
    ensures Explains(chars, NumberAt(chars, i).error)
  {
    hide NumberEnd, IntegerOf, IsInteger;
    forall j: nat, n | IsInteger(chars, i, j, n) ensures !Ends(chars, j) {
      NumberIs(chars, i, Number(n), j);
    }
    if chars[i] != '-' {
      DigitIsIts(chars[i], DigitValue(chars[i]));
    }
  }

  lemma {:induction false} ValueErrorExplains(chars: string, i: nat, depth: nat)
    requires i <= |chars| && depth <= Opened(chars, i) && ValueAt(chars, i, depth).Err?
    ensures Explains(chars, ValueAt(chars, i, depth).error)
    decreases |chars| - i, 1
  {
    hide Explains, ObjectAt, ArrayAt, StringBodyAt, NumberAt;
    if depth > 128 {
      OpenedGrows(chars, i, |chars|);
      TooDeep(chars);
    } else if i == |chars| {
      Ended(chars);
    } else if chars[i] == '{' {
      ObjectErrorExplains(chars, i, depth);
    } else if chars[i] == '[' {
      ArrayErrorExplains(chars, i, depth);
    } else if chars[i] == '"' {
      TextErrorExplains(chars, i + 1, "");
    } else if chars[i] == '-' || IsDigit(chars[i]) {
      NumberErrorExplains(chars, i);
    } else {
      Misplaced(chars, i);
    }
  }

  lemma TooDeep(chars: string)
    requires Opened(chars, |chars|) > 128
    ensures Explains(chars, DepthExceeded)
  {
  }

  lemma Ended(chars: string)
    ensures Explains(chars, UnexpectedEof)
  {
  }

  lemma Misplaced(chars: string, p: nat)
    requires p <= |chars|
    ensures Explains(chars, UnexpectedChar(p)) && Explains(chars, BumpError(chars, p))
  {
  }

  lemma {:induction false} ArrayErrorExplains(chars: string, i: nat, depth: nat)
    requires i < |chars| && chars[i] == '[' && depth <= Opened(chars, i) && ArrayAt(chars, i, depth).Err?
    ensures Explains(chars, ArrayAt(chars, i, depth).error)
    decreases |chars| - i, 0
  {
    hide Explains, ItemsAt;
    OpenedGrows(chars, i + 1, SkipSpace(chars, i + 1));
    ItemsErrorExplains(chars, SkipSpace(chars, i + 1), depth, []);
  }

  lemma {:induction false} ObjectErrorExplains(chars: string, i: nat, depth: nat)
    requires i < |chars| && chars[i] == '{' && depth <= Opened(chars, i) && ObjectAt(chars, i, depth).Err?
    ensures Explains(chars, ObjectAt(chars, i, depth).error)
    decreases |chars| - i, 0
  {
    hide Explains, MembersAt;
    OpenedGrows(chars, i + 1, SkipSpace(chars, i + 1));
    MembersErrorExplains(chars, SkipSpace(chars, i + 1), depth, []);
  }

  lemma {:induction false} ItemsErrorExplains(chars: string, i: nat, depth: nat, acc: seq<Json>)
    requires i <= |chars| && depth < Opened(chars, i) && ItemsAt(chars, i, depth, acc).Err?
    ensures Explains(chars, ItemsAt(chars, i, depth, acc).error)
    decreases |chars| - i, 2
  {
    hide Explains, ValueAt, Opened;
    var a := SkipSpace(chars, i);
    OpenedGrows(chars, i, a);
    var item := ValueAt(chars, a, depth + 1);
    if item.Err? {
      ValueErrorExplains(chars, a, depth + 1);
    } else {
      var c := SkipSpace(chars, item.value.next);
      Misplaced(chars, c);
      if Sees(chars, c, ',') {
        OpenedGrows(chars, i, c + 1);
        ItemsErrorExplains(chars, c + 1, depth, acc + [item.value.value]);
      }
    }
  }

  lemma {:induction false} MembersErrorExplains(chars: string, i: nat, depth: nat, acc: seq<Member>)
    requires i <= |chars| && depth < Opened(chars, i) && MembersAt(chars, i, depth, acc).Err?
    ensures Explains(chars, MembersAt(chars, i, depth, acc).error)
    decreases |chars| - i, 2
  {
    hide Explains, MemberAt, Opened;
    var m := MemberAt(chars, i, depth);
    if m.Err? {
      MemberErrorExplains(chars, i, depth);
    } else {
      var c := SkipSpace(chars, m.value.next);
      Misplaced(chars, c);
      if Sees(chars, c, ',') {
        OpenedGrows(chars, i, c + 1);
        MembersErrorExplains(chars, c + 1, depth, acc + [m.value.value]);
      }
    }
  }

  lemma {:induction false} MemberErrorExplains(chars: string, i: nat, depth: nat)
    requires i <= |chars| && depth < Opened(chars, i) && MemberAt(chars, i, depth).Err?
    ensures Explains(chars, MemberAt(chars, i, depth).error)
    decreases |chars| - i, 1
  {
    hide Explains, ValueAt, StringBodyAt, Opened;
    var start := SkipSpace(chars, i);
    Misplaced(chars, start);
    if Sees(chars, start, '"') {
      var key := StringBodyAt(chars, start + 1, "");
      if key.Err? {
        TextErrorExplains(chars, start + 1, "");
      } else {
        var colon := SkipSpace(chars, key.value.next);
        Misplaced(chars, colon);
        if Sees(chars, colon, ':') {
          var from := SkipSpace(chars, colon + 1);
          OpenedGrows(chars, i, from);
          ValueErrorExplains(chars, from, depth + 1);
        }
      }
    }
  }

  /**
   An error is true of the text: a bad escape and a bad number stand at the reported place, trailing data
   follows a whole value, and the depth error is for more than 128 open brackets.
   */
  lemma ErrorExplains(text: string)
    requires Parse(text).Err?
    ensures Explains(text, Parse(text).error)
  {
    hide ValueAt, IsValue;
    var a := SkipSpace(text, 0);
    var value := ValueAt(text, a, 0);
    if value.Err? {
      ValueErrorExplains(text, a, 0);
    } else {
      var b := value.value.next;
      var p := SkipSpace(text, b);
      SkipIs(text, 0, a);
      SkipIs(text, b, p);
      ValueIsRead(text, a, 0);
      assert EndsAt(text, a, p, value.value.value);
    }
  }

  // ---------------------------------------------------------------------------
  // The writer's text is a shortest one
  // ---------------------------------------------------------------------------

  lemma SpelledLength(chars: string, i: nat, j: nat, c: char)
    requires Spelled(chars, i, j, c)
    ensures |EscapeChar(c)| <= j - i
  {
    if j == i + 2 {
      ShortsAreShort(chars[i + 1], c);
    }
  }

  lemma ShortsAreShort(e: char, c: char)
    ensures ShortEscape(e, c) ==> |EscapeChar(c)| <= 2
  {
  }

  lemma {:induction false} TextLength(chars: string, i: nat, j: nat, s: string)
    requires IsText(chars, i, j, s)
    ensures i <= j && |Escape(s)| <= j - i
    decreases |s|
  {
    hide Spelled, EscapeChar;
    if s != "" {
      var m: nat :| i < m <= j && Spelled(chars, i, m, s[0]) && IsText(chars, m, j, s[1..]);
      SpelledLength(chars, i, m, s[0]);
      TextLength(chars, m, j, s[1..]);
    }
  }

  lemma StringLength(chars: string, i: nat, j: nat, s: string)
    requires IsString(chars, i, j, s)
    ensures |Quote(s)| <= j - i
  {
    TextLength(chars, i + 1, j - 1, s);
  }

  lemma {:induction false} NumeralLength(chars: string, i: nat, j: nat, n: int)
    requires IsNumeral(chars, i, j, n)
    ensures n >= 0 && |Decimal(n)| <= j - i
    decreases j
  {
    if j > i + 1 {
      NumeralLength(chars, i, j - 1, n / 10);
    }
  }

  lemma IntegerLength(chars: string, i: nat, j: nat, n: int)
    requires IsInteger(chars, i, j, n)
    ensures |FormatInteger(n)| <= j - i
  {
    if chars[i] == '-' {
      NumeralLength(chars, i + 1, j, -n);
      if n == 0 {
        assert Decimal(-n) == Decimal(n);
      }
    } else {
      NumeralLength(chars, i, j, n);
    }
  }

  lemma {:induction false} ValueLength(chars: string, i: nat, j: nat, v: Json, depth: nat)
    requires IsValue(chars, i, j, v, depth)
    ensures |Print(v)| <= j - i
    decreases j - i, 0
  {
    hide IsItems, IsMembers, IsInteger, Filled, IsString, Collect, FormatInteger, Quote;
    match v {
      case Number(n) => IntegerLength(chars, i, j, n);
      case Str(s) => StringLength(chars, i, j, s);
      case Array(items) =>
        if items != [] {
          assert items[0..] == items;
          ItemsLength(chars, i + 1, j - 1, items, 0, depth + 1);
        }
      case Object(members) =>
        if members != [] {
          var written :| IsMembers(chars, i + 1, j - 1, written, depth + 1) && Filled(members, written);
          CollectIs(members, written);
          MembersLength(chars, i + 1, j - 1, written, depth + 1);
          CollectWidth(written);
          PrintedWidth(members, 0);
        }
      case _ =>
    }
  }

  lemma {:induction false} ItemsLength(chars: string, i: nat, j: nat, items: seq<Json>, k: nat, depth: nat)
    requires k < |items| && IsItems(chars, i, j, items[k..], depth)
    ensures |PrintItems(items, k)| <= j - i + if k > 0 then 1 else 0
    decreases j - i, 2
  {
    hide IsValue, Print;
    var rest := items[k..];
    var a: nat, b: nat, c: nat :| ItemsSplit(chars, i, j, rest, depth, a, b, c);
    ValueLength(chars, a, b, items[k], depth);
    if k + 1 < |items| {
      assert rest[1..] == items[k + 1..];
      ItemsLength(chars, c + 1, j, items, k + 1, depth);
    }
  }

  /** The printed members with a comma after each. */
  function Width(members: seq<Member>): nat {
    if members == [] then 0 else |PrintMember(members[0])| + 1 + Width(members[1..])
  }

  lemma {:induction false} PrintedWidth(members: seq<Member>, i: nat)
    requires i < |members|
    ensures |PrintMembers(members, i)| + (if i == 0 then 1 else 0) == Width(members[i..])
    decreases |members| - i
  {
    hide PrintMember;
    assert members[i..][1..] == members[i + 1..];
    if i + 1 < |members| {
      PrintedWidth(members, i + 1);
    }
  }

  lemma {:induction false} PutWidth(members: seq<Member>, key: string, value: Json)
    ensures Width(Put(members, key, value)) <= Width(members) + |PrintMember(Member(key, value))| + 1
  {
    hide PrintMember;
    var put := Put(members, key, value);
    if members != [] && members[0].key != key && !StrLess(key, members[0].key) {
      PutWidth(members[1..], key, value);
      assert put[1..] == Put(members[1..], key, value);
    } else if members != [] && members[0].key == key {
      assert put[1..] == members[1..];
    } else {
      assert put[1..] == members;
    }
  }

  lemma {:induction false} WidthSnoc(members: seq<Member>, m: Member)
    ensures Width(members + [m]) == Width(members) + |PrintMember(m)| + 1
  {
    hide PrintMember;
    if members == [] {
      assert [] + [m] == [m];
    } else {
      assert (members + [m])[1..] == members[1..] + [m];
      WidthSnoc(members[1..], m);
    }
  }

  lemma {:induction false} CollectWidth(written: seq<Member>)
    ensures Width(Collect(written)) <= Width(written)
  {
    hide PrintMember, Width;
    if written == [] {
      CollectNothing();
    } else {
      var n := |written| - 1;
      var before, last := written[..n], written[n];
      assert written == before + [last];
      CollectWidth(before);
      PutWidth(Collect(before), last.key, last.value);
      WidthSnoc(before, last);
    }
  }

  lemma {:induction false} MemberLength(chars: string, i: nat, j: nat, m: Member, depth: nat)
    requires IsMember(chars, i, j, m, depth)
    ensures |PrintMember(m)| <= j - i
    decreases j - i, 1
  {
    hide IsValue, IsString, Quote, Print;
    var a: nat, b: nat, c: nat :| && i < a <= b < c < j <= |chars| && chars[b] == ':'
      && IsString(chars, i, a, m.key) && Blank(chars, a, b) && Blank(chars, b + 1, c) && IsValue(chars, c, j, m.value, depth);
    StringLength(chars, i, a, m.key);
    ValueLength(chars, c, j, m.value, depth);
  }

  lemma {:induction false} MembersLength(chars: string, i: nat, j: nat, written: seq<Member>, depth: nat)
    requires IsMembers(chars, i, j, written, depth)
    ensures Width(written) <= j - i + 1
    decreases j - i, 2
  {
    hide IsMember, PrintMember;
    var a: nat, b: nat, c: nat :| MembersSplit(chars, i, j, written, depth, a, b, c);
    MemberLength(chars, a, b, written[0], depth);
    if |written| > 1 {
      MembersLength(chars, c + 1, j, written[1..], depth);
    }
  }

  /** Escapes are written in lower case. */
  lemma EscapesAreLower(c: char)
    ensures EscapeChar(c) == [c] || forall x | x in EscapeChar(c) :: x !in "ABCDEF"
  {
  }

  /** No text that denotes a value is shorter than the printed one, which denotes it too. */
  lemma PrintIsShortest(text: string, v: Json)
    requires IsDocument(text, v)
    ensures IsDocument(Print(v), v) && |Print(v)| <= |text|
  {
    hide IsValue, Print;
    GrammarIsUnambiguous(text, v, v);
    var a: nat, b: nat :| Blank(text, 0, a) && IsValue(text, a, b, v, 0) && Blank(text, b, |text|);
    ValueLength(text, a, b, v, 0);
  }
}
