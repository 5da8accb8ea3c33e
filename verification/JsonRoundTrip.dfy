/** What the writer prints, the reader reads back: the laws tying the two halves of Json together. */
module JsonRoundTrip {
  import opened Orders
  import opened Text
  import opened Json

  // ---------------------------------------------------------------------------
  // Nesting
  // ---------------------------------------------------------------------------

  function Max(a: nat, b: nat): nat {
    if a < b then b else a
  }

  /** How many containers enclose the most deeply nested value inside `j`. */
  function Height(j: Json): nat {
    match j
    case Array(items) => if items == [] then 0 else 1 + ItemsHeight(items, 0)
    case Object(members) => if members == [] then 0 else 1 + MembersHeight(members, 0)
    case _ => 0
  }

  function ItemsHeight(items: seq<Json>, i: nat): nat
    requires i <= |items|
    decreases items, |items| - i
  {
    if i == |items| then 0 else Max(Height(items[i]), ItemsHeight(items, i + 1))
  }

  function MembersHeight(members: seq<Member>, i: nat): nat
    requires i <= |members|
    decreases members, |members| - i
  {
    if i == |members| then 0 else Max(MemberHeight(members[i]), MembersHeight(members, i + 1))
  }

  function MemberHeight(m: Member): nat {
    Height(m.value)
  }

  // ---------------------------------------------------------------------------
  // Positions in a text
  // ---------------------------------------------------------------------------

  lemma HasSplit(chars: string, pos: nat, a: string, b: string)
    requires Has(chars, pos, a + b)
    ensures Has(chars, pos, a) && Has(chars, pos + |a|, b)
  {
    forall i | 0 <= i < |a| ensures chars[pos + i] == a[i] {
      assert (a + b)[i] == a[i];
    }
    forall i | 0 <= i < |b| ensures chars[pos + |a| + i] == b[i] {
      assert (a + b)[|a| + i] == b[i];
    }
  }

  lemma HasThree(chars: string, pos: nat, a: string, b: string, c: string)
    requires Has(chars, pos, (a + b) + c)
    ensures Has(chars, pos, a) && Has(chars, pos + |a|, b + c)
  {
    assert (a + b) + c == a + (b + c);
    HasSplit(chars, pos, a, b + c);
  }

  lemma HasFour(chars: string, pos: nat, a: string, b: string, c: string, d: string)
    requires Has(chars, pos, ((a + b) + c) + d)
    ensures Has(chars, pos, a) && Has(chars, pos + |a|, b + (c + d))
  {
    assert ((a + b) + c) + d == a + (b + (c + d));
    HasSplit(chars, pos, a, b + (c + d));
  }

  lemma HasSuffix(chars: string, pos: nat, text: string, k: nat)
    requires Has(chars, pos, text) && k <= |text|
    ensures Has(chars, pos + k, text[k..])
  {
    forall i | 0 <= i < |text[k..]| ensures chars[pos + k + i] == text[k..][i] {
      assert chars[pos + (k + i)] == text[k + i];
    }
  }

  lemma HasChar(chars: string, pos: nat, text: string, i: nat)
    requires Has(chars, pos, text) && i < |text|
    ensures pos + i < |chars| && chars[pos + i] == text[i]
  {
  }

  /** Nothing at `pos` could prolong a number. */
  predicate Ends(chars: string, pos: nat) {
    pos <= |chars| && (pos < |chars| ==> !NumberChar(chars[pos]))
  }

  // ---------------------------------------------------------------------------
  // Strings
  // ---------------------------------------------------------------------------

  lemma EscapedControlReadsBack(chars: string, pos: nat, c: char, escPos: nat)
    requires c as int < 0x20 && Has(chars, pos, "00" + [HexChar(c as int / 16), HexChar(c as int % 16)])
    ensures UnicodeAt(chars, pos, escPos) == Ok(Read(c, pos + 4))
  {
    var text := "00" + [HexChar(c as int / 16), HexChar(c as int % 16)];
    HasChar(chars, pos, text, 0);
    HasChar(chars, pos, text, 1);
    HasChar(chars, pos, text, 2);
    HasChar(chars, pos, text, 3);
    assert HexAt(chars, pos + 4, 0, c as int, escPos) == Ok(Read(c as int, pos + 4));
    assert HexAt(chars, pos + 3, 1, c as int / 16, escPos) == Ok(Read(c as int, pos + 4));
    assert HexAt(chars, pos + 2, 2, 0, escPos) == Ok(Read(c as int, pos + 4));
    assert HexAt(chars, pos + 1, 3, 0, escPos) == Ok(Read(c as int, pos + 4));
  }

  lemma CharReadsBack(chars: string, pos: nat, c: char, acc: string)
    requires Has(chars, pos, EscapeChar(c))
    ensures StringBodyAt(chars, pos, acc) == StringBodyAt(chars, pos + |EscapeChar(c)|, acc + [c])
  {
    var text := EscapeChar(c);
    HasChar(chars, pos, text, 0);
    if |text| == 2 {
      HasChar(chars, pos, text, 1);
    } else if |text| > 2 {
      ControlReadsBack(chars, pos, c, acc);
    }
  }

  lemma ControlReadsBack(chars: string, pos: nat, c: char, acc: string)
    requires Has(chars, pos, EscapeChar(c)) && |EscapeChar(c)| > 2
    ensures StringBodyAt(chars, pos, acc) == StringBodyAt(chars, pos + 6, acc + [c]) && |EscapeChar(c)| == 6
  {
    hide UnicodeAt, HexAt, StringBodyAt;
    var text := EscapeChar(c);
    HasChar(chars, pos, text, 0);
    HasChar(chars, pos, text, 1);
    HasSuffix(chars, pos, text, 2);
    assert text[2..] == "00" + [HexChar(c as int / 16), HexChar(c as int % 16)];
    EscapedControlReadsBack(chars, pos + 2, c, pos);
    StringEscapeTurn(chars, pos, acc, c);
  }

  lemma StringEscapeTurn(chars: string, pos: nat, acc: string, c: char)
    requires pos + 6 <= |chars| && chars[pos] == '\\' && chars[pos + 1] == 'u'
    requires UnicodeAt(chars, pos + 2, pos) == Ok(Read(c, pos + 6))
    ensures StringBodyAt(chars, pos, acc) == StringBodyAt(chars, pos + 6, acc + [c])
  {
    hide UnicodeAt;
  }

  lemma EscapeLayout(chars: string, pos: nat, s: string)
    requires s != "" && Has(chars, pos, Escape(s) + "\"")
    ensures Has(chars, pos, EscapeChar(s[0]))
    ensures Has(chars, pos + |EscapeChar(s[0])|, Escape(s[1..]) + "\"")
    ensures |Escape(s)| == |EscapeChar(s[0])| + |Escape(s[1..])|
  {
    HasThree(chars, pos, EscapeChar(s[0]), Escape(s[1..]), "\"");
  }

  lemma {:induction false} StringReadsBack(chars: string, pos: nat, s: string, acc: string)
    requires Has(chars, pos, Escape(s) + "\"")
    ensures StringBodyAt(chars, pos, acc) == Ok(Read(acc + s, pos + |Escape(s)| + 1))
    decreases |s|
  {
    if s == "" {
      assert Escape(s) + "\"" == "\"";
      HasChar(chars, pos, "\"", 0);
      assert acc + s == acc;
    } else {
      hide EscapeChar, StringBodyAt;
      EscapeLayout(chars, pos, s);
      CharReadsBack(chars, pos, s[0], acc);
      StringReadsBack(chars, pos + |EscapeChar(s[0])|, s[1..], acc + [s[0]]);
      assert acc + [s[0]] + s[1..] == acc + s;
    }
  }

  /** A quoted string reads back, given the offset of its opening quote. */
  lemma QuoteReadsBack(chars: string, pos: nat, s: string)
    requires Has(chars, pos, Quote(s))
    ensures Sees(chars, pos, '"')
    ensures StringBodyAt(chars, pos + 1, "") == Ok(Read(s, pos + |Quote(s)|))
  {
    assert Quote(s) == "\"" + (Escape(s) + "\"");
    HasSplit(chars, pos, "\"", Escape(s) + "\"");
    HasChar(chars, pos, "\"", 0);
    StringReadsBack(chars, pos + 1, s, "");
    assert "" + s == s;
  }

  // ---------------------------------------------------------------------------
  // Numbers
  // ---------------------------------------------------------------------------

  lemma {:induction false} NumberEndsAt(chars: string, pos: nat, end: nat)
    requires pos <= end && Ends(chars, end)
    requires forall i | pos <= i < end :: NumberChar(chars[i])
    ensures NumberEnd(chars, pos) == end
    decreases end - pos
  {
    if pos < end {
      NumberEndsAt(chars, pos + 1, end);
    }
  }

  lemma IntegerReadsBack(n: int)
    ensures IntegerOf(FormatInteger(n)) == Some(n)
    ensures FormatInteger(n) != "" && (FormatInteger(n)[0] == '-' || IsDigit(FormatInteger(n)[0]))
    ensures forall c | c in FormatInteger(n) :: NumberChar(c)
  {
    if n < 0 {
      DecimalReadsBack(-n);
      assert FormatInteger(n)[1..] == Decimal(-n);
    } else {
      DecimalReadsBack(n);
      assert FormatInteger(n)[0] in Decimal(n);
    }
  }

  lemma NumberReadsBack(chars: string, pos: nat, n: int)
    requires Has(chars, pos, FormatInteger(n)) && Ends(chars, pos + |FormatInteger(n)|)
    ensures pos < |chars| && (chars[pos] == '-' || IsDigit(chars[pos]))
    ensures NumberAt(chars, pos) == Ok(Read(Number(n), pos + |FormatInteger(n)|))
  {
    var text := FormatInteger(n);
    var end := pos + |text|;
    IntegerReadsBack(n);
    assert chars[pos..end] == text;
    HasChar(chars, pos, text, 0);
    forall i | pos <= i < end ensures NumberChar(chars[i]) {
      HasChar(chars, pos, text, i - pos);
    }
    NumberEndsAt(chars, pos, end);
  }

  // ---------------------------------------------------------------------------
  // Values
  // ---------------------------------------------------------------------------

  /** A printed value starts with neither a space nor a closing bracket. */
  lemma PrintStarts(j: Json)
    ensures Print(j) != ""
    ensures !IsSpace(Print(j)[0]) && Print(j)[0] != ']'
  {
    if j.Number? {
      IntegerReadsBack(j.n);
    }
  }

  lemma NoSpaceToSkip(chars: string, pos: nat)
    requires pos < |chars| && !IsSpace(chars[pos])
    ensures SkipSpace(chars, pos) == pos
  {
  }

  function Expected<T>(j: T, depth: nat, height: nat, end: nat): Parsed<T> {
    if depth + height <= MAX_DEPTH then Ok(Read(j, end)) else Err(DepthExceeded)
  }

  /** Reading a printed value yields that value, or the depth error exactly when it is nested too deeply. */
  lemma {:induction false} ValueReadsBack(chars: string, pos: nat, j: Json, depth: nat)
    requires Has(chars, pos, Print(j)) && Ends(chars, pos + |Print(j)|) && WellFormed(j)
    ensures ValueAt(chars, pos, depth) == Expected(j, depth, Height(j), pos + |Print(j)|)
    decreases j, 1
  {
    if depth <= MAX_DEPTH {
      PrintStarts(j);
      HasChar(chars, pos, Print(j), 0);
      match j {
        case Null =>
        case Bool(b) =>
          if Has(chars, pos, "true") {
            HasChar(chars, pos, "true", 0);
          }
        case Number(n) => NumberReadsBack(chars, pos, n);
        case Str(s) => QuoteReadsBack(chars, pos, s);
        case Array(_) =>
          hide ArrayAt;
          ArrayReadsBack(chars, pos, j, depth);
        case Object(_) =>
          hide ObjectAt;
          ObjectReadsBack(chars, pos, j, depth);
      }
    }
  }

  lemma {:induction false} ArrayReadsBack(chars: string, pos: nat, j: Json, depth: nat)
    requires j.Array? && Has(chars, pos, Print(j)) && WellFormed(j) && depth <= MAX_DEPTH
    ensures ArrayAt(chars, pos, depth) == Expected(j, depth, Height(j), pos + |Print(j)|)
    decreases j, 0
  {
    var items := j.items;
    hide ItemsAt;
    HasThree(chars, pos, "[", PrintItems(items, 0), "]");
    if items == [] {
      HasChar(chars, pos + 1, PrintItems(items, 0) + "]", 0);
    } else {
      HasFour(chars, pos + 1, "", Print(items[0]), PrintItems(items, 1), "]");
      ItemsLayout(chars, pos + 1, items, 0);
      ItemsReadBack(chars, pos + 1, items, 0, pos + |Print(j)|, depth);
      PrintStarts(items[0]);
      HasChar(chars, pos + 1, Print(items[0]), 0);
      assert items[..0] == [];
    }
    NoSpaceToSkip(chars, pos + 1);
  }

  /** The printed items from `i` on stand at `pos`, and the list's closing bracket just before `end`. */
  ghost predicate ItemsLaid(chars: string, pos: nat, items: seq<Json>, i: nat, end: nat)
    requires i < |items|
    decreases |items| - i
  {
    var stop := pos + |Print(items[i])|;
    && Has(chars, pos, Print(items[i])) && stop < |chars|
    && if i + 1 == |items| then chars[stop] == ']' && end == stop + 1
       else chars[stop] == ',' && ItemsLaid(chars, stop + 1, items, i + 1, end)
  }

  lemma {:induction false} ItemsLayout(chars: string, pos: nat, items: seq<Json>, i: nat)
    requires i < |items| && Has(chars, pos, Print(items[i]) + (PrintItems(items, i + 1) + "]"))
    ensures ItemsLaid(chars, pos, items, i, pos + |Print(items[i])| + |PrintItems(items, i + 1)| + 1)
    decreases |items| - i
  {
    var item, rest := Print(items[i]), PrintItems(items, i + 1) + "]";
    HasSplit(chars, pos, item, rest);
    HasChar(chars, pos + |item|, rest, 0);
    if i + 1 < |items| {
      HasFour(chars, pos + |item|, ",", Print(items[i + 1]), PrintItems(items, i + 2), "]");
      ItemsLayout(chars, pos + |item| + 1, items, i + 1);
    }
  }

  lemma {:induction false} ItemsReadBack(chars: string, pos: nat, items: seq<Json>, i: nat, end: nat, depth: nat)
    requires i < |items| && depth <= MAX_DEPTH && ItemsLaid(chars, pos, items, i, end)
    requires forall x | x in items :: WellFormed(x)
    ensures ItemsAt(chars, pos, depth, items[..i]) == Expected(items, depth, 1 + ItemsHeight(items, i), end)
    decreases items, 3, |items| - i
  {
    hide PrintItems, WellFormed, Height, ValueAt;
    var item := items[i];
    PrintStarts(item);
    HasChar(chars, pos, Print(item), 0);
    NoSpaceToSkip(chars, pos);
    var stop := pos + |Print(item)|;
    NoSpaceToSkip(chars, stop);
    ValueReadsBack(chars, pos, item, depth + 1);
    assert items[..i] + [item] == items[..i + 1];
    if i + 1 == |items| {
      assert items[..i + 1] == items;
    } else {
      ItemsReadBack(chars, stop + 1, items, i + 1, end, depth);
    }
  }

  lemma {:induction false} ObjectReadsBack(chars: string, pos: nat, j: Json, depth: nat)
    requires j.Object? && Has(chars, pos, Print(j)) && WellFormed(j) && depth <= MAX_DEPTH
    ensures ObjectAt(chars, pos, depth) == Expected(j, depth, Height(j), pos + |Print(j)|)
    decreases j, 0
  {
    hide ObjectAt, Collect;
    CollectSorted(j.members);
    MapReadsBack(chars, pos, j.members, depth);
  }

  lemma {:induction false} MapReadsBack(chars: string, pos: nat, members: seq<Member>, depth: nat)
    requires Has(chars, pos, Print(Object(members))) && depth <= MAX_DEPTH
    requires forall m | m in members :: MemberWellFormed(m)
    ensures ObjectAt(chars, pos, depth)
         == Expected(Object(Collect(members)), depth, Height(Object(members)), pos + |Print(Object(members))|)
    decreases members, 5
  {
    if members == [] {
      HasThree(chars, pos, "{", PrintMembers(members, 0), "}");
      HasChar(chars, pos + 1, PrintMembers(members, 0) + "}", 0);
      NoSpaceToSkip(chars, pos + 1);
    } else {
      MapBodyReadsBack(chars, pos, members, depth);
      hide MembersAt, Collect, Height, Print;
      assert ObjectAt(chars, pos, depth)
          == match MembersAt(chars, pos + 1, depth, [])
             case Ok(read) => Ok(Read(Object(Collect(read.value)), read.next))
             case Err(e) => Err(e);
    }
  }

  lemma {:induction false} MapBodyReadsBack(chars: string, pos: nat, members: seq<Member>, depth: nat)
    requires members != [] && Has(chars, pos, Print(Object(members))) && depth <= MAX_DEPTH
    requires forall m | m in members :: MemberWellFormed(m)
    ensures Sees(chars, pos + 1, '"') && SkipSpace(chars, pos + 1) == pos + 1
    ensures MembersAt(chars, pos + 1, depth, [])
         == Expected(members, depth, Height(Object(members)), pos + |Print(Object(members))|)
    decreases members, 4
  {
    hide PrintMember, PrintMembers, Print, MembersAt, MemberWellFormed, WellFormed, MemberHeight, MembersHeight;
    var end := pos + |Print(Object(members))|;
    MapLayout(chars, pos, members);
    MembersReadBack(chars, pos + 1, members, 0, end, depth);
    assert members[..0] == [];
  }

  lemma MapLayout(chars: string, pos: nat, members: seq<Member>)
    requires members != [] && Has(chars, pos, Print(Object(members)))
    ensures Sees(chars, pos + 1, '"') && SkipSpace(chars, pos + 1) == pos + 1
    ensures MembersLaid(chars, pos + 1, members, 0, pos + |Print(Object(members))|)
  {
    var first, rest := PrintMember(members[0]), PrintMembers(members, 1);
    HasThree(chars, pos, "{", PrintMembers(members, 0), "}");
    HasFour(chars, pos + 1, "", first, rest, "}");
    assert |Print(Object(members))| == 2 + |first| + |rest|;
    hide PrintMember, Print;
    MembersLayout(chars, pos + 1, members, 0);
    MemberLayout(chars, pos + 1, members[0]);
  }

  lemma MemberLayout(chars: string, pos: nat, m: Member)
    requires Has(chars, pos, PrintMember(m))
    ensures Has(chars, pos, Quote(m.key)) && Sees(chars, pos, '"') && SkipSpace(chars, pos) == pos
    ensures var colon := pos + |Quote(m.key)|;
            && Sees(chars, colon, ':') && SkipSpace(chars, colon) == colon
            && Has(chars, colon + 1, Print(m.value)) && SkipSpace(chars, colon + 1) == colon + 1
            && pos + |PrintMember(m)| == colon + 1 + |Print(m.value)|
  {
    var key, value := Quote(m.key), Print(m.value);
    PrintStarts(m.value);
    assert key[0] == '"';
    hide Escape, Print, PrintMember;
    HasThree(chars, pos, key, ":", value);
    HasChar(chars, pos, key, 0);
    HasSplit(chars, pos + |key|, ":", value);
    HasChar(chars, pos + |key|, ":", 0);
    HasChar(chars, pos + |key| + 1, value, 0);
  }

  lemma {:induction false} MemberReadsBack(chars: string, pos: nat, m: Member, depth: nat)
    requires WellFormed(m.value) && Has(chars, pos, PrintMember(m)) && Ends(chars, pos + |PrintMember(m)|)
    ensures MemberAt(chars, pos, depth)
         == if depth + 1 + Height(m.value) <= MAX_DEPTH then Ok(Read(m, pos + |PrintMember(m)|)) else Err(DepthExceeded)
    decreases m, 2
  {
    hide PrintMember, Print, Quote, Escape, WellFormed, Height, StringBodyAt, ValueAt;
    MemberLayout(chars, pos, m);
    QuoteReadsBack(chars, pos, m.key);
    ValueReadsBack(chars, pos + |Quote(m.key)| + 1, m.value, depth + 1);
  }

  lemma {:induction false} PutAppends(members: seq<Member>, key: string, value: Json)
    requires forall m | m in members :: StrLess(m.key, key)
    ensures Put(members, key, value) == members + [Member(key, value)]
  {
    if members != [] {
      StrLessTotal(members[0].key, key);
      PutAppends(members[1..], key, value);
    }
  }

  lemma {:induction false} CollectSorted(members: seq<Member>)
    requires KeysAscend(members)
    ensures Collect(members) == members
  {
    if members != [] {
      var init, last := members[..|members| - 1], members[|members| - 1];
      CollectSorted(init);
      PutAppends(init, last.key, last.value);
    }
  }

  /** The printed members from `i` on stand at `pos`, and the closing brace just before `end`. */
  ghost predicate MembersLaid(chars: string, pos: nat, members: seq<Member>, i: nat, end: nat)
    requires i < |members|
    decreases |members| - i
  {
    var stop := pos + |PrintMember(members[i])|;
    && Has(chars, pos, PrintMember(members[i])) && stop < |chars|
    && if i + 1 == |members| then chars[stop] == '}' && end == stop + 1
       else chars[stop] == ',' && MembersLaid(chars, stop + 1, members, i + 1, end)
  }

  lemma {:induction false} MembersLayout(chars: string, pos: nat, members: seq<Member>, i: nat)
    requires i < |members| && Has(chars, pos, PrintMember(members[i]) + (PrintMembers(members, i + 1) + "}"))
    ensures MembersLaid(chars, pos, members, i, pos + |PrintMember(members[i])| + |PrintMembers(members, i + 1)| + 1)
    decreases |members| - i
  {
    hide PrintMember;
    var text, rest := PrintMember(members[i]), PrintMembers(members, i + 1) + "}";
    HasSplit(chars, pos, text, rest);
    HasChar(chars, pos + |text|, rest, 0);
    if i + 1 < |members| {
      HasFour(chars, pos + |text|, ",", PrintMember(members[i + 1]), PrintMembers(members, i + 2), "}");
      MembersLayout(chars, pos + |text| + 1, members, i + 1);
    }
  }

  lemma {:induction false} MembersReadBack(chars: string, pos: nat, members: seq<Member>, i: nat, end: nat, depth: nat)
    requires i < |members| && depth <= MAX_DEPTH && MembersLaid(chars, pos, members, i, end)
    requires forall m | m in members :: MemberWellFormed(m)
    ensures MembersAt(chars, pos, depth, members[..i]) == Expected(members, depth, 1 + MembersHeight(members, i), end)
    decreases members, 3, |members| - i
  {
    hide PrintMember, PrintMembers, WellFormed, Height, MemberAt;
    var m := members[i];
    var stop := pos + |PrintMember(m)|;
    NoSpaceToSkip(chars, stop);
    assert MemberWellFormed(m);
    MemberReadsBack(chars, pos, m, depth);
    assert members[..i] + [m] == members[..i + 1];
    if i + 1 == |members| {
      assert members[..i + 1] == members;
    } else {
      MembersReadBack(chars, stop + 1, members, i + 1, end, depth);
    }
  }

  // ---------------------------------------------------------------------------
  // The laws
  // ---------------------------------------------------------------------------

  /**
   Printing then parsing gives back the value when its nesting is within the parser's
   limit, and the depth error otherwise: both directions, for every value.
   */
  lemma ParsePrint(j: Json)
    requires WellFormed(j)
    ensures Parse(Print(j)) == if Height(j) <= MAX_DEPTH then Ok(j) else Err(DepthExceeded)
  {
    var text := Print(j);
    PrintStarts(j);
    NoSpaceToSkip(text, 0);
    ValueReadsBack(text, 0, j, 0);
  }

  /** Distinct values print differently. */
  lemma PrintIsInjective(a: Json, b: Json)
    requires WellFormed(a) && WellFormed(b) && Height(a) <= MAX_DEPTH
    requires Print(a) == Print(b)
    ensures Height(b) <= MAX_DEPTH && a == b
  {
    ParsePrint(a);
    ParsePrint(b);
  }

  // ---------------------------------------------------------------------------
  // Whatever parses is printable again
  // ---------------------------------------------------------------------------

  ghost predicate Readable(r: Parsed<Json>, depth: nat) {
    r.Ok? ==> WellFormed(r.value.value) && depth + Height(r.value.value) <= MAX_DEPTH
  }

  lemma {:induction false} PutKeepsOrder(members: seq<Member>, key: string, value: Json)
    requires KeysAscend(members)
    ensures KeysAscend(Put(members, key, value))
    ensures forall m | m in Put(members, key, value) :: m in members || m == Member(key, value)
  {
    if members != [] {
      StrLessTotal(members[0].key, key);
      var r := Put(members, key, value);
      if members[0].key == key {
      } else if StrLess(key, members[0].key) {
        forall i, j | 0 <= i < j < |r| ensures StrLess(r[i].key, r[j].key) {
          if i == 0 && j > 1 {
            StrLessTransitive(key, members[0].key, r[j].key);
          }
        }
      } else {
        PutKeepsOrder(members[1..], key, value);
        var rest := Put(members[1..], key, value);
        forall i, j | 0 <= i < j < |r| ensures StrLess(r[i].key, r[j].key) {
          if i == 0 {
            assert rest[j - 1] in rest;
            if rest[j - 1] in members[1..] {
              var k :| 0 <= k < |members[1..]| && members[1..][k] == rest[j - 1];
              assert members[k + 1] == r[j];
            }
          }
        }
      }
    }
  }

  lemma {:induction false} ItemsHeightBound(items: seq<Json>, i: nat, bound: nat)
    requires i <= |items| && forall x | x in items :: Height(x) <= bound
    ensures ItemsHeight(items, i) <= bound
    decreases |items| - i
  {
    if i < |items| {
      assert items[i] in items;
      ItemsHeightBound(items, i + 1, bound);
    }
  }

  lemma {:induction false} MembersHeightBound(members: seq<Member>, i: nat, bound: nat)
    requires i <= |members| && forall m | m in members :: MemberHeight(m) <= bound
    ensures MembersHeight(members, i) <= bound
    decreases |members| - i
  {
    if i < |members| {
      assert members[i] in members;
      MembersHeightBound(members, i + 1, bound);
    }
  }

  lemma {:induction false} ReadValueIsReadable(chars: string, pos: nat, depth: nat)
    requires pos <= |chars|
    ensures Readable(ValueAt(chars, pos, depth), depth)
    decreases |chars| - pos, 2
  {
    if depth <= MAX_DEPTH && pos < |chars| {
      var start := SkipSpace(chars, pos + 1);
      if chars[pos] == '[' {
        ReadItemsAreReadable(chars, start, depth, []);
        var items := ItemsAt(chars, start, depth, []);
        if items.Ok? {
          ItemsHeightBound(items.value.value, 0, MAX_DEPTH - depth - 1);
        }
      } else if chars[pos] == '{' {
        ReadMembersAreReadable(chars, start, depth, []);
        var members := MembersAt(chars, start, depth, []);
        if members.Ok? {
          CollectKeepsOrder(members.value.value);
          MembersHeightBound(Collect(members.value.value), 0, MAX_DEPTH - depth - 1);
        }
      }
    }
  }

  ghost predicate ItemsFit(items: seq<Json>, depth: nat) {
    depth < MAX_DEPTH && forall x | x in items :: WellFormed(x) && depth + 1 + Height(x) <= MAX_DEPTH
  }

  lemma {:induction false} ReadItemsAreReadable(chars: string, pos: nat, depth: nat, acc: seq<Json>)
    requires pos <= |chars|
    requires acc == [] || ItemsFit(acc, depth)
    ensures var r := ItemsAt(chars, pos, depth, acc); r.Ok? ==> ItemsFit(r.value.value, depth)
    decreases |chars| - pos, 4
  {
    ReadValueIsReadable(chars, SkipSpace(chars, pos), depth + 1);
    var item := ItemAt(chars, pos, depth);
    if item.Ok? {
      var end := SkipSpace(chars, item.value.next);
      if Sees(chars, end, ',') {
        ReadItemsAreReadable(chars, end + 1, depth, acc + [item.value.value]);
      }
    }
  }

  lemma {:induction false} CollectKeepsOrder(members: seq<Member>)
    ensures KeysAscend(Collect(members))
    ensures forall m | m in Collect(members) :: m in members
  {
    if members != [] {
      var init, last := members[..|members| - 1], members[|members| - 1];
      CollectKeepsOrder(init);
      PutKeepsOrder(Collect(init), last.key, last.value);
    }
  }

  ghost predicate MembersFit(members: seq<Member>, depth: nat) {
    depth < MAX_DEPTH && forall m | m in members :: MemberWellFormed(m) && depth + 1 + MemberHeight(m) <= MAX_DEPTH
  }

  lemma {:induction false} ReadMembersAreReadable(chars: string, pos: nat, depth: nat, acc: seq<Member>)
    requires pos <= |chars|
    requires acc == [] || MembersFit(acc, depth)
    ensures var r := MembersAt(chars, pos, depth, acc); r.Ok? ==> MembersFit(r.value.value, depth)
    decreases |chars| - pos, 4
  {
    ReadMemberIsReadable(chars, pos, depth);
    var m := MemberAt(chars, pos, depth);
    if m.Ok? {
      var end := SkipSpace(chars, m.value.next);
      if Sees(chars, end, ',') {
        ReadMembersAreReadable(chars, end + 1, depth, acc + [m.value.value]);
      }
    }
  }

  lemma {:induction false} ReadMemberIsReadable(chars: string, pos: nat, depth: nat)
    requires pos <= |chars|
    ensures MemberAt(chars, pos, depth).Ok? ==>
              MemberWellFormed(MemberAt(chars, pos, depth).value.value)
              && depth + 1 + MemberHeight(MemberAt(chars, pos, depth).value.value) <= MAX_DEPTH
    decreases |chars| - pos, 3
  {
    var start := SkipSpace(chars, pos);
    if Sees(chars, start, '"') {
      var key := StringBodyAt(chars, start + 1, "");
      if key.Ok? {
        var colon := SkipSpace(chars, key.value.next);
        if Sees(chars, colon, ':') {
          ReadValueIsReadable(chars, SkipSpace(chars, colon + 1), depth + 1);
        }
      }
    }
  }

  /** Any document the parser accepts is printed in a canonical form that parses to the same value. */
  lemma PrintIsCanonical(input: string)
    requires Parse(input).Ok?
    ensures WellFormed(Parse(input).value)
    ensures Parse(Print(Parse(input).value)) == Parse(input)
  {
    ReadValueIsReadable(input, SkipSpace(input, 0), 0);
    ParsePrint(Parse(input).value);
  }
}
