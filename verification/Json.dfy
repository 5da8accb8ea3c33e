/**
 The JSON value, its compact writer and its recursive-descent reader
 (RFC 8259, sections 2 to 9). Numbers are the integers; an object is the strictly
 key-ascending list of its members, as a BTreeMap holds it.
 */
module Json {
  import opened Orders
  import opened Text

  const MAX_DEPTH: nat := 128

  datatype Json =
    | Null
    | Bool(b: bool)
    | Number(n: int)
    | Str(s: string)
    | Array(items: seq<Json>)
    | Object(members: seq<Member>)
  {
    function AsStr(): Option<string> {
      if Str? then Some(s) else None
    }

    /** The integer, saturated as an `f64 as i64` cast saturates at the upper end. */
    function AsI64(): Option<int> {
      if Number? && -0x8000_0000_0000_0000 <= n <= 0x8000_0000_0000_0000
      then Some(if n == 0x8000_0000_0000_0000 then 0x7FFF_FFFF_FFFF_FFFF else n)
      else None
    }

    function Get(key: string): Option<Json> {
      if Object? then Lookup(members, key) else None
    }

    function GetStr(key: string): Option<string> {
      match Get(key) case Some(v) => v.AsStr() case None => None
    }

    function GetI64(key: string): Option<int> {
      match Get(key) case Some(v) => v.AsI64() case None => None
    }
  }

  datatype Member = Member(key: string, value: Json)

  datatype JsonError =
    | UnexpectedEof
    | UnexpectedChar(pos: nat)
    | InvalidNumber(pos: nat)
    | InvalidEscape(pos: nat)
    | TrailingData(pos: nat)
    | DepthExceeded

  /** A value read, and the offset just past it. */
  datatype Read<+T> = Read(value: T, next: nat)

  type Parsed<+T> = Result<Read<T>, JsonError>

  // ---------------------------------------------------------------------------
  // Objects
  // ---------------------------------------------------------------------------

  function Lookup(members: seq<Member>, key: string): Option<Json> {
    if members == [] then None
    else if members[0].key == key then Some(members[0].value)
    else Lookup(members[1..], key)
  }

  /** BTreeMap::insert: in key order, replacing the value of an equal key. */
  function Put(members: seq<Member>, key: string, value: Json): seq<Member> {
    if members == [] then [Member(key, value)]
    else if members[0].key == key then [Member(key, value)] + members[1..]
    else if StrLess(key, members[0].key) then [Member(key, value)] + members
    else [members[0]] + Put(members[1..], key, value)
  }

  /** A BTreeMap filled with `members` in turn. */
  function Collect(members: seq<Member>): seq<Member> {
    if members == [] then []
    else
      var last := members[|members| - 1];
      Put(Collect(members[..|members| - 1]), last.key, last.value)
  }

  lemma CollectNothing()
    ensures Collect([]) == []
  {
  }

  lemma CollectSnoc(members: seq<Member>, m: Member)
    ensures Collect(members + [m]) == Put(Collect(members), m.key, m.value)
  {
    assert (members + [m])[..|members|] == members;
  }

  /** BTreeMap::remove. */
  function Remove(members: seq<Member>, key: string): seq<Member> {
    if members == [] then []
    else if members[0].key == key then members[1..]
    else [members[0]] + Remove(members[1..], key)
  }

  ghost predicate KeysAscend(members: seq<Member>) {
    forall i, j | 0 <= i < j < |members| :: StrLess(members[i].key, members[j].key)
  }

  /** What every BTreeMap keeps: keys strictly ascending at every level. */
  ghost predicate WellFormed(j: Json) {
    match j
    case Array(items) => forall x | x in items :: WellFormed(x)
    case Object(members) => KeysAscend(members) && forall m | m in members :: MemberWellFormed(m)
    case _ => true
  }

  ghost predicate MemberWellFormed(m: Member) {
    WellFormed(m.value)
  }

  // ---------------------------------------------------------------------------
  // The writer
  // ---------------------------------------------------------------------------

  function HexChar(d: nat): (c: char)
    requires d < 16
    ensures HexDigit(c) == Some(d)
  {
    if d < 10 then (d + 48) as char else (d + 87) as char
  }

  function EscapeChar(c: char): string {
    if c == '"' then "\\\""
    else if c == '\\' then "\\\\"
    else if c == '\n' then "\\n"
    else if c == '\r' then "\\r"
    else if c == '\t' then "\\t"
    else if c == 8 as char then "\\b"
    else if c == 12 as char then "\\f"
    else if c as int < 0x20 then "\\u00" + [HexChar(c as int / 16), HexChar(c as int % 16)]
    else [c]
  }

  function Escape(s: string): string {
    if s == "" then "" else EscapeChar(s[0]) + Escape(s[1..])
  }

  function Quote(s: string): string {
    "\"" + Escape(s) + "\""
  }

  function FormatInteger(n: int): string {
    if n < 0 then "-" + Decimal(-n) else Decimal(n)
  }

  function Print(j: Json): string {
    match j
    case Null => "null"
    case Bool(b) => if b then "true" else "false"
    case Number(n) => FormatInteger(n)
    case Str(s) => Quote(s)
    case Array(items) => "[" + PrintItems(items, 0) + "]"
    case Object(members) => "{" + PrintMembers(members, 0) + "}"
  }

  /** The items from index `i` on, each but the first after a comma. */
  function PrintItems(items: seq<Json>, i: nat): string
    requires i <= |items|
    decreases items, |items| - i
  {
    if i == |items| then "" else (if i > 0 then "," else "") + Print(items[i]) + PrintItems(items, i + 1)
  }

  function PrintMembers(members: seq<Member>, i: nat): string
    requires i <= |members|
    decreases members, |members| - i
  {
    if i == |members| then "" else (if i > 0 then "," else "") + PrintMember(members[i]) + PrintMembers(members, i + 1)
  }

  function PrintMember(m: Member): string {
    Quote(m.key) + ":" + Print(m.value)
  }

  method WriteString(out: string, s: string) returns (r: string)
    ensures r == out + Quote(s)
  {
    r := out + "\"";
    for i := 0 to |s|
      invariant r + Escape(s[i..]) == out + "\"" + Escape(s)
    {
      assert s[i..][1..] == s[i + 1..];
      r := r + EscapeChar(s[i]);
    }
    assert s[|s|..] == "" && r == out + "\"" + Escape(s);
    r := r + "\"";
    assert r == out + ("\"" + Escape(s) + "\"");
  }

  method Write(out: string, j: Json) returns (r: string)
    ensures r == out + Print(j)
    decreases j, 1
  {
    match j {
      case Null => r := out + "null";
      case Bool(b) => r := out + if b then "true" else "false";
      case Number(n) => r := out + FormatInteger(n);
      case Str(s) => r := WriteString(out, s);
      case Array(_) => r := WriteArray(out, j);
      case Object(_) => r := WriteObject(out, j);
    }
  }

  method WriteArray(out: string, j: Json) returns (r: string)
    requires j.Array?
    ensures r == out + Print(j)
    decreases j, 0
  {
    var items := j.items;
    r := out + "[";
    ghost var whole := r + PrintItems(items, 0);
    for i := 0 to |items|
      invariant r + PrintItems(items, i) == whole
    {
      Regroup(r, if i > 0 then "," else "", Print(items[i]), PrintItems(items, i + 1));
      r := r + if i > 0 then "," else "";
      r := Write(r, items[i]);
    }
    r := r + "]";
    Regroup(out, "[", PrintItems(items, 0), "]");
  }

  method WriteObject(out: string, j: Json) returns (r: string)
    requires j.Object?
    ensures r == out + Print(j)
    decreases j, 0
  {
    var members := j.members;
    r := out + "{";
    ghost var whole := r + PrintMembers(members, 0);
    for i := 0 to |members|
      invariant r + PrintMembers(members, i) == whole
    {
      Regroup(r, if i > 0 then "," else "", PrintMember(members[i]), PrintMembers(members, i + 1));
      r := r + if i > 0 then "," else "";
      r := WriteMember(r, members[i]);
    }
    r := r + "}";
    Regroup(out, "{", PrintMembers(members, 0), "}");
  }

  method WriteMember(out: string, m: Member) returns (r: string)
    ensures r == out + PrintMember(m)
    decreases m, 2
  {
    r := WriteString(out, m.key);
    r := r + ":";
    r := Write(r, m.value);
    Regroup(out, Quote(m.key), ":", Print(m.value));
  }

  // ---------------------------------------------------------------------------
  // The grammar the reader accepts, as functions of the text and an offset
  // ---------------------------------------------------------------------------

  predicate IsSpace(c: char) {
    c == ' ' || c == '\t' || c == '\n' || c == '\r'
  }

  function SkipSpace(chars: string, pos: nat): (r: nat)
    requires pos <= |chars|
    ensures pos <= r <= |chars|
    decreases |chars| - pos
  {
    if pos < |chars| && IsSpace(chars[pos]) then SkipSpace(chars, pos + 1) else pos
  }

  predicate Sees(chars: string, pos: nat, c: char) {
    pos < |chars| && chars[pos] == c
  }

  /** `UnexpectedChar(pos.saturating_sub(1))` after a `bump` at `pos`. */
  function BumpError(chars: string, pos: nat): JsonError {
    UnexpectedChar(if pos < |chars| then pos else if pos == 0 then 0 else pos - 1)
  }

  predicate Has(chars: string, pos: nat, text: string) {
    pos + |text| <= |chars| && forall i | 0 <= i < |text| :: chars[pos + i] == text[i]
  }

  function HexDigit(c: char): (r: Option<nat>)
    ensures r.Some? ==> r.value < 16
  {
    if '0' <= c <= '9' then Some(c as int - 48)
    else if 'a' <= c <= 'f' then Some(c as int - 87)
    else if 'A' <= c <= 'F' then Some(c as int - 55)
    else None
  }

  /** Reads `count` hex digits, most significant first, onto `value`. */
  function HexAt(chars: string, pos: nat, count: nat, value: nat, escPos: nat): (r: Parsed<nat>)
    requires pos <= |chars|
    ensures r.Ok? ==> r.value.next == pos + count <= |chars|
    decreases count
  {
    if count == 0 then Ok(Read(value, pos))
    else if pos == |chars| then Err(UnexpectedEof)
    else
      match HexDigit(chars[pos])
      case None => Err(InvalidEscape(escPos))
      case Some(d) => HexAt(chars, pos + 1, count - 1, value * 16 + d, escPos)
  }

  function ScalarOf(cp: nat, escPos: nat): Result<char, JsonError> {
    if cp < 0xD800 || 0xE000 <= cp < 0x11_0000 then Ok(cp as char) else Err(InvalidEscape(escPos))
  }

  function UnicodeAt(chars: string, pos: nat, escPos: nat): (r: Parsed<char>)
    requires pos <= |chars|
    ensures r.Ok? ==> pos < r.value.next <= |chars|
  {
    var high :- HexAt(chars, pos, 4, 0, escPos);
    var cp := high.value;
    if 0xD800 <= cp <= 0xDBFF then
      if !(Sees(chars, high.next, '\\') && Sees(chars, high.next + 1, 'u')) then Err(InvalidEscape(escPos))
      else
        var low :- HexAt(chars, high.next + 2, 4, 0, escPos);
        if !(0xDC00 <= low.value <= 0xDFFF) then Err(InvalidEscape(escPos))
        else
          var c :- ScalarOf(0x1_0000 + (cp - 0xD800) * 1024 + (low.value - 0xDC00), escPos);
          Ok(Read(c, low.next))
    else if 0xDC00 <= cp <= 0xDFFF then Err(InvalidEscape(escPos))
    else
      var c :- ScalarOf(cp, escPos);
      Ok(Read(c, high.next))
  }

  function SimpleEscape(e: char): Option<char> {
    if e == '"' || e == '\\' || e == '/' then Some(e)
    else if e == 'b' then Some(8 as char)
    else if e == 'f' then Some(12 as char)
    else if e == 'n' then Some('\n')
    else if e == 'r' then Some('\r')
    else if e == 't' then Some('\t')
    else None
  }

  /** The rest of a string literal, after its opening quote; `acc` is what was read so far. */
  function StringBodyAt(chars: string, pos: nat, acc: string): (r: Parsed<string>)
    requires pos <= |chars|
    ensures r.Ok? ==> pos < r.value.next <= |chars|
    decreases |chars| - pos
  {
    if pos == |chars| then Err(UnexpectedEof)
    else if chars[pos] == '"' then Ok(Read(acc, pos + 1))
    else if chars[pos] == '\\' then
      if pos + 1 == |chars| then Err(UnexpectedEof)
      else
        match SimpleEscape(chars[pos + 1])
        case Some(c) => StringBodyAt(chars, pos + 2, acc + [c])
        case None =>
          if chars[pos + 1] == 'u' then
            var c :- UnicodeAt(chars, pos + 2, pos);
            StringBodyAt(chars, c.next, acc + [c.value])
          else Err(InvalidEscape(pos))
    else if chars[pos] as int < 0x20 then Err(UnexpectedChar(pos))
    else StringBodyAt(chars, pos + 1, acc + [chars[pos]])
  }

  predicate NumberChar(c: char) {
    IsDigit(c) || c == '-' || c == '+' || c == '.' || c == 'e' || c == 'E'
  }

  function NumberEnd(chars: string, pos: nat): (r: nat)
    requires pos <= |chars|
    ensures pos <= r <= |chars|
    decreases |chars| - pos
  {
    if pos < |chars| && NumberChar(chars[pos]) then NumberEnd(chars, pos + 1) else pos
  }

  /** An optional sign and digits; the fraction and exponent forms are not modelled. */
  function IntegerOf(text: string): Option<int> {
    var signed := text != "" && (text[0] == '-' || text[0] == '+');
    var digits := if signed then text[1..] else text;
    if digits == "" || !AllDigits(digits) then None
    else
      var magnitude: int := NumeralValue(digits);
      Some(if signed && text[0] == '-' then -magnitude else magnitude)
  }

  function NumberAt(chars: string, pos: nat): (r: Parsed<Json>)
    requires pos < |chars|
    ensures r.Ok? ==> pos < r.value.next <= |chars|
  {
    var end := NumberEnd(chars, pos);
    match IntegerOf(chars[pos..end])
    case Some(n) => Ok(Read(Number(n), end))
    case None => Err(InvalidNumber(pos))
  }

  function LiteralAt(chars: string, pos: nat, literal: string, value: Json): Parsed<Json> {
    if Has(chars, pos, literal) then Ok(Read(value, pos + |literal|)) else Err(UnexpectedChar(pos))
  }

  function ValueAt(chars: string, pos: nat, depth: nat): (r: Parsed<Json>)
    requires pos <= |chars|
    ensures r.Ok? ==> pos < r.value.next <= |chars|
    decreases |chars| - pos, 2
  {
    if depth > MAX_DEPTH then Err(DepthExceeded)
    else if pos == |chars| then Err(UnexpectedEof)
    else
      var c := chars[pos];
      if c == '{' then ObjectAt(chars, pos, depth)
      else if c == '[' then ArrayAt(chars, pos, depth)
      else if c == '"' then
        var s :- StringBodyAt(chars, pos + 1, "");
        Ok(Read(Str(s.value), s.next))
      else if c == 't' || c == 'f' then
        var yes := LiteralAt(chars, pos, "true", Bool(true));
        if yes.Ok? then yes else LiteralAt(chars, pos, "false", Bool(false))
      else if c == 'n' then LiteralAt(chars, pos, "null", Null)
      else if c == '-' || IsDigit(c) then NumberAt(chars, pos)
      else Err(UnexpectedChar(pos))
  }

  function ArrayAt(chars: string, pos: nat, depth: nat): (r: Parsed<Json>)
    requires pos < |chars|
    ensures r.Ok? ==> pos < r.value.next <= |chars|
    decreases |chars| - pos, 1
  {
    var start := SkipSpace(chars, pos + 1);
    if Sees(chars, start, ']') then Ok(Read(Array([]), start + 1))
    else
      var items :- ItemsAt(chars, start, depth, []);
      Ok(Read(Array(items.value), items.next))
  }

  /** The items up to the closing bracket; `acc` is what was read so far. */
  function ItemsAt(chars: string, pos: nat, depth: nat, acc: seq<Json>): (r: Parsed<seq<Json>>)
    requires pos <= |chars|
    ensures r.Ok? ==> pos < r.value.next <= |chars|
    decreases |chars| - pos, 4
  {
    var item :- ItemAt(chars, pos, depth);
    var end := SkipSpace(chars, item.next);
    if Sees(chars, end, ',') then ItemsAt(chars, end + 1, depth, acc + [item.value])
    else if Sees(chars, end, ']') then Ok(Read(acc + [item.value], end + 1))
    else Err(BumpError(chars, end))
  }

  function ItemAt(chars: string, pos: nat, depth: nat): (r: Parsed<Json>)
    requires pos <= |chars|
    ensures r.Ok? ==> pos < r.value.next <= |chars|
    decreases |chars| - pos, 3
  {
    ValueAt(chars, SkipSpace(chars, pos), depth + 1)
  }

  function ObjectAt(chars: string, pos: nat, depth: nat): (r: Parsed<Json>)
    requires pos < |chars|
    ensures r.Ok? ==> pos < r.value.next <= |chars|
    decreases |chars| - pos, 1
  {
    var start := SkipSpace(chars, pos + 1);
    if Sees(chars, start, '}') then Ok(Read(Object([]), start + 1))
    else
      var members :- MembersAt(chars, start, depth, []);
      Ok(Read(Object(Collect(members.value)), members.next))
  }

  /** The members up to the closing brace, in the order written. */
  function MembersAt(chars: string, pos: nat, depth: nat, acc: seq<Member>): (r: Parsed<seq<Member>>)
    requires pos <= |chars|
    ensures r.Ok? ==> pos < r.value.next <= |chars|
    decreases |chars| - pos, 4
  {
    var m :- MemberAt(chars, pos, depth);
    var end := SkipSpace(chars, m.next);
    if Sees(chars, end, ',') then MembersAt(chars, end + 1, depth, acc + [m.value])
    else if Sees(chars, end, '}') then Ok(Read(acc + [m.value], end + 1))
    else Err(BumpError(chars, end))
  }

  function MemberAt(chars: string, pos: nat, depth: nat): (r: Parsed<Member>)
    requires pos <= |chars|
    ensures r.Ok? ==> pos < r.value.next <= |chars|
    decreases |chars| - pos, 3
  {
    var start := SkipSpace(chars, pos);
    if !Sees(chars, start, '"') then Err(UnexpectedChar(start))
    else
      var key :- StringBodyAt(chars, start + 1, "");
      var colon := SkipSpace(chars, key.next);
      if !Sees(chars, colon, ':') then Err(BumpError(chars, colon))
      else
        var value :- ValueAt(chars, SkipSpace(chars, colon + 1), depth + 1);
        Ok(Read(Member(key.value, value.value), value.next))
  }

  /** Json::parse: one value, spaces around it, and nothing else. */
  function Parse(input: string): Result<Json, JsonError> {
    var value :- ValueAt(input, SkipSpace(input, 0), 0);
    var end := SkipSpace(input, value.next);
    if end != |input| then Err(TrailingData(end)) else Ok(value.value)
  }

  // ---------------------------------------------------------------------------
  // The reader
  // ---------------------------------------------------------------------------

  /** The recursive-descent parser: a cursor over the characters. */
  class Parser {
    const chars: string
    var pos: nat

    constructor (chars: string)
      ensures this.chars == chars && pos == 0
    {
      this.chars := chars;
      pos := 0;
    }

    method SkipWs()
      requires pos <= |chars|
      modifies this
      ensures pos == SkipSpace(chars, old(pos))
    {
      while pos < |chars| && IsSpace(chars[pos])
        invariant old(pos) <= pos <= |chars|
        invariant SkipSpace(chars, pos) == SkipSpace(chars, old(pos))
      {
        pos := pos + 1;
      }
    }

    method Bump() returns (c: Option<char>)
      requires pos <= |chars|
      modifies this
      ensures if old(pos) < |chars| then c == Some(chars[old(pos)]) && pos == old(pos) + 1
              else c == None && pos == old(pos)
    {
      if pos < |chars| {
        c := Some(chars[pos]);
        pos := pos + 1;
      } else {
        c := None;
      }
    }

    method ParseValue(depth: nat) returns (r: Result<Json, JsonError>)
      requires pos <= |chars|
      modifies this
      ensures Agrees(r, ValueAt(chars, old(pos), depth))
      decreases |chars| - pos, 1
    {
      if depth > MAX_DEPTH {
        return Err(DepthExceeded);
      }
      if pos == |chars| {
        return Err(UnexpectedEof);
      }
      var c := chars[pos];
      if c == '{' {
        r := ParseObject(depth);
      } else if c == '[' {
        r := ParseArray(depth);
      } else if c == '"' {
        var s := ParseString();
        r := if s.Ok? then Ok(Str(s.value)) else Err(s.error);
      } else if c == 't' || c == 'f' {
        var yes := ConsumeLiteral("true");
        if yes {
          return Ok(Bool(true));
        }
        var no := ConsumeLiteral("false");
        r := if no then Ok(Bool(false)) else Err(UnexpectedChar(pos));
      } else if c == 'n' {
        var ok := ConsumeLiteral("null");
        r := if ok then Ok(Null) else Err(UnexpectedChar(pos));
      } else if c == '-' || IsDigit(c) {
        r := ParseNumber();
      } else {
        r := Err(UnexpectedChar(pos));
      }
    }

    /** The method's result is the specified one, and on success the cursor stands just past it. */
    ghost predicate Agrees<T>(r: Result<T, JsonError>, spec: Parsed<T>)
      reads this
    {
      match spec
      case Ok(read) => r == Ok(read.value) && pos == read.next
      case Err(e) => r == Err(e)
    }

    method ParseObject(depth: nat) returns (r: Result<Json, JsonError>)
      requires pos < |chars|
      modifies this
      ensures Agrees(r, ObjectAt(chars, old(pos), depth))
      decreases |chars| - pos, 0
    {
      pos := pos + 1;
      SkipWs();
      if Sees(chars, pos, '}') {
        pos := pos + 1;
        return Ok(Object([]));
      }
      r := ParseMembers(depth);
    }

    /** The loop of `parse_object`, filling the map member by member. */
    method ParseMembers(depth: nat) returns (r: Result<Json, JsonError>)
      requires pos <= |chars|
      modifies this
      ensures match MembersAt(chars, old(pos), depth, [])
              case Ok(members) => r == Ok(Object(Collect(members.value))) && pos == members.next
              case Err(e) => r == Err(e)
      decreases |chars| - pos, 3
    {
      hide Collect, MemberAt, Put;
      ghost var spec := MembersAt(chars, pos, depth, []);
      var entries := [];
      ghost var read := [];
      CollectNothing();
      while true
        invariant old(pos) <= pos <= |chars|
        invariant entries == Collect(read) && MembersAt(chars, pos, depth, read) == spec
        decreases |chars| - pos
      {
        var m :- ParseMember(depth);
        entries := Put(entries, m.key, m.value);
        CollectSnoc(read, m);
        read := read + [m];
        SkipWs();
        var c := Bump();
        if c == Some('}') {
          return Ok(Object(entries));
        } else if c != Some(',') {
          return Err(UnexpectedChar(if pos == 0 then 0 else pos - 1));
        }
      }
    }

    method ParseMember(depth: nat) returns (r: Result<Member, JsonError>)
      requires pos <= |chars|
      modifies this
      ensures Agrees(r, MemberAt(chars, old(pos), depth))
      decreases |chars| - pos, 2
    {
      SkipWs();
      if !Sees(chars, pos, '"') {
        return Err(UnexpectedChar(pos));
      }
      var key :- ParseString();
      SkipWs();
      var colon := Bump();
      if colon != Some(':') {
        return Err(UnexpectedChar(if pos == 0 then 0 else pos - 1));
      }
      SkipWs();
      var value :- ParseValue(depth + 1);
      r := Ok(Member(key, value));
    }

    method ParseArray(depth: nat) returns (r: Result<Json, JsonError>)
      requires pos < |chars|
      modifies this
      ensures Agrees(r, ArrayAt(chars, old(pos), depth))
      decreases |chars| - pos, 0
    {
      hide ItemAt;
      pos := pos + 1;
      var items := [];
      SkipWs();
      if Sees(chars, pos, ']') {
        pos := pos + 1;
        return Ok(Array(items));
      }
      ghost var spec := ItemsAt(chars, pos, depth, []);
      while true
        invariant old(pos) < pos <= |chars|
        invariant ItemsAt(chars, pos, depth, items) == spec
        decreases |chars| - pos
      {
        var item :- ParseItem(depth);
        items := items + [item];
        SkipWs();
        var c := Bump();
        if c == Some(']') {
          return Ok(Array(items));
        } else if c != Some(',') {
          return Err(UnexpectedChar(if pos == 0 then 0 else pos - 1));
        }
      }
    }

    method ParseItem(depth: nat) returns (r: Result<Json, JsonError>)
      requires pos <= |chars|
      modifies this
      ensures Agrees(r, ItemAt(chars, old(pos), depth))
      decreases |chars| - pos, 2
    {
      SkipWs();
      r := ParseValue(depth + 1);
    }

    method ParseString() returns (r: Result<string, JsonError>)
      requires pos < |chars|
      modifies this
      ensures Agrees(r, StringBodyAt(chars, old(pos) + 1, ""))
    {
      ghost var spec := StringBodyAt(chars, pos + 1, "");
      pos := pos + 1;
      var s := "";
      while true
        invariant old(pos) < pos <= |chars|
        invariant StringBodyAt(chars, pos, s) == spec
        decreases |chars| - pos
      {
        var c := Bump();
        if c == None {
          return Err(UnexpectedEof);
        } else if c == Some('"') {
          return Ok(s);
        } else if c == Some('\\') {
          var escPos := pos - 1;
          var e := Bump();
          if e == None {
            return Err(UnexpectedEof);
          }
          var simple := SimpleEscape(e.value);
          if simple.Some? {
            s := s + [simple.value];
          } else if e == Some('u') {
            var u :- ParseUnicodeEscape(escPos);
            s := s + [u];
          } else {
            return Err(InvalidEscape(escPos));
          }
        } else if c.value as int < 0x20 {
          return Err(UnexpectedChar(pos - 1));
        } else {
          s := s + [c.value];
        }
      }
    }

    method ParseUnicodeEscape(escPos: nat) returns (r: Result<char, JsonError>)
      requires pos <= |chars|
      modifies this
      ensures Agrees(r, UnicodeAt(chars, old(pos), escPos))
    {
      var cp :- ParseHex4(escPos);
      if 0xD800 <= cp <= 0xDBFF {
        var a := Bump();
        if a != Some('\\') {
          return Err(InvalidEscape(escPos));
        }
        var b := Bump();
        if b != Some('u') {
          return Err(InvalidEscape(escPos));
        }
        var low :- ParseHex4(escPos);
        if !(0xDC00 <= low <= 0xDFFF) {
          return Err(InvalidEscape(escPos));
        }
        r := ScalarOf(0x1_0000 + (cp - 0xD800) * 1024 + (low - 0xDC00), escPos);
      } else if 0xDC00 <= cp <= 0xDFFF {
        r := Err(InvalidEscape(escPos));
      } else {
        r := ScalarOf(cp, escPos);
      }
    }

    method ParseHex4(escPos: nat) returns (r: Result<nat, JsonError>)
      requires pos <= |chars|
      modifies this
      ensures Agrees(r, HexAt(chars, old(pos), 4, 0, escPos))
    {
      ghost var spec := HexAt(chars, pos, 4, 0, escPos);
      var value: nat := 0;
      for i := 0 to 4
        invariant i <= 4 && pos == old(pos) + i <= |chars|
        invariant HexAt(chars, pos, 4 - i, value, escPos) == spec
      {
        var c := Bump();
        if c == None {
          return Err(UnexpectedEof);
        }
        var digit := HexDigit(c.value);
        if digit == None {
          return Err(InvalidEscape(escPos));
        }
        value := value * 16 + digit.value;
      }
      r := Ok(value);
    }

    method ParseNumber() returns (r: Result<Json, JsonError>)
      requires pos < |chars|
      modifies this
      ensures Agrees(r, NumberAt(chars, old(pos)))
    {
      var start := pos;
      while pos < |chars| && NumberChar(chars[pos])
        invariant start <= pos <= |chars|
        invariant NumberEnd(chars, pos) == NumberEnd(chars, start)
      {
        pos := pos + 1;
      }
      var n := IntegerOf(chars[start..pos]);
      r := if n.Some? then Ok(Number(n.value)) else Err(InvalidNumber(start));
    }

    method ConsumeLiteral(literal: string) returns (ok: bool)
      requires pos <= |chars|
      modifies this
      ensures ok == Has(chars, old(pos), literal)
      ensures pos == if ok then old(pos) + |literal| else old(pos)
    {
      var end := pos + |literal|;
      ok := end <= |chars| && chars[pos..end] == literal;
      if ok {
        pos := end;
      }
    }
  }

  method ParseText(input: string) returns (r: Result<Json, JsonError>)
    ensures r == Parse(input)
  {
    var p := new Parser(input);
    p.SkipWs();
    var value :- p.ParseValue(0);
    p.SkipWs();
    if p.pos != |input| {
      return Err(TrailingData(p.pos));
    }
    r := Ok(value);
  }
}
