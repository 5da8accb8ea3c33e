/** Numbers, tokens, identifiers and file names, as texts. */
module NameLaws {
  import Audit
  import Digits
  import FileStore
  import G = JsonGrammar
  import opened Orders
  import Replay
  import RoomStore
  import Sync
  import opened Text

  // ---------------------------------------------------------------------------
  // Numbers and sync tokens
  // ---------------------------------------------------------------------------

  /** Digits after an optional plus sign, for a number of 64 bits. */
  ghost predicate SpellsU64(s: string, n: int) {
    && 0 <= n < 0x1_0000_0000_0000_0000
    && (G.IsNumeral(s, 0, |s|, n) || (s != "" && s[0] == '+' && G.IsNumeral(s, 1, |s|, n)))
  }

  lemma ParseU64Is(s: string)
    ensures forall n :: Audit.ParseU64(s) == Some(n) <==> SpellsU64(s, n)
    ensures Audit.ParseU64(s) == None <==> forall n :: !SpellsU64(s, n)
  {
    hide G.IsNumeral, NumeralValue, AllDigits;
    forall n ensures Audit.ParseU64(s) == Some(n) <==> SpellsU64(s, n) {
      assert s[0..|s|] == s;
      G.NumeralIs(s, 0, |s|, n);
      if s != "" {
        assert s[1..|s|] == s[1..];
        G.NumeralIs(s, 1, |s|, n);
        if s[0] == '+' {
          PlusIsNoDigit(s);
        }
      } else {
        G.EmptyNumeral(s, 0, 0, n);
      }
    }
    if Audit.ParseU64(s).Some? {
      assert SpellsU64(s, Audit.ParseU64(s).value);
    }
  }

  lemma PlusIsNoDigit(s: string)
    requires s != "" && s[0] == '+'
    ensures !AllDigits(s)
  {
    assert s[0] in s;
  }

  /** A token is an `s` and a position; anything else is as good as none. */
  lemma PositionIs(since: Option<string>, n: int)
    ensures Sync.Position(since) == Some(n) <==>
      since.Some? && since.value != "" && since.value[0] == 's' && SpellsU64(since.value[1..], n)
  {
    hide SpellsU64;
    if since.Some? && since.value != "" {
      ParseU64Is(since.value[1..]);
    }
  }

  /** The token given out is an `s` and the position's digits, with no zero before them. */
  lemma TokenIs(n: nat)
    ensures var token := Sync.Token(n);
      |token| >= 2 && token[0] == 's' && G.IsNumeral(token, 1, |token|, n) && (token[1] == '0' ==> n == 0 && |token| == 2)
  {
    var token := Sync.Token(n);
    assert token[1..|token|] == Decimal(n);
    DecimalReadsBack(n);
    G.NumeralIs(token, 1, |token|, n);
    NoLeadingZero(n);
    assert token[1] == Decimal(n)[0];
  }

  lemma {:induction false} NoLeadingZero(n: nat)
    ensures Decimal(n)[0] == '0' ==> n == 0 && |Decimal(n)| == 1
  {
    if n >= 10 {
      NoLeadingZero(n / 10);
      assert Decimal(n)[0] == Decimal(n / 10)[0];
    }
  }

  // ---------------------------------------------------------------------------
  // Identifiers
  // ---------------------------------------------------------------------------

  ghost predicate RoomParts(s: string, local: string, server: string) {
    s == "!" + local + ":" + server && local != "" && server != "" && ':' !in local
  }

  lemma RoomIdIs(s: string)
    ensures RoomStore.RoomIdOk(s) <==> exists local, server :: RoomParts(s, local, server)
  {
    if RoomStore.RoomIdOk(s) {
      var (local, server) := SplitOnce(s[1..], ':').value;
      assert s == "!" + s[1..];
      assert RoomParts(s, local, server);
    }
    if local, server :| RoomParts(s, local, server) {
      assert s[1..] == local + [':'] + server;
      SplitOnceAt(local, ':', server);
    }
  }

  lemma EventIdIs(s: string)
    ensures RoomStore.EventIdOk(s) <==> exists rest :: rest != "" && s == "$" + rest
  {
    if RoomStore.EventIdOk(s) {
      assert s == "$" + s[1..] && s[1..] != "";
    }
  }

  // ---------------------------------------------------------------------------
  // File names
  // ---------------------------------------------------------------------------

  ghost predicate PairAt(s: string, i: nat, b: Digits.Byte) {
    i + 2 <= |s| && G.HexIs(s[i], b / 16) && G.HexIs(s[i + 1], b % 16)
  }

  /** Two hex digits for each byte, of either case. */
  ghost predicate SpellsBytes(s: string, bytes: seq<Digits.Byte>) {
    |s| == 2 * |bytes| && forall i | 0 <= i < |bytes| :: PairAt(s, 2 * i, bytes[i])
  }

  lemma HexValueIs(c: char, d: nat)
    ensures FileStore.HexValue(c) == Some(d) <==> G.HexIs(c, d)
  {
    var low, high := "0123456789abcdef", "0123456789ABCDEF";
    if d < 16 {
      assert low[d] as int == if d < 10 then 48 + d else 87 + d;
      assert high[d] as int == if d < 10 then 48 + d else 55 + d;
    }
  }

  lemma PairIs(s: string, b: Digits.Byte)
    requires |s| >= 2
    ensures PairAt(s, 0, b) <==>
      FileStore.HexValue(s[0]).Some? && FileStore.HexValue(s[1]).Some?
      && FileStore.HexValue(s[0]).value * 16 + FileStore.HexValue(s[1]).value == b
  {
    hide FileStore.HexValue, G.HexIs;
    HexValueIs(s[0], b / 16);
    HexValueIs(s[1], b % 16);
  }

  lemma {:induction false} PairsAre(s: string, bytes: seq<Digits.Byte>)
    ensures FileStore.HexPairs(s) == Some(bytes) <==> SpellsBytes(s, bytes)
    decreases |s|
  {
    hide PairAt, FileStore.HexValue;
    if |s| >= 2 && bytes != [] {
      PairIs(s, bytes[0]);
      PairsAre(s[2..], bytes[1..]);
      assert bytes == [bytes[0]] + bytes[1..];
      forall i | 0 <= i < |bytes| - 1 && |s| == 2 * |bytes|
        ensures PairAt(s[2..], 2 * i, bytes[1..][i]) <==> PairAt(s, 2 * (i + 1), bytes[i + 1])
      {
        PairShifts(s, 2 * i, bytes[i + 1]);
      }
      if SpellsBytes(s, bytes) {
        assert SpellsBytes(s[2..], bytes[1..]);
      }
      if SpellsBytes(s[2..], bytes[1..]) && PairAt(s, 0, bytes[0]) {
        forall i | 0 <= i < |bytes| ensures PairAt(s, 2 * i, bytes[i]) {
          assert i > 0 ==> PairAt(s[2..], 2 * (i - 1), bytes[1..][i - 1]);
        }
      }
    }
  }

  lemma PairShifts(s: string, i: nat, b: Digits.Byte)
    requires |s| >= 2
    ensures PairAt(s[2..], i, b) <==> PairAt(s, i + 2, b)
  {
  }

  /** A file name is that of a key exactly if it spells the key's bytes in hex and they are UTF-8. */
  lemma HexDecodeIff(utf8: FileStore.Utf8, s: string, bytes: seq<Digits.Byte>)
    ensures FileStore.HexDecode(utf8, s) == Some(bytes) <==> SpellsBytes(s, bytes) && utf8(bytes)
  {
    hide FileStore.HexPairs, SpellsBytes;
    PairsAre(s, bytes);
    if SpellsBytes(s, bytes) {
      SpelledIsHex(s, bytes);
      FileStore.HexByteLen(s);
    }
  }

  lemma SpelledIsHex(s: string, bytes: seq<Digits.Byte>)
    requires SpellsBytes(s, bytes)
    ensures FileStore.AllHex(s) && |s| % 2 == 0
  {
    hide FileStore.HexValue, G.HexIs;
    forall k | 0 <= k < |s| ensures FileStore.HexValue(s[k]).Some? {
      var b := bytes[k / 2];
      assert PairAt(s, 2 * (k / 2), b);
      HexValueIs(s[k], if k % 2 == 0 then b / 16 else b % 16);
    }
  }

  /** The name written is the lower-case one. */
  lemma {:induction false} HexEncodeIs(bytes: seq<Digits.Byte>, i: nat)
    requires i < |bytes|
    ensures bytes[i] / 16 < 16
    ensures FileStore.HexEncode(bytes)[2 * i] == "0123456789abcdef"[bytes[i] / 16]
    ensures FileStore.HexEncode(bytes)[2 * i + 1] == "0123456789abcdef"[bytes[i] % 16]
    decreases i
  {
    FileStore.HalvesAreDigits(bytes[0]);
    if i > 0 {
      HexEncodeIs(bytes[1..], i - 1);
      var rest := FileStore.HexEncode(bytes[1..]);
      assert FileStore.HexEncode(bytes)[2 * i] == rest[2 * (i - 1)];
      assert FileStore.HexEncode(bytes)[2 * i + 1] == rest[2 * (i - 1) + 1];
    }
  }

  // ---------------------------------------------------------------------------
  // Words in audit texts
  // ---------------------------------------------------------------------------

  /** The code points that Unicode calls white space. */
  predicate White(c: char) {
    var n := c as int;
    || 0x09 <= n <= 0x0D || n == 0x20 || n == 0x85 || n == 0xA0 || n == 0x1680
    || 0x2000 <= n <= 0x200A || n == 0x2028 || n == 0x2029 || n == 0x202F || n == 0x205F || n == 0x3000
  }

  predicate AllWhite(s: string, i: nat, j: nat) {
    i <= j <= |s| && forall k | i <= k < j :: White(s[k])
  }

  /** `word` stands at `i` with white space before it back to `from`, and white space or the end after it. */
  predicate WordAt(s: string, from: nat, i: nat, word: string) {
    && AllWhite(s, from, i) && word != "" && i + |word| <= |s| && s[i..i + |word|] == word
    && (forall c | c in word :: !White(c))
    && (i + |word| < |s| ==> White(s[i + |word|]))
  }

  predicate FirstAt(s: string, key: string, i: nat) {
    i <= |s| && key <= s[i..] && forall j | 0 <= j < i :: !(key <= s[j..])
  }

  /** From `from` on: the next word, or the white space that is all there is. */
  ghost predicate Comes(s: string, from: nat, word: string) {
    || (exists i: nat :: WordAt(s, from, i, word))
    || (AllWhite(s, from, |s|) && word == s[from..])
  }

  /** What follows the first occurrence of `key`. */
  ghost predicate Follows(s: string, key: string, word: string) {
    exists at: nat :: FirstAt(s, key, at) && Comes(s, at + |key|, word)
  }

  lemma WhiteIs(c: char)
    ensures Replay.IsWhitespace(c) <==> White(c)
  {
  }

  lemma {:induction false} WordOfIs(s: string)
    ensures var w := Replay.WordOf(s);
      w <= s && (forall c | c in w :: !White(c)) && (|w| < |s| ==> White(s[|w|]))
  {
    if s != "" {
      WhiteIs(s[0]);
      WordOfIs(s[1..]);
    }
  }

  lemma {:induction false} FirstWordIs(s: string, from: nat)
    requires from <= |s|
    ensures match Replay.FirstWord(s[from..])
      case Some(w) => exists i: nat :: WordAt(s, from, i, w)
      case None => AllWhite(s, from, |s|)
    decreases |s| - from
  {
    hide Replay.IsWhitespace, White;
    if from < |s| {
      WhiteIs(s[from]);
      if White(s[from]) {
        assert s[from..][1..] == s[from + 1..];
        FirstWordIs(s, from + 1);
        var next := Replay.FirstWord(s[from + 1..]);
        if next.Some? {
          var i: nat :| WordAt(s, from + 1, i, next.value);
          assert WordAt(s, from, i, next.value);
        }
      } else {
        FirstWordHere(s, from);
      }
    }
  }

  lemma FirstWordHere(s: string, from: nat)
    requires from < |s| && !White(s[from])
    ensures var next := Replay.FirstWord(s[from..]); next.Some? && WordAt(s, from, from, next.value)
  {
    var rest := s[from..];
    WhiteIs(rest[0]);
    WordOfIs(rest);
    var w := Replay.WordOf(rest);
    assert rest[..|w|] == s[from..from + |w|];
    assert |w| < |rest| ==> rest[|w|] == s[from + |w|];
  }

  /** At most one word comes next, and none when all is white. */
  lemma OneWordFollows(s: string, from: nat, i: nat, v: string, j: nat, w: string)
    requires WordAt(s, from, i, v) && WordAt(s, from, j, w)
    ensures v == w && !AllWhite(s, from, |s|)
  {
    hide White;
    forall k | i <= k < i + |v| ensures !White(s[k]) {
      assert s[i..i + |v|][k - i] == s[k];
    }
    forall k | j <= k < j + |w| ensures !White(s[k]) {
      assert s[j..j + |w|][k - j] == s[k];
    }
    assert !White(s[i]) && !White(s[j]);
    assert i == j;
    assert |v| == |w|;
  }

  /** A reading of the next word is right exactly if it is the one the grammar has. */
  lemma ComesIs(s: string, from: nat, word: string)
    requires from <= |s|
    ensures Comes(s, from, word) <==>
      word == match Replay.FirstWord(s[from..]) case Some(w) => w case None => s[from..]
  {
    hide Replay.FirstWord, AllWhite, WordAt;
    FirstWordIs(s, from);
    var next := Replay.FirstWord(s[from..]);
    forall i: nat, j: nat, v, w | WordAt(s, from, i, v) && WordAt(s, from, j, w) ensures v == w && !AllWhite(s, from, |s|) {
      OneWordFollows(s, from, i, v, j, w);
    }
  }

  /** The replay reads for a key what follows its first occurrence. */
  lemma ParseKvIs(event: string, key: string, word: string)
    ensures Replay.ParseKv(event, key) == Some(word) <==> Follows(event, key, word)
  {
    hide Replay.FirstWord, Comes;
    var at := Find(event, key);
    if at.Some? {
      assert key <= event[at.value..];
      assert FirstAt(event, key, at.value);
      ComesIs(event, at.value + |key|, word);
    }
  }

  /** An execution succeeded if "true" follows `ok=`, and spent the 64-bit number that follows `tokens=`, or nothing. */
  lemma ExecutedKindIs(event: string, ok: bool, tokens: Audit.U64)
    ensures Replay.ExecutedKind(event) == Replay.Executed(ok, tokens) <==>
      && (ok <==> Follows(event, "ok=", "true"))
      && ((exists w :: Follows(event, "tokens=", w) && SpellsU64(w, tokens))
          || (tokens == 0 && forall w, n | Follows(event, "tokens=", w) :: !SpellsU64(w, n)))
  {
    hide Replay.ParseKv, Follows, SpellsU64;
    ParseKvIs(event, "ok=", "true");
    var read := Replay.ParseKv(event, "tokens=");
    forall w ensures read == Some(w) <==> Follows(event, "tokens=", w) {
      ParseKvIs(event, "tokens=", w);
    }
    if read.Some? {
      ParseU64Is(read.value);
      var n := Audit.ParseU64(read.value);
      assert n.Some? ==> SpellsU64(read.value, n.value);
    }
  }
}
