/** JSON string escaping (section 7 of RFC 8259) and what the inspector recovers from it. */
module JsonEscaping {
  import opened Wrappers
  import opened Bytes
  import opened JsonUnescape
  import opened Inspection

  /** How one character may be written inside a JSON string. */
  datatype Spelling = Raw | Short(marker: Byte) | Unicode(hex: Bytes) | Pair(high: Bytes, low: Bytes)

  datatype Unit = Unit(scalar: Scalar, spelling: Spelling)

  /** The markers of the two-character escapes and the characters that they stand for. */
  const SHORT_ESCAPES: seq<(Byte, Scalar)> :=
    [(34, 34), (92, 92), (47, 47), (98, 8), (102, 12), (110, 10), (114, 13), (116, 9)]

  const LOWER_DIGITS := "0123456789abcdef"
  const UPPER_DIGITS := "0123456789ABCDEF"

  /** A hexadecimal digit of this value, in either case. */
  ghost predicate IsDigitFor(b: Byte, d: int) {
    0 <= d < 16 && (b == LOWER_DIGITS[d] as int || b == UPPER_DIGITS[d] as int)
  }

  /** Four hexadecimal digits that spell a number. */
  ghost predicate SpellsHex(hex: Bytes, v: int) {
    && |hex| == 4 && 0 <= v < 0x10000
    && IsDigitFor(hex[0], v / 0x1000) && IsDigitFor(hex[1], v / 0x100 % 0x10)
    && IsDigitFor(hex[2], v / 0x10 % 0x10) && IsDigitFor(hex[3], v % 0x10)
  }

  /** A character may be written as itself, by its short escape, by its number, or by its surrogate pair. */
  ghost predicate SpelledRight(u: Unit) {
    match u.spelling
    case Raw => u.scalar >= 0x20 && u.scalar != 34 && u.scalar != 92
    case Short(marker) => (marker, u.scalar) in SHORT_ESCAPES
    case Unicode(hex) => SpellsHex(hex, u.scalar)
    case Pair(high, low) =>
      u.scalar >= 0x10000 && SpellsHex(high, HighHalf(u.scalar)) && SpellsHex(low, LowHalf(u.scalar))
  }

  /** The surrogates that section 2.1 of RFC 2781 gives a supplementary character. */
  function HighHalf(c: Scalar): (h: int)
    requires c >= 0x10000
    ensures 0xD800 <= h < 0xDC00
  {
    0xD800 + (c - 0x10000) / 0x400
  }

  function LowHalf(c: Scalar): (l: int)
    requires c >= 0x10000
    ensures 0xDC00 <= l < 0xE000
  {
    0xDC00 + (c - 0x10000) % 0x400
  }

  lemma DigitMeans(b: Byte, d: int)
    ensures IsDigitFor(b, d) <==> IsHex(b) && HexDigit(b) == d
  {
    if 0 <= d < 16 {
      assert LOWER_DIGITS[d] as int == if d < 10 then 48 + d else 87 + d;
      assert UPPER_DIGITS[d] as int == if d < 10 then 48 + d else 55 + d;
    }
  }

  lemma HexMeans(hex: Bytes, v: int)
    ensures SpellsHex(hex, v) <==> IsHex4(hex) && HexValue(hex) == v
  {
    hide IsDigitFor, IsHex, HexDigit;
    if |hex| == 4 && 0 <= v < 0x10000 {
      DigitMeans(hex[0], v / 0x1000);
      DigitMeans(hex[1], v / 0x100 % 0x10);
      DigitMeans(hex[2], v / 0x10 % 0x10);
      DigitMeans(hex[3], v % 0x10);
      DigitsOfNumber(v);
      if IsHex4(hex) && HexValue(hex) == v {
        NumberOfDigits(HexDigit(hex[0]), HexDigit(hex[1]), HexDigit(hex[2]), HexDigit(hex[3]));
      }
    }
  }

  lemma DigitsOfNumber(v: int)
    requires 0 <= v < 0x10000
    ensures v == 0x1000 * (v / 0x1000) + 0x100 * (v / 0x100 % 0x10) + 0x10 * (v / 0x10 % 0x10) + v % 0x10
  {
    assert v / 0x10 == v / 0x100 * 0x10 + v / 0x10 % 0x10;
    assert v / 0x100 == v / 0x1000 * 0x10 + v / 0x100 % 0x10;
  }

  lemma NumberOfDigits(a: int, b: int, c: int, d: int)
    requires 0 <= a < 16 && 0 <= b < 16 && 0 <= c < 16 && 0 <= d < 16
    ensures var v := 0x1000 * a + 0x100 * b + 0x10 * c + d;
      v / 0x1000 == a && v / 0x100 % 0x10 == b && v / 0x10 % 0x10 == c && v % 0x10 == d
  {
    var v := 0x1000 * a + 0x100 * b + 0x10 * c + d;
    assert v / 0x10 == 0x100 * a + 0x10 * b + c;
    assert v / 0x100 == 0x10 * a + b;
  }

  lemma ShortMeans(marker: Byte, c: Scalar)
    ensures (marker, c) in SHORT_ESCAPES <==> SimpleEscape(marker) == Some(c)
  {
    var pairs := SHORT_ESCAPES;
    assert pairs[0] == (34, 34) && pairs[1] == (92, 92) && pairs[2] == (47, 47) && pairs[3] == (98, 8);
    assert pairs[4] == (102, 12) && pairs[5] == (110, 10) && pairs[6] == (114, 13) && pairs[7] == (116, 9);
  }

  /** The two halves of a pair and the character that they stand for determine each other. */
  lemma PairMeans(c: Scalar, high: int, low: int)
    ensures c >= 0x10000 && high == HighHalf(c) && low == LowHalf(c)
      <==> IsHighSurrogate(high) && IsLowSurrogate(low) && Combine(high, low) == c
  {
  }

  /** A spelling that the standard allows is one that the decoder takes back. */
  lemma SpelledIsDecoded(u: Unit)
    requires SpelledRight(u)
    ensures match u.spelling
      case Raw => true
      case Short(marker) => SimpleEscape(marker) == Some(u.scalar)
      case Unicode(hex) => IsHex4(hex) && HexValue(hex) == u.scalar
      case Pair(high, low) =>
        && IsHex4(high) && IsHex4(low) && IsHighSurrogate(HexValue(high)) && IsLowSurrogate(HexValue(low))
        && Combine(HexValue(high), HexValue(low)) == u.scalar
  {
    hide SpellsHex, IsHex4, HexValue, SimpleEscape, Combine;
    match u.spelling
    case Raw =>
    case Short(marker) => ShortMeans(marker, u.scalar);
    case Unicode(hex) => HexMeans(hex, u.scalar);
    case Pair(high, low) =>
      HexMeans(high, HighHalf(u.scalar));
      HexMeans(low, LowHalf(u.scalar));
      PairMeans(u.scalar, HexValue(high), HexValue(low));
  }

  /** The characters written for one unit; everything but a raw character is ASCII. */
  function Written(u: Unit): seq<Scalar>
    requires SpelledRight(u)
  {
    match u.spelling
    case Raw => [u.scalar]
    case Short(marker) => [92, marker]
    case Unicode(hex) => [92, 117, hex[0], hex[1], hex[2], hex[3]]
    case Pair(high, low) =>
      [92, 117, high[0], high[1], high[2], high[3], 92, 117, low[0], low[1], low[2], low[3]]
  }

  ghost predicate AllSpelledRight(units: seq<Unit>) {
    forall i | 0 <= i < |units| :: SpelledRight(units[i])
  }

  function Plain(units: seq<Unit>): seq<Scalar> {
    if units == [] then [] else [units[0].scalar] + Plain(units[1..])
  }

  function Escaped(units: seq<Unit>): seq<Scalar>
    requires AllSpelledRight(units)
  {
    if units == [] then [] else Written(units[0]) + Escaped(units[1..])
  }

  predicate AnyEscape(units: seq<Unit>) {
    exists i | 0 <= i < |units| :: !units[i].spelling.Raw?
  }

  lemma {:induction false} Utf8Append(a: seq<Scalar>, b: seq<Scalar>)
    ensures Utf8(a + b) == Utf8(a) + Utf8(b)
  {
    if a == [] {
      assert a + b == b;
    } else {
      assert (a + b)[1..] == a[1..] + b;
      Utf8Append(a[1..], b);
    }
  }

  /** UTF-8 leaves ASCII text as it is. */
  lemma {:induction false} Utf8Ascii(text: seq<Scalar>)
    requires forall i | 0 <= i < |text| :: text[i] < 0x80
    ensures Utf8(text) == text
  {
    if text != [] {
      Utf8Ascii(text[1..]);
      assert text == [text[0]] + text[1..];
    }
  }

  predicate NoBackslash(s: Bytes) {
    forall i | 0 <= i < |s| :: s[i] != BACKSLASH
  }

  predicate NoBackslashText(text: seq<Scalar>) {
    forall i | 0 <= i < |text| :: text[i] != 92
  }

  lemma {:induction false} Utf8NoBackslash(text: seq<Scalar>)
    requires NoBackslashText(text)
    ensures NoBackslash(Utf8(text))
  {
    if text != [] {
      Utf8NoBackslash(text[1..]);
    }
  }

  /** A byte that is no backslash is one step. */
  lemma PlainByteDecodes(b: Byte, rest: Bytes)
    requires b != BACKSLASH
    ensures Unescape([b] + rest) == Decoded([b] + Unescape(rest).bytes, Unescape(rest).changed)
  {
    assert NextStep([b] + rest) == Step([b], 1, false);
    assert ([b] + rest)[1..] == rest;
  }

  /** Bytes before the first backslash pass through. */
  lemma {:induction false} PassThrough(s: Bytes, rest: Bytes)
    requires NoBackslash(s)
    ensures Unescape(s + rest) == Decoded(s + Unescape(rest).bytes, Unescape(rest).changed)
  {
    hide Unescape;
    if s == [] {
      assert s + rest == rest;
      assert [] + Unescape(rest).bytes == Unescape(rest).bytes;
    } else {
      PassThrough(s[1..], rest);
      PlainByteDecodes(s[0], s[1..] + rest);
      assert s == [s[0]] + s[1..];
      Associate([s[0]], s[1..], rest);
      Associate([s[0]], s[1..], Unescape(rest).bytes);
    }
  }

  lemma Associate<T>(a: seq<T>, b: seq<T>, c: seq<T>)
    ensures a + b + c == a + (b + c)
  {
  }

  lemma UnicodeStep(hex: Bytes, c: Scalar, s: Bytes, rest: Bytes)
    requires IsHex4(hex) && HexValue(hex) == c
    requires s == [92, 117, hex[0], hex[1], hex[2], hex[3]] + rest
    ensures s != [] && NextStep(s) == Step(Utf8Char(c), 6, true)
  {
    hide IsHex, HexValue, Utf8Char;
    assert s[2..6] == hex;
  }

  lemma PairStep(high: Bytes, low: Bytes, s: Bytes, rest: Bytes)
    requires IsHex4(high) && IsHex4(low) && IsHighSurrogate(HexValue(high)) && IsLowSurrogate(HexValue(low))
    requires s == [92, 117, high[0], high[1], high[2], high[3], 92, 117, low[0], low[1], low[2], low[3]] + rest
    ensures s != [] && NextStep(s) == Step(Utf8Char(Combine(HexValue(high), HexValue(low))), 12, true)
  {
    hide IsHex, HexValue, Utf8Char, Combine;
    assert s[2..6] == high;
    assert s[6..][2..6] == low;
    assert UnicodeEscapeFirst(s[6..]);
  }

  /** One escape, whatever follows it, is one step back to its character. */
  lemma EscapeStep(u: Unit, rest: Bytes)
    requires SpelledRight(u) && !u.spelling.Raw?
    ensures Utf8(Written(u)) == Written(u)
    ensures Written(u) + rest != []
    ensures NextStep(Written(u) + rest) == Step(Utf8Char(u.scalar), |Written(u)|, true)
  {
    hide NextStep, HexValue, Utf8, Utf8Char, Combine, SpellsHex, IsHex4;
    SpelledIsDecoded(u);
    var w := Written(u);
    WrittenIsAscii(u);
    Utf8Ascii(w);
    match u.spelling {
      case Short(marker) => ShortStep(marker, rest);
      case Unicode(hex) => UnicodeStep(hex, u.scalar, w + rest, rest);
      case Pair(high, low) => PairStep(high, low, w + rest, rest);
    }
  }

  lemma WrittenIsAscii(u: Unit)
    requires SpelledRight(u) && !u.spelling.Raw?
    ensures forall i | 0 <= i < |Written(u)| :: Written(u)[i] < 0x80
  {
    hide HexValue, SpellsHex, Combine;
    SpelledIsDecoded(u);
  }

  lemma ShortStep(marker: Byte, rest: Bytes)
    requires SimpleEscape(marker).Some?
    ensures NextStep([92, marker] + rest) == Step(Utf8Char(SimpleEscape(marker).value), 2, true)
  {
  }

  /** Main result: nothing else is decoded. What a changing step takes is an escape that the standard allows. */
  lemma ChangedStepIsEscape(s: Bytes) returns (u: Unit)
    requires s != [] && NextStep(s).changed
    ensures SpelledRight(u) && !u.spelling.Raw? && Written(u) <= s
    ensures NextStep(s) == Step(Utf8Char(u.scalar), |Written(u)|, true)
  {
    hide HexValue, Utf8Char, Combine, SpellsHex, IsHex, SimpleEscape, HighHalf, LowHalf;
    if SimpleEscape(s[1]).Some? {
      var c := SimpleEscape(s[1]).value;
      ShortIsAscii(s[1]);
      ShortMeans(s[1], c);
      u := Unit(c, Short(s[1]));
    } else {
      var high := s[2..6];
      var codepoint := HexValue(high);
      HexMeans(high, codepoint);
      if IsHighSurrogate(codepoint) {
        var low := s[6..][2..6];
        var c := Combine(codepoint, HexValue(low));
        HexMeans(low, HexValue(low));
        PairMeans(c, codepoint, HexValue(low));
        u := Unit(c, Pair(high, low));
        assert Written(u) == s[..12] by {
          assert forall i | 0 <= i < 4 :: high[i] == s[2 + i] && low[i] == s[8 + i];
        }
      } else {
        u := Unit(codepoint, Unicode(high));
        assert Written(u) == s[..6] by {
          assert forall i | 0 <= i < 4 :: high[i] == s[2 + i];
        }
      }
    }
  }

  lemma ShortIsAscii(marker: Byte)
    requires SimpleEscape(marker).Some?
    ensures Utf8Char(SimpleEscape(marker).value) == [SimpleEscape(marker).value]
  {
  }

  lemma EscapedCharDecodes(u: Unit, rest: Bytes)
    requires SpelledRight(u)
    ensures Unescape(Utf8(Written(u)) + rest)
      == Decoded(Utf8Char(u.scalar) + Unescape(rest).bytes, !u.spelling.Raw? || Unescape(rest).changed)
  {
    hide NextStep, Unescape, Utf8Char, SpelledRight;
    if u.spelling.Raw? {
      RawHasNoBackslash(u);
      PassThrough(Utf8Char(u.scalar), rest);
    } else {
      EscapeStep(u, rest);
      var w: Bytes := Utf8(Written(u));
      assert (w + rest)[|w|..] == rest;
      UnescapeFirst(w + rest);
    }
  }

  lemma RawHasNoBackslash(u: Unit)
    requires SpelledRight(u) && u.spelling.Raw?
    ensures Utf8(Written(u)) == Utf8Char(u.scalar)
    ensures NoBackslash(Utf8Char(u.scalar))
  {
    assert Written(u)[1..] == [];
  }

  /** Unescaping inverts every JSON escaping, whatever bytes follow. */
  lemma {:induction false} UnescapeInvertsBefore(units: seq<Unit>, rest: Bytes)
    requires AllSpelledRight(units)
    ensures Unescape(Utf8(Escaped(units)) + rest)
      == Decoded(Utf8(Plain(units)) + Unescape(rest).bytes, AnyEscape(units) || Unescape(rest).changed)
  {
    hide Unescape, SpelledRight, Utf8Char, AnyEscape;
    if units == [] {
      NoEscapeInNothing(units);
      assert Utf8(Escaped(units)) + rest == rest;
      assert Utf8(Plain(units)) + Unescape(rest).bytes == Unescape(rest).bytes;
    } else {
      var u, others := units[0], units[1..];
      UnescapeInvertsBefore(others, rest);
      EscapedCharDecodes(u, Utf8(Escaped(others)) + rest);
      Utf8Append(Written(u), Escaped(others));
      Associate(Utf8(Written(u)), Utf8(Escaped(others)), rest);
      PlainFirst(units);
      Associate(Utf8Char(u.scalar), Utf8(Plain(others)), Unescape(rest).bytes);
      AnyEscapeSplit(units);
    }
  }

  lemma PlainFirst(units: seq<Unit>)
    requires units != []
    ensures Utf8(Plain(units)) == Utf8Char(units[0].scalar) + Utf8(Plain(units[1..]))
  {
    assert Plain(units)[1..] == Plain(units[1..]);
  }

  lemma NoEscapeInNothing(units: seq<Unit>)
    requires units == []
    ensures !AnyEscape(units)
  {
  }

  lemma AnyEscapeSplit(units: seq<Unit>)
    requires units != []
    ensures AnyEscape(units) == (!units[0].spelling.Raw? || AnyEscape(units[1..]))
  {
    if AnyEscape(units) && units[0].spelling.Raw? {
      var i :| 0 <= i < |units| && !units[i].spelling.Raw?;
      assert !units[1..][i - 1].spelling.Raw?;
    }
    if AnyEscape(units[1..]) {
      var i :| 0 <= i < |units[1..]| && !units[1..][i].spelling.Raw?;
      assert !units[i + 1].spelling.Raw?;
    }
  }

  lemma UnescapeInvertsEscape(units: seq<Unit>)
    requires AllSpelledRight(units)
    ensures Unescape(Utf8(Escaped(units))) == Decoded(Utf8(Plain(units)), AnyEscape(units))
  {
    UnescapeInvertsBefore(units, []);
    assert Utf8(Escaped(units)) + [] == Utf8(Escaped(units));
    assert Utf8(Plain(units)) + [] == Utf8(Plain(units));
  }

  function LowerHex(d: int): (b: Byte)
    requires 0 <= d < 16
    ensures IsDigitFor(b, d) && IsLower(b)
  {
    DigitMeans(if d < 10 then 48 + d else 87 + d, d);
    if d < 10 then 48 + d else 87 + d
  }

  ghost predicate IsLower(b: Byte) {
    exists d | 0 <= d < 16 :: b == LOWER_DIGITS[d] as int
  }

  function Hex4(v: int): (h: Bytes)
    requires 0 <= v < 0x10000
    ensures SpellsHex(h, v) && |h| == 4 && forall i | 0 <= i < 4 :: IsLower(h[i])
  {
    [LowerHex(v / 0x1000), LowerHex(v / 0x100 % 0x10), LowerHex(v / 0x10 % 0x10), LowerHex(v % 0x10)]
  }

  /** The surrogate pair of a supplementary character. */
  function PairOf(c: Scalar): (u: Unit)
    requires c >= 0x10000
    ensures SpelledRight(u) && u.scalar == c && u.spelling.Pair?
    ensures forall i | 0 <= i < 4 :: IsLower(u.spelling.high[i]) && IsLower(u.spelling.low[i])
  {
    hide SpellsHex, IsLower, HighHalf, LowHalf;
    Unit(c, Pair(Hex4(HighHalf(c)), Hex4(LowHalf(c))))
  }

  /** The characters that `json.dumps` writes by their short escapes. */
  ghost predicate HasShort(c: Scalar) {
    c == 34 || c == 92 || 8 <= c <= 10 || c == 12 || c == 13
  }

  /** The spelling that `json.dumps` picks: as it is where it may be, then short, then by number, in lower case. */
  function DumpsUnit(c: Scalar, ensureAscii: bool): (u: Unit)
    ensures SpelledRight(u) && u.scalar == c
    ensures u.spelling.Raw? <==> 0x20 <= c && c != 34 && c != 92 && (ensureAscii ==> c <= 0x7E)
    ensures u.spelling.Short? <==> HasShort(c)
    ensures u.spelling.Unicode? ==> forall i | 0 <= i < 4 :: IsLower(u.spelling.hex[i])
    ensures u.spelling.Pair? ==> forall i | 0 <= i < 4 :: IsLower(u.spelling.high[i]) && IsLower(u.spelling.low[i])
  {
    hide SpellsHex, IsLower;
    ShortDumps();
    if c == 34 then Unit(c, Short(34))
    else if c == 92 then Unit(c, Short(92))
    else if c == 10 then Unit(c, Short(110))
    else if c == 13 then Unit(c, Short(114))
    else if c == 9 then Unit(c, Short(116))
    else if c == 12 then Unit(c, Short(102))
    else if c == 8 then Unit(c, Short(98))
    else if c < 0x20 || (ensureAscii && 0x7F <= c < 0x10000) then Unit(c, Unicode(Hex4(c)))
    else if ensureAscii && c >= 0x10000 then PairOf(c)
    else Unit(c, Raw)
  }

  lemma ShortDumps()
    ensures (34, 34) in SHORT_ESCAPES && (92, 92) in SHORT_ESCAPES && (110, 10) in SHORT_ESCAPES
    ensures (114, 13) in SHORT_ESCAPES && (116, 9) in SHORT_ESCAPES && (102, 12) in SHORT_ESCAPES
    ensures (98, 8) in SHORT_ESCAPES
  {
    ShortMeans(34, 34);
    ShortMeans(92, 92);
    ShortMeans(110, 10);
    ShortMeans(114, 13);
    ShortMeans(116, 9);
    ShortMeans(102, 12);
    ShortMeans(98, 8);
  }

  function DumpsUnits(text: seq<Scalar>, ensureAscii: bool): (units: seq<Unit>)
    ensures AllSpelledRight(units) && Plain(units) == text
  {
    if text == [] then [] else [DumpsUnit(text[0], ensureAscii)] + DumpsUnits(text[1..], ensureAscii)
  }

  /** `json.dumps(text, ensure_ascii=...)[1:-1].encode("utf-8")`. */
  function DumpsBody(text: seq<Scalar>, ensureAscii: bool): Bytes {
    Utf8(Escaped(DumpsUnits(text, ensureAscii)))
  }

  /** The byte patterns searched for one credential value. */
  function EncodedPatterns(value: seq<Scalar>): set<Bytes> {
    {Utf8(value), DumpsBody(value, false), DumpsBody(value, true)} - {[]}
  }

  /** Both forms that `json.dumps` writes decode back to the value. */
  lemma UnescapeInvertsDumps(value: seq<Scalar>, ensureAscii: bool)
    ensures Unescape(DumpsBody(value, ensureAscii)).bytes == Utf8(value)
    ensures value != [] ==>
      DumpsBody(value, ensureAscii) in EncodedPatterns(value) && Utf8(value) in EncodedPatterns(value)
  {
    UnescapeInvertsEscape(DumpsUnits(value, ensureAscii));
  }

  // ----- Where decoding cannot straddle -----

  /** No backslash comes after the last quote of `s`. */
  ghost predicate Settled(s: Bytes) {
    exists i :: SettledFrom(s, i)
  }

  ghost predicate SettledFrom(s: Bytes, i: int) {
    0 <= i <= |s| && (i == 0 || s[i - 1] == 34) && NoBackslash(s[i..])
  }

  /** Twelve bytes decide a step. */
  lemma TwelveDecide(left: Bytes, rest: Bytes)
    requires |left| >= 12
    ensures NextStep(left + rest) == NextStep(left) && NextStep(left).consumed <= 12
  {
    hide HexValue, Utf8Char, Combine, IsHex4;
    var s := left + rest;
    assert s[0] == left[0] && s[1] == left[1] && s[..6] == left[..6] && s[2..6] == left[2..6];
    assert s[6..][0] == left[6..][0] && s[6..][1] == left[6..][1] && s[6..][2..6] == left[6..][2..6];
  }

  /** Six bytes do, if no whole Unicode escape follows them. */
  lemma SixDecide(left: Bytes, rest: Bytes)
    requires |left| >= 6 && !UnicodeEscapeFirst(left[6..] + rest)
    ensures NextStep(left + rest) == NextStep(left[..6]) && NextStep(left[..6]).consumed <= 6
  {
    hide HexValue, Utf8Char, Combine, IsHex4;
    var s, six := left + rest, left[..6];
    assert s[6..] == left[6..] + rest;
    assert s[0] == six[0] && s[1] == six[1] && s[..6] == six[..6] && s[2..6] == six[2..6];
  }

  /** Two bytes do, if they start no whole Unicode escape. */
  lemma TwoDecide(left: Bytes, rest: Bytes)
    requires |left| >= 2 && !UnicodeEscapeFirst(left + rest)
    ensures NextStep(left + rest) == NextStep(left[..2]) && NextStep(left[..2]).consumed <= 2
  {
    hide HexValue, Utf8Char, Combine, IsHex4;
    var s := left + rest;
    assert s[0] == left[..2][0] && s[1] == left[..2][1];
  }

  lemma StepStopsAtQuote(left: Bytes, rest: Bytes)
    requires left != []
    ensures var step := NextStep(left + [34] + rest);
      step == NextStep(left + [34]) && (step.consumed <= |left| || (left == [92] && step == Step([34], 2, true)))
  {
    hide NextStep, UnicodeEscapeFirst;
    var t := left + [34];
    assert t + [] == t;
    if |left| >= 12 {
      Associate(left, [34], rest);
      TwelveDecide(left, [34] + rest);
      TwelveDecide(left, [34]);
    } else if |left| >= 6 {
      QuoteEndsEscape(left[6..], rest);
      QuoteEndsEscape(left[6..], []);
      assert t[6..] == left[6..] + [34] && t[6..] + [] == left[6..] + [34] + [] && t[..6] == left[..6];
      SixDecide(t, rest);
      SixDecide(t, []);
    } else {
      QuoteEndsEscape(left, rest);
      QuoteEndsEscape(left, []);
      TwoDecide(t, rest);
      TwoDecide(t, []);
      if |left| == 1 {
        assert t[..2] == [left[0], 34];
        OneAndQuote(left[0]);
      }
    }
  }

  lemma OneAndQuote(b: Byte)
    ensures NextStep([b, 34]) == if b == 92 then Step([34], 2, true) else Step([b], 1, false)
  {
  }

  /** Where a quote stands, there is no whole Unicode escape. */
  lemma QuoteEndsEscape(left: Bytes, rest: Bytes)
    requires |left| < 6
    ensures !UnicodeEscapeFirst(left + [34] + rest)
  {
    var s := left + [34] + rest;
    assert s[|left|] == 34 && !IsHex(34);
    assert |s| >= 6 && |left| >= 2 ==> s[2..6][|left| - 2] == 34;
  }

  /** A quote ends a step, whatever is around it, and stays a quote. */
  lemma {:induction false} QuoteIsBoundary(left: Bytes, rest: Bytes)
    ensures var front := Unescape(left + [34]);
      && Unescape(left + [34] + rest)
           == Decoded(front.bytes + Unescape(rest).bytes, front.changed || Unescape(rest).changed)
      && front.bytes != [] && front.bytes[|front.bytes| - 1] == 34
    decreases |left|
  {
    hide NextStep, Unescape;
    if left == [] {
      PlainByteDecodes(34, rest);
      PlainByteDecodes(34, []);
      UnescapeNothing();
      assert [] + [34] + rest == [34] + rest && [] + [34] == [34] == [34] + [];
    } else {
      var step := NextStep(left + [34]);
      StepStopsAtQuote(left, rest);
      UnescapeFirst(left + [34] + rest);
      UnescapeFirst(left + [34]);
      SkipQuoted(left, rest, step.consumed);
      if step.consumed <= |left| {
        var more := left[step.consumed..];
        QuoteIsBoundary(more, rest);
        Associate(step.output, Unescape(more + [34]).bytes, Unescape(rest).bytes);
      } else {
        UnescapeNothing();
        assert [34] + [] == [34];
      }
    }
  }

  lemma SkipQuoted(left: Bytes, rest: Bytes, n: nat)
    requires n <= |left| + 1
    ensures (left + [34] + rest)[n..] == if n <= |left| then left[n..] + [34] + rest else rest
    ensures (left + [34])[n..] == if n <= |left| then left[n..] + [34] else []
  {
  }

  lemma UnescapeNothing()
    ensures Unescape([]) == Decoded([], false)
  {
  }

  /** After settled bytes decoding starts afresh, and what they decode to is settled. */
  lemma SettledIsBoundary(left: Bytes, rest: Bytes)
    requires Settled(left)
    ensures Unescape(left + rest).bytes == Unescape(left).bytes + Unescape(rest).bytes
    ensures Settled(Unescape(left).bytes)
  {
    hide Unescape, NoBackslash;
    var i :| SettledFrom(left, i);
    var plain := left[i..];
    PassThrough(plain, rest);
    PassThrough(plain, []);
    UnescapeNothing();
    assert plain + [] == plain;
    if i == 0 {
      assert left == plain;
      assert SettledFrom(plain, 0) by { assert plain[0..] == plain; }
    } else {
      var quoted := left[..i - 1];
      assert left == quoted + [34] + plain && left + rest == quoted + [34] + (plain + rest);
      QuoteIsBoundary(quoted, plain + rest);
      QuoteIsBoundary(quoted, plain);
      var front := Unescape(quoted + [34]).bytes;
      Associate(front, plain, Unescape(rest).bytes);
      assert (front + plain)[|front|..] == plain;
      assert SettledFrom(front + plain, |front|);
    }
  }

  lemma SettledAppend(left: Bytes, more: Bytes)
    requires Settled(left) && Settled(more)
    ensures Settled(left + more)
  {
    var i :| SettledFrom(left, i);
    var j :| SettledFrom(more, j);
    if j == 0 {
      assert (left + more)[i..] == left[i..] + more[0..];
      assert SettledFrom(left + more, i);
    } else {
      assert (left + more)[|left| + j..] == more[j..];
      assert SettledFrom(left + more, |left| + j);
    }
  }

  /** No backslash comes after the last quote of a text, as after the opening quote of a JSON string. */
  ghost predicate SettledText(text: seq<Scalar>) {
    exists i | 0 <= i <= |text| :: EndsQuoted(text, i) && NoBackslashText(text[i..])
  }

  predicate EndsQuoted(text: seq<Scalar>, i: int)
    requires 0 <= i <= |text|
  {
    i == 0 || text[i - 1] == 34
  }

  lemma Utf8Settled(text: seq<Scalar>)
    requires SettledText(text)
    ensures Settled(Utf8(text))
  {
    hide Utf8, NoBackslash, NoBackslashText;
    var i :| 0 <= i <= |text| && EndsQuoted(text, i) && NoBackslashText(text[i..]);
    Utf8NoBackslash(text[i..]);
    if i == 0 {
      assert text[0..] == text;
      assert Utf8(text)[0..] == Utf8(text);
      assert SettledFrom(Utf8(text), 0);
    } else {
      var quoted, plain := text[..i - 1], text[i..];
      assert text == quoted + [34] + plain;
      Utf8Append(quoted + [34], plain);
      Utf8Append(quoted, [34]);
      Utf8Ascii([34]);
      var front := Utf8(quoted) + [34];
      assert Utf8(text) == front + Utf8(plain);
      assert Utf8(text)[|front|..] == Utf8(plain);
      assert SettledFrom(Utf8(text), |front|);
    }
  }

  /** `outer` carries `inner` as a JSON string: a settled text, the escaped form, anything. */
  ghost predicate Carries(outer: seq<Scalar>, before: seq<Scalar>, units: seq<Unit>, after: seq<Scalar>) {
    AllSpelledRight(units) && SettledText(before) && outer == before + Escaped(units) + after
  }

  ghost predicate Nests(outer: seq<Scalar>, inner: seq<Scalar>) {
    exists before, units, after :: Plain(units) == inner && Carries(outer, before, units, after)
  }

  /** Each text is carried, JSON-escaped, inside the next. */
  ghost predicate NestedIn(texts: seq<seq<Scalar>>) {
    && texts != []
    && forall i | 0 < i < |texts| :: Nests(texts[i], texts[i - 1])
  }

  /** One pass over a carrying text uncovers what it carries. */
  lemma PeelOne(outer: seq<Scalar>, inner: seq<Scalar>, left: Bytes, right: Bytes) returns (left': Bytes, right': Bytes)
    requires Nests(outer, inner) && Settled(left)
    ensures Settled(left')
    ensures Unescape(left + Utf8(outer) + right).bytes == left' + Utf8(inner) + right'
  {
    hide Unescape, AllSpelledRight, Settled, SettledText;
    var before, units, after :| Plain(units) == inner && Carries(outer, before, units, after);
    var escaped := Utf8(Escaped(units));
    var front := left + Utf8(before);
    Utf8Settled(before);
    SettledAppend(left, Utf8(before));
    left' := Unescape(front).bytes;
    var rest := Utf8(after) + right;
    right' := Unescape(rest).bytes;
    assert left + Utf8(outer) + right == front + (escaped + rest) by {
      Utf8Append(before + Escaped(units), after);
      Utf8Append(before, Escaped(units));
      Regroup(left, Utf8(before), escaped, Utf8(after), right);
    }
    SettledIsBoundary(front, escaped + rest);
    UnescapeInvertsBefore(units, rest);
    Associate(left', Utf8(inner), right');
  }

  lemma Regroup(a: Bytes, b: Bytes, c: Bytes, d: Bytes, e: Bytes)
    ensures a + (b + c + d) + e == a + b + (c + (d + e))
  {
    Associate(a, b + c + d, e);
    Associate(b + c, d, e);
    Associate(b, c, d + e);
    Associate(a, b, c + (d + e));
  }

  lemma NothingIsSettled()
    ensures Settled([])
  {
    assert SettledFrom([], 0);
  }

  lemma {:induction false} PeelMany(texts: seq<seq<Scalar>>, k: nat) returns (left: Bytes, right: Bytes)
    requires NestedIn(texts) && k < |texts|
    ensures Settled(left)
    ensures Layer(Utf8(texts[|texts| - 1]), k) == left + Utf8(texts[|texts| - 1 - k]) + right
  {
    hide Unescape, Nests, Settled, Utf8;
    if k == 0 {
      left, right := [], [];
      NothingIsSettled();
    } else {
      left, right := PeelMany(texts, k - 1);
      left, right := PeelOne(texts[|texts| - k], texts[|texts| - 1 - k], left, right);
    }
  }

  /** Main result: a credential nested in JSON strings is found through eight levels and never passes as clean. */
  lemma NestedCredentialIsCaught(patterns: seq<Bytes>, texts: seq<seq<Scalar>>)
    requires NestedIn(texts) && OccursAny(patterns, Utf8(texts[0]))
    ensures Inspect(patterns, Utf8(texts[|texts| - 1])) != Clean
    ensures |texts| - 1 <= MAX_ROUNDS ==> Inspect(patterns, Utf8(texts[|texts| - 1])) == Found
  {
    hide Unescape, Nests;
    var value, k := Utf8(texts[|texts| - 1]), |texts| - 1;
    var left, right := PeelMany(texts, k);
    var p :| 0 <= p < |patterns| && Occurs(patterns[p], Utf8(texts[0]));
    OccursInWhole(patterns[p], left, Utf8(texts[0]), right);
    assert OccursAny(patterns, Layer(value, k));
    if k > MAX_ROUNDS && !Unescape(Layer(value, MAX_ROUNDS)).changed {
      LayerStays(value, MAX_ROUNDS, k);
    }
  }

  /** After a lone backslash the promise fails: it takes the first letter of the escaped credential with it. */
  lemma StrayBackslashHidesCredential()
    ensures var units := [Unit(110, Raw), Unit(34, Short(34))];
      && AllSpelledRight(units) && Plain(units) == [110, 34]
      && Inspect([Utf8([110, 34])], Utf8([92] + Escaped(units))) == Clean
  {
    var units := [Unit(110, Raw), Unit(34, Short(34))];
    assert units[1..] == [Unit(34, Short(34))] && units[1..][1..] == [];
    assert Escaped(units[1..]) == [92, 34];
    assert [92] + Escaped(units) == [92, 110, 92, 34];
    assert Plain(units) == [110, 34];
    Utf8Ascii([110, 34]);
    Utf8Ascii(LOST);
    LostCredentialIsClean();
  }

  const LOST: Bytes := [92, 110, 92, 34]
  const REMAINS: Bytes := [10, 34]

  lemma LostDecodes()
    ensures Unescape(LOST) == Decoded(REMAINS, true)
  {
    assert LOST[2..] == [92, 34] && LOST[2..][2..] == [];
    assert NextStep(LOST) == Step([10], 2, true) && NextStep([92, 34]) == Step([34], 2, true);
    assert [10] + ([34] + []) == REMAINS;
  }

  lemma RemainsStays()
    ensures Unescape(REMAINS) == Decoded(REMAINS, false)
  {
    hide NextStep, Unescape;
    PassThrough(REMAINS, []);
    UnescapeNothing();
    assert REMAINS + [] == REMAINS;
  }

  lemma TwoBytesAt(pattern: Bytes, text: Bytes, i: int)
    requires |pattern| == 2 && OccursAt(pattern, text, i)
    ensures text[i] == pattern[0] && text[i + 1] == pattern[1]
  {
    assert text[i..i + 2][0] == text[i] && text[i..i + 2][1] == text[i + 1];
  }

  lemma NotThere()
    ensures !OccursAny([[110, 34]], LOST) && !OccursAny([[110, 34]], REMAINS)
  {
    var pattern: Bytes := [110, 34];
    forall i ensures !OccursAt(pattern, LOST, i) && !OccursAt(pattern, REMAINS, i) {
      if OccursAt(pattern, LOST, i) {
        TwoBytesAt(pattern, LOST, i);
      }
      if OccursAt(pattern, REMAINS, i) {
        TwoBytesAt(pattern, REMAINS, i);
      }
    }
  }

  lemma LostCredentialIsClean()
    ensures Inspect([[110, 34]], LOST) == Clean
  {
    LostDecodes();
    RemainsStays();
    NotThere();
    hide Unescape, OccursAny;
    assert Layer(LOST, 1) == REMAINS by { assert Layer(LOST, 0) == LOST; }
    forall i | 0 < i <= MAX_ROUNDS ensures Layer(LOST, i) == REMAINS {
      LayerStays(LOST, 1, i);
    }
  }
}
