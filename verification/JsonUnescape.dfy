/** One JSON-string unescape pass over an arbitrary byte buffer. */
module JsonUnescape {
  import opened Wrappers
  import opened Bytes

  const BACKSLASH: Byte := 92
  const LETTER_U: Byte := 117

  /** Unicode scalar values: every code point that is not a surrogate. */
  type Scalar = c: int | 0 <= c < 0xD800 || 0xE000 <= c < 0x110000

  predicate IsHighSurrogate(c: int) { 0xD800 <= c <= 0xDBFF }

  predicate IsLowSurrogate(c: int) { 0xDC00 <= c <= 0xDFFF }

  /** UTF-8 form of one scalar value, RFC 3629 section 3. */
  function Utf8Char(c: Scalar): (r: Bytes)
    ensures 1 <= |r| <= 4
    ensures c < 0x80 <==> r == [c]
    ensures |r| > 1 ==> forall i | 0 <= i < |r| :: r[i] >= 0x80
    ensures c < 0x10000 ==> |r| <= 3
  {
    if c < 0x80 then [c]
    else if c < 0x800 then [0xC0 + c / 0x40, 0x80 + c % 0x40]
    else if c < 0x10000 then [0xE0 + c / 0x1000, 0x80 + c / 0x40 % 0x40, 0x80 + c % 0x40]
    else [0xF0 + c / 0x40000, 0x80 + c / 0x1000 % 0x40, 0x80 + c / 0x40 % 0x40, 0x80 + c % 0x40]
  }

  // ----- What the bytes of a character stand for -----

  ghost predicate IsTail(b: int) { 0x80 <= b <= 0xBF }

  /** A well-formed sequence of bytes and the scalar value that it stands for, RFC 3629 section 4. */
  ghost predicate StandsFor(s: Bytes, c: int) {
    match |s|
    case 1 => s[0] <= 0x7F && c == s[0]
    case 2 => 0xC2 <= s[0] <= 0xDF && IsTail(s[1]) && c == Joined([s[0] - 0xC0, s[1] - 0x80])
    case 3 =>
      && 0xE0 <= s[0] <= 0xEF && IsTail(s[1]) && IsTail(s[2])
      && (s[0] == 0xE0 ==> s[1] >= 0xA0) && (s[0] == 0xED ==> s[1] <= 0x9F)
      && c == Joined([s[0] - 0xE0, s[1] - 0x80, s[2] - 0x80])
    case 4 =>
      && 0xF0 <= s[0] <= 0xF4 && IsTail(s[1]) && IsTail(s[2]) && IsTail(s[3])
      && (s[0] == 0xF0 ==> s[1] >= 0x90) && (s[0] == 0xF4 ==> s[1] <= 0x8F)
      && c == Joined([s[0] - 0xF0, s[1] - 0x80, s[2] - 0x80, s[3] - 0x80])
    case _ => false
  }

  /** A number from its digits to the base of 64. */
  ghost function Joined(digits: seq<int>): int {
    if digits == [] then 0 else Joined(digits[..|digits| - 1]) * 0x40 + digits[|digits| - 1]
  }

  lemma JoinedMeans(a: int, b: int, c: int, d: int)
    ensures Joined([a, b]) == a * 0x40 + b
    ensures Joined([a, b, c]) == a * 0x1000 + b * 0x40 + c
    ensures Joined([a, b, c, d]) == a * 0x40000 + b * 0x1000 + c * 0x40 + d
  {
    assert [a][..0] == [] && Joined([]) == 0;
    assert [a, b][..1] == [a] && [a, b, c][..2] == [a, b] && [a, b, c, d][..3] == [a, b, c];
    assert Joined([a]) == a;
    assert Joined([a, b]) == a * 0x40 + b;
    assert Joined([a, b, c]) == (a * 0x40 + b) * 0x40 + c;
    assert Joined([a, b, c, d]) == ((a * 0x40 + b) * 0x40 + c) * 0x40 + d;
  }

  lemma DigitsOf64(c: int, high: int, middle: int, low: int)
    requires 0 <= middle < 0x40 && 0 <= low < 0x40
    ensures c == high * 0x1000 + middle * 0x40 + low
      <==> c / 0x1000 == high && c / 0x40 % 0x40 == middle && c % 0x40 == low
  {
    assert c == c / 0x40 * 0x40 + c % 0x40 && c / 0x40 == c / 0x1000 * 0x40 + c / 0x40 % 0x40;
    if c == high * 0x1000 + middle * 0x40 + low {
      assert c / 0x40 == high * 0x40 + middle;
    }
  }

  lemma FourBytesMean(c: Scalar, s: Bytes)
    requires |s| == 4
    ensures StandsFor(s, c) <==> s == Utf8Char(c)
  {
    var b0: int, b1: int, b2: int, b3: int := s[0], s[1], s[2], s[3];
    JoinedMeans(b0 - 0xF0, b1 - 0x80, b2 - 0x80, b3 - 0x80);
    if IsTail(b2) && IsTail(b3) {
      DigitsOf64(c, (b0 - 0xF0) * 0x40 + (b1 - 0x80), b2 - 0x80, b3 - 0x80);
    }
    hide Joined;
    if c >= 0x10000 {
      assert c / 0x1000 == c / 0x40000 * 0x40 + c / 0x1000 % 0x40;
    }
  }

  lemma ThreeBytesMean(c: Scalar, s: Bytes)
    requires |s| == 3
    ensures StandsFor(s, c) <==> s == Utf8Char(c)
  {
    var b0: int, b1: int, b2: int := s[0], s[1], s[2];
    JoinedMeans(b0 - 0xE0, b1 - 0x80, b2 - 0x80, 0);
    if IsTail(b1) && IsTail(b2) {
      DigitsOf64(c, b0 - 0xE0, b1 - 0x80, b2 - 0x80);
    }
    hide Joined;
  }

  /** A scalar value is written as the one sequence of bytes that stands for it. */
  lemma Utf8CharMeans(c: Scalar, s: Bytes)
    ensures StandsFor(s, c) <==> s == Utf8Char(c)
  {
    if |s| == 4 {
      FourBytesMean(c, s);
    } else if |s| == 3 {
      ThreeBytesMean(c, s);
    } else {
      if |s| == 2 {
        var b0: int, b1: int := s[0], s[1];
        JoinedMeans(b0 - 0xC0, b1 - 0x80, 0, 0);
      }
      hide Joined;
    }
  }

  function Utf8(text: seq<Scalar>): Bytes {
    if text == [] then [] else Utf8Char(text[0]) + Utf8(text[1..])
  }

  /** The byte that a two-byte escape stands for. */
  function SimpleEscape(marker: Byte): Option<Byte> {
    if marker == 34 || marker == 92 || marker == 47 then Some(marker)
    else if marker == 98 then Some(8)
    else if marker == 102 then Some(12)
    else if marker == 110 then Some(10)
    else if marker == 114 then Some(13)
    else if marker == 116 then Some(9)
    else None
  }

  predicate IsHex(b: Byte) { 48 <= b <= 57 || 65 <= b <= 70 || 97 <= b <= 102 }

  function HexDigit(b: Byte): (d: int)
    requires IsHex(b)
    ensures 0 <= d < 16
  {
    if b <= 57 then b - 48 else if b <= 70 then b - 55 else b - 87
  }

  predicate IsHex4(s: Bytes) { |s| == 4 && IsHex(s[0]) && IsHex(s[1]) && IsHex(s[2]) && IsHex(s[3]) }

  function HexValue(s: Bytes): (v: int)
    requires IsHex4(s)
    ensures 0 <= v < 0x10000
  {
    0x1000 * HexDigit(s[0]) + 0x100 * HexDigit(s[1]) + 0x10 * HexDigit(s[2]) + HexDigit(s[3])
  }

  /** The scalar value named by a surrogate pair. */
  function Combine(high: int, low: int): (c: Scalar)
    requires IsHighSurrogate(high) && IsLowSurrogate(low)
    ensures c >= 0x10000
  {
    0x10000 + (high - 0xD800) * 0x400 + (low - 0xDC00)
  }

  /** True when six bytes at the front of `s` spell a Unicode escape. */
  predicate UnicodeEscapeFirst(s: Bytes) {
    |s| >= 6 && s[0] == BACKSLASH && s[1] == LETTER_U && IsHex4(s[2..6])
  }

  /** What the front of a nonempty buffer decodes to. */
  datatype Step = Step(output: Bytes, consumed: nat, changed: bool)

  function NextStep(s: Bytes): (r: Step)
    requires s != []
    ensures 1 <= r.consumed <= |s|
    ensures r.changed ==> |r.output| < r.consumed
    ensures !r.changed ==> r.output == s[..r.consumed]
  {
    if s[0] != BACKSLASH || |s| < 2 then Step([s[0]], 1, false)
    else if SimpleEscape(s[1]).Some? then Step([SimpleEscape(s[1]).value], 2, true)
    else if !UnicodeEscapeFirst(s) then Step([s[0]], 1, false)
    else
      var codepoint := HexValue(s[2..6]);
      if IsHighSurrogate(codepoint) then
        if UnicodeEscapeFirst(s[6..]) && IsLowSurrogate(HexValue(s[6..][2..6]))
        then Step(Utf8Char(Combine(codepoint, HexValue(s[6..][2..6]))), 12, true)
        else Step(s[..6], 6, false)
      else if IsLowSurrogate(codepoint) then Step(s[..6], 6, false)
      else Step(Utf8Char(codepoint), 6, true)
  }

  datatype Decoded = Decoded(bytes: Bytes, changed: bool)

  lemma StepAndRest(s: Bytes, step: Step, rest: Decoded)
    requires step.consumed <= |s| && |rest.bytes| <= |s| - step.consumed - (if rest.changed then 1 else 0)
    requires if step.changed then |step.output| < step.consumed else step.output == s[..step.consumed]
    requires !rest.changed ==> rest.bytes == s[step.consumed..]
    ensures |step.output + rest.bytes| <= |s| - (if step.changed || rest.changed then 1 else 0)
    ensures !(step.changed || rest.changed) ==> step.output + rest.bytes == s
  {
  }

  /** The whole-buffer meaning of one unescape pass. */
  function Unescape(s: Bytes): (r: Decoded)
    ensures |r.bytes| <= |s| - (if r.changed then 1 else 0)
    ensures !r.changed ==> r.bytes == s
  {
    hide NextStep;
    if s == [] then Decoded([], false)
    else
      var step := NextStep(s);
      var rest := Unescape(s[step.consumed..]);
      StepAndRest(s, step, rest);
      Decoded(step.output + rest.bytes, step.changed || rest.changed)
  }

  /** Decoding is one step, then the rest. */
  lemma UnescapeFirst(s: Bytes)
    requires s != []
    ensures var step := NextStep(s); var rest := Unescape(s[step.consumed..]);
      Unescape(s) == Decoded(step.output + rest.bytes, step.changed || rest.changed)
  {
    hide NextStep;
  }

  /** Decoding `value` continues from `cursor` after emitting `output`. */
  ghost predicate DecodedTo(value: Bytes, cursor: nat, output: Bytes, changed: bool)
    requires cursor <= |value|
  {
    var rest := Unescape(value[cursor..]);
    Unescape(value) == Decoded(output + rest.bytes, changed || rest.changed)
  }

  lemma DecodedToNext(value: Bytes, cursor: nat, output: Bytes, changed: bool)
    requires cursor < |value| && DecodedTo(value, cursor, output, changed)
    ensures var step := NextStep(value[cursor..]);
      DecodedTo(value, cursor + step.consumed, output + step.output, changed || step.changed)
  {
    hide NextStep;
    var tail := value[cursor..];
    var step := NextStep(tail);
    var rest := Unescape(tail[step.consumed..]);
    assert Unescape(tail) == Decoded(step.output + rest.bytes, step.changed || rest.changed);
    hide Unescape;
    assert tail[step.consumed..] == value[cursor + step.consumed..];
    assert output + (step.output + rest.bytes) == output + step.output + rest.bytes;
  }

  lemma DecodedFromStart(value: Bytes)
    ensures DecodedTo(value, 0, [], false)
  {
    hide Unescape;
    assert value[0..] == value && [] + Unescape(value).bytes == Unescape(value).bytes;
  }

  lemma DecodedToEnd(value: Bytes, output: Bytes, changed: bool)
    requires DecodedTo(value, |value|, output, changed)
    ensures Decoded(output, changed) == Unescape(value)
  {
    hide NextStep;
    assert value[|value|..] == [] && output + [] == output;
  }

  /** The cursor loop over a whole buffer computes exactly that meaning. */
  method UnescapeOnce(value: Bytes) returns (output: Bytes, changed: bool)
    ensures Decoded(output, changed) == Unescape(value)
  {
    hide NextStep, Unescape, DecodedTo;
    output, changed := [], false;
    var cursor := 0;
    DecodedFromStart(value);
    while cursor < |value|
      invariant 0 <= cursor <= |value|
      invariant DecodedTo(value, cursor, output, changed)
    {
      var step := NextStep(value[cursor..]);
      DecodedToNext(value, cursor, output, changed);
      output := output + step.output;
      cursor := cursor + step.consumed;
      changed := changed || step.changed;
    }
    DecodedToEnd(value, output, changed);
  }
}
