/** Where a text may be cut so that decoding both parts decodes the whole: wherever no escape is cut off. */
module EscapeBoundaries {
  import opened Bytes
  import opened JsonUnescape
  import opened StreamingUnescaper
  import opened Inspection
  import opened JsonEscaping

  // ----- Escapes that are cut off -----

  predicate IsD(b: Byte) { b == 68 || b == 100 }

  /** A digit after which `\uD` is a low surrogate. */
  predicate IsLowDigit(b: Byte) { 67 <= b <= 70 || 99 <= b <= 102 }

  predicate AllHex(s: Bytes) {
    forall i | 0 <= i < |s| :: IsHex(s[i])
  }

  /** The digits of a low surrogate, as far as they go. */
  predicate LowDigits(s: Bytes) {
    |s| <= 4 && AllHex(s) && (|s| > 0 ==> IsD(s[0])) && (|s| > 1 ==> IsLowDigit(s[1]))
  }

  /** Less than six bytes, which start a Unicode escape. */
  predicate EscapeBegun(s: Bytes) {
    |s| < 6 && (|s| > 0 ==> s[0] == BACKSLASH) && (|s| > 1 ==> s[1] == LETTER_U) && (|s| > 2 ==> AllHex(s[2..]))
  }

  predicate HighFirst(s: Bytes) {
    UnicodeEscapeFirst(s) && IsHighSurrogate(HexValue(s[2..6]))
  }

  /** A whole escape of a high surrogate and the beginning of that of a low one. */
  predicate PairBegun(s: Bytes) {
    6 <= |s| < 12 && HighFirst(s) && EscapeBegun(s[6..]) && (|s| > 8 ==> LowDigits(s[8..]))
  }

  /** Less than a whole escape that could still become one; that of a lone low surrogate never changes. */
  predicate CutOff(s: Bytes) {
    s != [] && ((EscapeBegun(s) && !(|s| >= 4 && LowDigits(s[2..]))) || PairBegun(s))
  }

  /** Decoding `s` step by step meets no escape that is cut off. */
  predicate NothingCutOff(s: Bytes)
    decreases |s|
  {
    s == [] || (!CutOff(s) && NothingCutOff(s[NextStep(s).consumed..]))
  }

  // ----- Without a cut, decoding splits -----

  lemma SurrogateDigits(h: Bytes)
    requires IsHex4(h)
    ensures IsLowSurrogate(HexValue(h)) <==> IsD(h[0]) && IsLowDigit(h[1])
  {
    var a, b, c, d := HexDigit(h[0]), HexDigit(h[1]), HexDigit(h[2]), HexDigit(h[3]);
    assert HexValue(h) == 0x1000 * a + 0x100 * b + 0x10 * c + d;
    assert 0 <= 0x10 * c + d < 0x100;
    assert IsD(h[0]) <==> a == 13;
    assert IsLowDigit(h[1]) <==> 12 <= b;
  }

  /** A lone low surrogate that is not yet complete. */
  predicate LoneLow(s: Bytes) {
    4 <= |s| < 6 && EscapeBegun(s) && LowDigits(s[2..])
  }

  lemma NoPairFollows(s: Bytes, t: Bytes)
    requires 6 <= |s| < 12 && s <= t && HighFirst(s) && !PairBegun(s)
    ensures !(UnicodeEscapeFirst(t[6..]) && IsLowSurrogate(HexValue(t[6..][2..6])))
  {
    hide HexValue, IsHex, IsD, IsLowDigit;
    var u := t[6..];
    assert forall i | 0 <= i < |s| - 6 :: s[6..][i] == u[i];
    if UnicodeEscapeFirst(u) {
      assert forall i | 2 <= i < 6 :: u[i] == u[2..6][i - 2];
      assert |s| > 8 ==> forall i | 0 <= i < |s| - 8 :: s[8..][i] == u[2..6][i] == s[6..][2..][i];
      SurrogateDigits(u[2..6]);
    }
  }

  /** Where no escape is cut off, what follows does not change the next step. */
  lemma StepIsFixed(s: Bytes, rest: Bytes)
    requires s != [] && !CutOff(s) && !LoneLow(s)
    ensures NextStep(s + rest) == NextStep(s)
  {
    hide HexValue, Utf8Char, Combine, IsHex, LowDigits;
    var t := s + rest;
    assert forall i | 0 <= i < |s| :: t[i] == s[i];
    if s[0] == BACKSLASH && |s| >= 2 && s[1] == LETTER_U {
      if |s| < 6 {
        assert !AllHex(s[2..]);
        NotHexThere(s, t);
      } else {
        assert t[..6] == s[..6] && t[2..6] == s[2..6];
        if |s| >= 12 {
          assert t[6..][2..6] == s[6..][2..6];
        } else if HighFirst(s) {
          assert s <= t;
          NoPairFollows(s, t);
        }
      }
    }
  }

  lemma NotHexThere(s: Bytes, t: Bytes)
    requires 2 <= |s| < 6 && s <= t && !AllHex(s[2..])
    ensures !UnicodeEscapeFirst(t) && !UnicodeEscapeFirst(s)
  {
    var i :| 0 <= i < |s| - 2 && !IsHex(s[2..][i]);
    assert |t| >= 6 ==> t[2..6][i] == s[2..][i];
  }

  lemma HexPasses(digits: Bytes, rest: Bytes)
    requires AllHex(digits)
    ensures Unescape(digits + rest).bytes == digits + Unescape(rest).bytes
  {
    hide Unescape;
    assert NoBackslash(digits);
    PassThrough(digits, rest);
  }

  /** One byte of an escape that is not there, and then its letter and its digits. */
  lemma BegunPasses(s: Bytes, rest: Bytes)
    requires s != [] && EscapeBegun(s) && NextStep(s + rest) == Step([BACKSLASH], 1, false)
    ensures Unescape(s + rest).bytes == s + Unescape(rest).bytes
  {
    hide Unescape, NextStep;
    UnescapeFirst(s + rest);
    assert (s + rest)[1..] == s[1..] + rest;
    assert NoBackslash(s[1..]) by {
      assert |s| > 2 ==> forall i | 2 <= i < |s| :: s[i] == s[2..][i - 2];
    }
    PassThrough(s[1..], rest);
    assert s == [BACKSLASH] + s[1..];
    Associate([BACKSLASH], s[1..], Unescape(rest).bytes);
  }

  /** A lone low surrogate passes unchanged, whatever completes it. */
  lemma LoneLowPasses(s: Bytes, rest: Bytes)
    requires LoneLow(s)
    ensures Unescape(s + rest).bytes == s + Unescape(rest).bytes
  {
    hide Unescape, HexValue, Utf8Char, Combine;
    var t, need := s + rest, 6 - |s|;
    if UnicodeEscapeFirst(t) {
      assert t[2..6] == s[2..] + rest[..need];
      SurrogateDigits(t[2..6]);
      assert NextStep(t) == Step(t[..6], 6, false);
      UnescapeFirst(t);
      assert t[6..] == rest[need..] && t[..6] == s + rest[..need];
      assert forall i | 0 <= i < need :: rest[..need][i] == t[2..6][|s| - 2 + i];
      assert AllHex(rest[..need]);
      HexPasses(rest[..need], rest[need..]);
      assert rest == rest[..need] + rest[need..];
      Associate(s, rest[..need], Unescape(rest[need..]).bytes);
    } else {
      assert t[0] == s[0] && t[1] == s[1];
      BegunPasses(s, rest);
    }
  }

  ghost predicate Splits(s: Bytes, rest: Bytes) {
    Unescape(s + rest).bytes == Unescape(s).bytes + Unescape(rest).bytes
  }

  lemma SkipStep(s: Bytes, rest: Bytes)
    requires s != [] && NextStep(s + rest) == NextStep(s)
    ensures var step := NextStep(s); var tail := s[step.consumed..];
      && Unescape(s).bytes == step.output + Unescape(tail).bytes
      && Unescape(s + rest).bytes == step.output + Unescape(tail + rest).bytes
  {
    hide Unescape, NextStep;
    UnescapeFirst(s);
    UnescapeFirst(s + rest);
    assert (s + rest)[NextStep(s).consumed..] == s[NextStep(s).consumed..] + rest;
  }

  lemma {:induction false} WholeSplits(s: Bytes, rest: Bytes)
    requires NothingCutOff(s)
    ensures Splits(s, rest)
    decreases |s|
  {
    hide Unescape, NextStep, CutOff, LoneLow;
    if s == [] {
      UnescapeNothing();
      assert s + rest == rest && [] + Unescape(rest).bytes == Unescape(rest).bytes;
    } else if LoneLow(s) {
      LoneLowPasses(s, rest);
      LoneLowPasses(s, []);
      UnescapeNothing();
      assert s + [] == s;
    } else {
      StepIsFixed(s, rest);
      SkipStep(s, rest);
      var step := NextStep(s);
      var tail := s[step.consumed..];
      WholeSplits(tail, rest);
      Associate(step.output, Unescape(tail).bytes, Unescape(rest).bytes);
    }
  }

  // ----- Every cut can be felt -----

  const LOW: Bytes := [92, 117, 68, 67, 48, 48]
  const ZEROS: Bytes := [48, 48, 48, 48]

  /** What completes an escape that is cut off. */
  function Completion(s: Bytes): Bytes
    requires CutOff(s)
  {
    if |s| == 1 then [110]
    else if |s| >= 6 then LOW[|s| - 6..]
    else
      var digits := s[2..] + ZEROS[..6 - |s|];
      ZEROS[..6 - |s|] + if IsHex4(digits) && IsHighSurrogate(HexValue(digits)) then LOW else []
  }

  lemma KnownDigits()
    ensures IsD(68) && IsLowDigit(67) && IsHex(68) && IsHex(67) && IsHex(48) && !IsD(48) && !IsLowDigit(48)
  {
  }

  lemma LowIsLow()
    ensures UnicodeEscapeFirst(LOW) && IsLowSurrogate(HexValue(LOW[2..6])) && LOW[2..6] == [68, 67, 48, 48]
  {
    assert IsHex4(LOW[2..6]);
    SurrogateDigits(LOW[2..6]);
  }

  /** A pair that was begun is completed to a pair. */
  lemma PairCompletes(s: Bytes)
    requires PairBegun(s)
    ensures var t := s + LOW[|s| - 6..]; |t| == 12 && NextStep(t).changed && NextStep(t).consumed == 12
  {
    hide HexValue, Utf8Char, Combine, IsD, IsLowDigit;
    var t := s + LOW[|s| - 6..];
    LowIsLow();
    assert t[2..6] == s[2..6] && t[..6] == s[..6];
    var u := t[6..];
    assert forall i | 0 <= i < 6 :: u[i] == if i < |s| - 6 then s[6..][i] else LOW[i];
    assert |s| > 8 ==> forall i | 0 <= i < |s| - 8 :: u[2 + i] == s[8..][i] == s[6..][2..][i];
    KnownDigits();
    assert u[2..6] == [u[2], u[3], u[4], u[5]];
    SurrogateDigits(u[2..6]);
  }

  lemma EscapeCompletes(s: Bytes)
    requires CutOff(s) && 2 <= |s| < 6
    ensures var t := s + Completion(s); NextStep(t).changed && NextStep(t).consumed == |t|
  {
    hide HexValue, Utf8Char, Combine, IsD, IsLowDigit;
    var zeros := ZEROS[..6 - |s|];
    var digits := s[2..] + zeros;
    var first := s + zeros;
    assert first[2..6] == digits && first[..6] == first;
    assert IsHex4(digits);
    assert UnicodeEscapeFirst(first);
    SurrogateDigits(digits);
    assert !IsLowSurrogate(HexValue(digits)) by {
      KnownDigits();
      assert |s| >= 3 ==> digits[0] == s[2..][0];
      assert |s| >= 4 ==> digits[1] == s[2..][1];
    }
    var t := s + Completion(s);
    if IsHighSurrogate(HexValue(digits)) {
      assert t == first + LOW;
      assert t[2..6] == digits && t[6..] == LOW && t[..6] == first;
      LowIsLow();
    } else {
      assert t == first;
    }
  }

  lemma CutCompletes(s: Bytes)
    requires CutOff(s)
    ensures |Unescape(s + Completion(s)).bytes| < |s| + |Completion(s)|
  {
    hide Unescape;
    var t := s + Completion(s);
    if |s| == 1 {
      assert t == [92, 110] && NextStep(t) == Step([10], 2, true);
    } else if |s| < 6 {
      EscapeCompletes(s);
    } else {
      PairCompletes(s);
    }
    hide NextStep;
    UnescapeFirst(t);
    UnescapeNothing();
    assert t[|t|..] == [];
  }

  /** On its own, what is cut off passes unchanged. */
  lemma CutStays(s: Bytes)
    requires CutOff(s)
    ensures Unescape(s).bytes == s
  {
    hide Unescape, HexValue, Utf8Char, Combine, LowDigits;
    UnescapeNothing();
    assert s + [] == s;
    if |s| < 6 {
      BegunPasses(s, []);
    } else {
      UnescapeFirst(s);
      assert s == s[..6] + s[6..] && s[6..] + [] == s[6..];
      if s[6..] != [] {
        BegunPasses(s[6..], []);
      }
    }
  }

  lemma CompletionStays(s: Bytes)
    requires CutOff(s)
    ensures Unescape(Completion(s)).bytes == Completion(s)
  {
    hide Unescape, NextStep;
    UnescapeNothing();
    assert [110] + [] == [110] && forall k | 0 <= k <= 6 :: LOW[k..] + [] == LOW[k..];
    if |s| == 1 {
      PassThrough([110], []);
    } else if |s| >= 6 {
      LowStays(|s| - 6);
    } else {
      LowStays(0);
      var zeros := ZEROS[..6 - |s|];
      assert LOW[0..] == LOW && zeros + [] == zeros;
      HexPasses(zeros, LOW);
      HexPasses(zeros, []);
    }
  }

  lemma LowStays(k: nat)
    requires k <= 6
    ensures Unescape(LOW[k..]).bytes == LOW[k..]
  {
    hide Unescape, HexValue, Utf8Char, Combine;
    UnescapeNothing();
    assert LOW[k..] + [] == LOW[k..];
    if k == 0 {
      LowIsLow();
      assert LOW[0..] == LOW && LOW[..6] == LOW && LOW[6..] == [];
      assert NextStep(LOW) == Step(LOW, 6, false);
      UnescapeFirst(LOW);
    } else {
      PassThrough(LOW[k..], []);
    }
  }

  lemma LoneLowIsWhole(s: Bytes)
    requires LoneLow(s)
    ensures NothingCutOff(s)
  {
    assert NextStep(s) == Step([BACKSLASH], 1, false);
    assert forall i | 2 <= i < |s| :: s[i] == s[2..][i - 2];
    assert forall i | 0 <= i < |s| - 1 :: s[1..][i] == s[i + 1];
    PlainIsWhole(s[1..]);
  }

  lemma {:induction false} PlainIsWhole(s: Bytes)
    requires NoBackslash(s)
    ensures NothingCutOff(s)
  {
    if s != [] {
      assert NextStep(s).consumed == 1;
      PlainIsWhole(s[1..]);
    }
  }

  lemma Cancel(a: Bytes, x: Bytes, y: Bytes)
    ensures a + x == a + y <==> x == y
  {
    if a + x == a + y {
      assert x == (a + x)[|a|..] && y == (a + y)[|a|..];
    }
  }

  lemma {:induction false} CutIsFelt(s: Bytes) returns (rest: Bytes)
    requires !NothingCutOff(s)
    ensures !Splits(s, rest)
    decreases |s|
  {
    hide Unescape, NextStep, CutOff, LoneLow;
    if CutOff(s) {
      rest := Completion(s);
      CutCompletes(s);
      CutStays(s);
      CompletionStays(s);
    } else {
      if LoneLow(s) {
        LoneLowIsWhole(s);
      }
      var step := NextStep(s);
      var tail := s[step.consumed..];
      rest := CutIsFelt(tail);
      StepIsFixed(s, rest);
      SkipStep(s, rest);
      Associate(step.output, Unescape(tail).bytes, Unescape(rest).bytes);
      Cancel(step.output, Unescape(tail + rest).bytes, Unescape(tail).bytes + Unescape(rest).bytes);
    }
  }

  /** Main result: a text can be cut at its end, whatever follows, if and only if no escape is cut off there. */
  lemma SplitsUnlessCutOff(s: Bytes)
    ensures (forall rest :: Splits(s, rest)) <==> NothingCutOff(s)
  {
    hide Splits, NothingCutOff;
    if NothingCutOff(s) {
      forall rest ensures Splits(s, rest) {
        WholeSplits(s, rest);
      }
    } else {
      var rest := CutIsFelt(s);
    }
  }

  // ----- Where that is the case -----

  /** After a text whose last quote no backslash follows, nothing is cut off. */
  lemma SettledIsWhole(s: Bytes)
    requires Settled(s)
    ensures NothingCutOff(s)
  {
    hide NothingCutOff, Settled, Unescape;
    forall rest ensures Splits(s, rest) {
      SettledIsBoundary(s, rest);
    }
    SplitsUnlessCutOff(s);
  }

  /** Where the streaming unescaper keeps nothing for later, nothing is cut off. */
  lemma NothingPendingIsWhole(s: Bytes)
    requires Drain(s, false).pending == []
    ensures NothingCutOff(s)
  {
    hide NothingCutOff, Drain, Unescape;
    forall rest ensures Splits(s, rest) {
      DrainThenMore(s, rest, true);
      DrainThenMore(s, [], true);
      FinalDrain(s + rest);
      FinalDrain(s);
      FinalDrain(rest);
      FinalDrain([]);
      UnescapeNothing();
      assert s + [] == s && [] + rest == rest;
      assert Drain(s, false).output + [] == Drain(s, false).output;
    }
    SplitsUnlessCutOff(s);
  }

  /** The converse fails: after a backslash, `u` and `Z` the unescaper still waits, although nothing can come of it. */
  lemma WaitingIsNotCutOff()
    ensures NothingCutOff([92, 117, 90]) && Drain([92, 117, 90], false).pending != []
  {
    var s: Bytes := [92, 117, 90];
    assert s[2..][0] == 90 && !AllHex(s[2..]);
    assert NextStep(s) == Step([92], 1, false);
    PlainIsWhole(s[1..]);
  }

  /** Main result: a credential that was JSON-escaped once is found after any bytes that cut off no escape. */
  lemma EscapedCredentialIsCaught(patterns: seq<Bytes>, left: Bytes, units: seq<Unit>, right: Bytes)
    requires NothingCutOff(left) && AllSpelledRight(units) && OccursAny(patterns, Utf8(Plain(units)))
    ensures Inspect(patterns, left + Utf8(Escaped(units)) + right) == Found
  {
    hide Unescape, NothingCutOff, Utf8, Escaped, Plain;
    var escaped, plain := Utf8(Escaped(units)), Utf8(Plain(units));
    var value := left + escaped + right;
    WholeSplits(left, escaped + right);
    Associate(left, escaped, right);
    UnescapeInvertsBefore(units, right);
    var front, back := Unescape(left).bytes, Unescape(right).bytes;
    Associate(front, plain, back);
    assert Layer(value, 1) == front + plain + back by { assert Layer(value, 0) == value; }
    var p :| 0 <= p < |patterns| && Occurs(patterns[p], plain);
    OccursInWhole(patterns[p], front, plain, back);
    assert OccursAny(patterns, Layer(value, 1));
  }
}
