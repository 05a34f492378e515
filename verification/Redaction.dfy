/** Replacing credential patterns in a byte string, and refusing what still shows one. */
module Redaction {
  import opened Wrappers
  import opened Bytes
  import opened PatternMatcher
  import opened Inspection

  datatype CredentialRedactor = CredentialRedactor(patterns: seq<Bytes>, placeholder: Bytes)

  datatype Redacted = Redacted(bytes: Bytes) | Refused

  /** A redacted text, piece by piece: a byte kept, or a pattern masked. */
  datatype Piece = Kept(b: Byte) | Masked(pattern: Bytes)

  function Original(piece: Piece): Bytes {
    match piece case Kept(b) => [b] case Masked(pattern) => pattern
  }

  /** The input a list of pieces came from. */
  function Source(pieces: seq<Piece>): Bytes {
    if pieces == [] then [] else Original(pieces[0]) + Source(pieces[1..])
  }

  /** The output a list of pieces turns into. */
  function Render(pieces: seq<Piece>, placeholder: Bytes): Bytes {
    if pieces == [] then []
    else (if pieces[0].Kept? then [pieces[0].b] else placeholder) + Render(pieces[1..], placeholder)
  }

  /** The right piece at the front of `s`: a longest pattern if one starts here, else the byte itself. */
  ghost predicate RightPiece(patterns: seq<Bytes>, s: Bytes, piece: Piece) {
    match piece
    case Kept(b) => s != [] && s[0] == b && forall k | 0 <= k < |patterns| :: !(patterns[k] <= s)
    case Masked(pattern) =>
      pattern in patterns && pattern <= s && forall k | 0 <= k < |patterns| && patterns[k] <= s ::
        |patterns[k]| <= |pattern|
  }

  /** `pieces` cuts its source into leftmost-longest pattern occurrences and other bytes. */
  ghost predicate LeftmostLongest(patterns: seq<Bytes>, pieces: seq<Piece>) {
    forall i | 0 <= i < |pieces| :: RightPiece(patterns, Source(pieces[i..]), pieces[i])
  }

  lemma OnlyOneRightPiece(patterns: seq<Bytes>, s: Bytes, a: Piece, b: Piece)
    requires RightPiece(patterns, s, a) && RightPiece(patterns, s, b)
    ensures a == b
  {
    if a.Masked? && b.Masked? {
      assert a.pattern == s[..|a.pattern|] && b.pattern == s[..|b.pattern|];
    }
  }

  /** There is only one way to cut a text like that. */
  lemma {:induction false} LeftmostLongestIsUnique(patterns: seq<Bytes>, a: seq<Piece>, b: seq<Piece>)
    requires AllNonempty(patterns)
    requires LeftmostLongest(patterns, a) && LeftmostLongest(patterns, b) && Source(a) == Source(b)
    ensures a == b
    decreases |a|
  {
    if a != [] {
      FirstPieceIsRight(patterns, a);
    }
    if b != [] {
      FirstPieceIsRight(patterns, b);
    }
    if a != [] && b != [] {
      OnlyOneRightPiece(patterns, Source(a), a[0], b[0]);
      var n := |Original(a[0])|;
      assert Source(a[1..]) == Source(a)[n..] && Source(b[1..]) == Source(b)[n..];
      TailLeftmostLongest(patterns, a);
      TailLeftmostLongest(patterns, b);
      LeftmostLongestIsUnique(patterns, a[1..], b[1..]);
      assert a == [a[0]] + a[1..] && b == [b[0]] + b[1..];
    }
  }

  lemma FirstPieceIsRight(patterns: seq<Bytes>, pieces: seq<Piece>)
    requires AllNonempty(patterns) && pieces != [] && LeftmostLongest(patterns, pieces)
    ensures RightPiece(patterns, Source(pieces), pieces[0]) && Source(pieces) != []
  {
    assert pieces[0..] == pieces;
  }

  lemma TailLeftmostLongest(patterns: seq<Bytes>, pieces: seq<Piece>)
    requires pieces != [] && LeftmostLongest(patterns, pieces)
    ensures LeftmostLongest(patterns, pieces[1..])
  {
    forall i | 0 <= i < |pieces[1..]|
      ensures RightPiece(patterns, Source(pieces[1..][i..]), pieces[1..][i])
    {
      assert pieces[1..][i..] == pieces[i + 1..];
      assert RightPiece(patterns, Source(pieces[i + 1..]), pieces[i + 1]);
    }
  }

  lemma ConsLeftmostLongest(patterns: seq<Bytes>, piece: Piece, pieces: seq<Piece>)
    requires LeftmostLongest(patterns, pieces)
    requires RightPiece(patterns, Original(piece) + Source(pieces), piece)
    ensures LeftmostLongest(patterns, [piece] + pieces)
    ensures Source([piece] + pieces) == Original(piece) + Source(pieces)
  {
    var all := [piece] + pieces;
    assert all[1..] == pieces;
    forall i | 0 <= i < |all|
      ensures RightPiece(patterns, Source(all[i..]), all[i])
    {
      if i == 0 {
        assert all[0..] == all;
      } else {
        assert all[i..] == pieces[i - 1..];
        assert RightPiece(patterns, Source(pieces[i - 1..]), pieces[i - 1]);
      }
    }
  }

  function KeptRun(kept: Bytes): seq<Piece> {
    if kept == [] then [] else [Kept(kept[0])] + KeptRun(kept[1..])
  }

  lemma {:induction false} KeptRunRender(kept: Bytes, pieces: seq<Piece>, placeholder: Bytes)
    ensures Render(KeptRun(kept) + pieces, placeholder) == kept + Render(pieces, placeholder)
  {
    hide Render;
    if kept == [] {
      assert KeptRun(kept) + pieces == pieces;
    } else {
      KeptRunRender(kept[1..], pieces, placeholder);
      RenderCons(Kept(kept[0]), KeptRun(kept[1..]) + pieces, placeholder);
      assert KeptRun(kept) + pieces == [Kept(kept[0])] + (KeptRun(kept[1..]) + pieces);
      assert [kept[0]] + (kept[1..] + Render(pieces, placeholder)) == kept + Render(pieces, placeholder);
    }
  }

  lemma RenderCons(piece: Piece, pieces: seq<Piece>, placeholder: Bytes)
    ensures Render([piece] + pieces, placeholder)
         == (if piece.Kept? then [piece.b] else placeholder) + Render(pieces, placeholder)
  {
    assert ([piece] + pieces)[1..] == pieces;
  }

  /** No pattern starts in the first `n` places of `s`. */
  ghost predicate NoneStarts(patterns: seq<Bytes>, s: Bytes, n: nat) {
    forall i, k | 0 <= i < n && 0 <= k < |patterns| :: !OccursAt(patterns[k], s, i)
  }

  /** Bytes at which no pattern starts are kept one by one. */
  lemma {:induction false} KeepRun(patterns: seq<Bytes>, kept: Bytes, pieces: seq<Piece>)
    requires LeftmostLongest(patterns, pieces) && NoneStarts(patterns, kept + Source(pieces), |kept|)
    ensures LeftmostLongest(patterns, KeptRun(kept) + pieces)
    ensures Source(KeptRun(kept) + pieces) == kept + Source(pieces)
  {
    hide LeftmostLongest, NoneStarts, RightPiece, Source, Original;
    if kept == [] {
      assert KeptRun(kept) + pieces == pieces;
      assert kept + Source(pieces) == Source(pieces);
    } else {
      var first, tail := Kept(kept[0]), KeptRun(kept[1..]) + pieces;
      KeptFirst(patterns, kept, Source(pieces));
      KeepRun(patterns, kept[1..], pieces);
      ConsLeftmostLongest(patterns, first, tail);
      assert KeptRun(kept) + pieces == [first] + tail;
    }
  }

  lemma KeptFirst(patterns: seq<Bytes>, kept: Bytes, after: Bytes)
    requires kept != [] && NoneStarts(patterns, kept + after, |kept|)
    ensures Original(Kept(kept[0])) + (kept[1..] + after) == kept + after
    ensures RightPiece(patterns, kept + after, Kept(kept[0]))
    ensures NoneStarts(patterns, kept[1..] + after, |kept[1..]|)
  {
    var s, rest := kept + after, kept[1..] + after;
    assert s[1..] == rest;
    forall k | 0 <= k < |patterns| ensures !(patterns[k] <= s) {
      assert !OccursAt(patterns[k], s, 0);
    }
    forall i, k | 0 <= i < |kept[1..]| && 0 <= k < |patterns|
      ensures !OccursAt(patterns[k], rest, i)
    {
      assert !OccursAt(patterns[k], s, i + 1);
      if i + |patterns[k]| <= |rest| {
        assert rest[i..i + |patterns[k]|] == s[i + 1..i + 1 + |patterns[k]|];
      }
    }
  }

  /** `value.find(pattern, cursor)`. */
  method Find(value: Bytes, pattern: Bytes, cursor: nat) returns (index: Option<nat>)
    requires cursor <= |value|
    ensures index.Some? ==> cursor <= index.value && OccursAt(pattern, value, index.value)
    ensures forall i | cursor <= i < (if index.Some? then index.value else |value| + 1) :: !OccursAt(pattern, value, i)
  {
    var at := cursor;
    while at + |pattern| <= |value|
      invariant cursor <= at
      invariant forall i | cursor <= i < at :: !OccursAt(pattern, value, i)
    {
      if value[at..at + |pattern|] == pattern {
        return Some(at);
      }
      at := at + 1;
    }
    return None;
  }

  datatype Hit = Hit(index: nat, pattern: Bytes)

  /** The first place at or after `cursor` where a pattern starts, with a longest pattern there. */
  ghost predicate BestHit(patterns: seq<Bytes>, value: Bytes, cursor: nat, best: Option<Hit>) {
    && (best.None? ==> forall k, i | 0 <= k < |patterns| && cursor <= i <= |value| :: !OccursAt(patterns[k], value, i))
    && (best.Some? ==>
          var Hit(index, pattern) := best.value;
          && cursor <= index && pattern in patterns && OccursAt(pattern, value, index)
          && (forall k, i | 0 <= k < |patterns| && cursor <= i < index :: !OccursAt(patterns[k], value, i))
          && (forall k | 0 <= k < |patterns| && OccursAt(patterns[k], value, index) :: |patterns[k]| <= |pattern|))
  }

  method FirstHit(patterns: seq<Bytes>, value: Bytes, cursor: nat) returns (best: Option<Hit>)
    requires cursor <= |value| && AllNonempty(patterns)
    ensures BestHit(patterns, value, cursor, best)
  {
    best := None;
    for n := 0 to |patterns|
      invariant BestHit(patterns[..n], value, cursor, best)
    {
      var pattern := patterns[n];
      var index := Find(value, pattern, cursor);
      ghost var before := best;
      if index.Some? {
        if best.None? || index.value < best.value.index {
          best := Some(Hit(index.value, pattern));
        } else if index.value == best.value.index && |pattern| > |best.value.pattern| {
          best := Some(Hit(index.value, pattern));
        }
      }
      AddPattern(patterns[..n], pattern, value, cursor, before, index, best);
      assert patterns[..n + 1] == patterns[..n] + [pattern];
    }
    assert patterns[..|patterns|] == patterns;
  }

  lemma AddPattern(patterns: seq<Bytes>, pattern: Bytes, value: Bytes, cursor: nat,
                   before: Option<Hit>, index: Option<nat>, best: Option<Hit>)
    requires cursor <= |value| && BestHit(patterns, value, cursor, before)
    requires index.Some? ==> cursor <= index.value && OccursAt(pattern, value, index.value)
    requires forall i | cursor <= i < (if index.Some? then index.value else |value| + 1) :: !OccursAt(pattern, value, i)
    requires best ==
      if index.None? then before
      else if before.None? || index.value < before.value.index then Some(Hit(index.value, pattern))
      else if index.value == before.value.index && |pattern| > |before.value.pattern| then
        Some(Hit(index.value, pattern))
      else before
    ensures BestHit(patterns + [pattern], value, cursor, best)
  {
    var all := patterns + [pattern];
    forall k, i | 0 <= k < |all| && cursor <= i <= |value| && (best.Some? ==> i < best.value.index)
      ensures !OccursAt(all[k], value, i)
    {
      if k < |patterns| { assert all[k] == patterns[k]; }
    }
    if best.Some? {
      forall k | 0 <= k < |all| && OccursAt(all[k], value, best.value.index)
        ensures |all[k]| <= |best.value.pattern|
      {
        if k < |patterns| { assert all[k] == patterns[k]; }
      }
      assert all[|patterns|] == pattern;
      if best == before {
        var k :| 0 <= k < |patterns| && patterns[k] == best.value.pattern;
        assert all[k] == best.value.pattern;
      }
    }
  }

  function MaskedRun(kept: Bytes, pattern: Bytes, pieces: seq<Piece>): seq<Piece> {
    KeptRun(kept) + ([Masked(pattern)] + pieces)
  }

  /** The best hit is the right piece where it starts. */
  lemma HitIsRight(patterns: seq<Bytes>, value: Bytes, cursor: nat, hit: Hit)
    requires cursor <= |value| && BestHit(patterns, value, cursor, Some(hit))
    ensures cursor <= hit.index && hit.index + |hit.pattern| <= |value|
    ensures value[hit.index..] == hit.pattern + value[hit.index + |hit.pattern|..]
    ensures RightPiece(patterns, value[hit.index..], Masked(hit.pattern))
    ensures NoneStarts(patterns, value[cursor..], hit.index - cursor)
  {
    hide NoneStarts;
    var here := value[hit.index..];
    assert here == hit.pattern + value[hit.index + |hit.pattern|..];
    forall k | 0 <= k < |patterns| && patterns[k] <= here
      ensures |patterns[k]| <= |hit.pattern|
    {
      assert value[hit.index..hit.index + |patterns[k]|] == here[..|patterns[k]|];
      assert OccursAt(patterns[k], value, hit.index);
    }
    NoHitEarlier(patterns, value, cursor, hit.index);
  }

  /** Masking up to the end of one hit is a run of kept bytes and one masked pattern. */
  lemma MaskHit(patterns: seq<Bytes>, value: Bytes, cursor: nat, hit: Hit, pieces: seq<Piece>)
    requires cursor <= |value| && BestHit(patterns, value, cursor, Some(hit))
    requires hit.index + |hit.pattern| <= |value|
    requires LeftmostLongest(patterns, pieces) && Source(pieces) == value[hit.index + |hit.pattern|..]
    ensures cursor <= hit.index && LeftmostLongest(patterns, MaskedRun(value[cursor..hit.index], hit.pattern, pieces))
    ensures Source(MaskedRun(value[cursor..hit.index], hit.pattern, pieces)) == value[cursor..]
  {
    HitIsRight(patterns, value, cursor, hit);
    hide BestHit, RightPiece, LeftmostLongest, Source, NoneStarts, OccursAt, KeptRun;
    ConsLeftmostLongest(patterns, Masked(hit.pattern), pieces);
    var masked := [Masked(hit.pattern)] + pieces;
    var kept := value[cursor..hit.index];
    assert kept + Source(masked) == value[cursor..];
    KeepRun(patterns, kept, masked);
  }

  /** Every text can be cut into leftmost-longest pieces. */
  lemma {:induction false} CutExists(patterns: seq<Bytes>, s: Bytes) returns (pieces: seq<Piece>)
    requires AllNonempty(patterns)
    ensures LeftmostLongest(patterns, pieces) && Source(pieces) == s
    decreases |s|
  {
    if s == [] {
      pieces := [];
    } else {
      var first := PieceAt(patterns, s);
      var n := |Original(first)|;
      var rest := CutExists(patterns, s[n..]);
      assert Original(first) + Source(rest) == s;
      ConsLeftmostLongest(patterns, first, rest);
      pieces := [first] + rest;
    }
  }

  lemma {:induction false} PieceAt(patterns: seq<Bytes>, s: Bytes) returns (piece: Piece)
    requires s != [] && AllNonempty(patterns)
    ensures RightPiece(patterns, s, piece) && Original(piece) != [] && Original(piece) <= s
  {
    if patterns == [] {
      piece := Kept(s[0]);
    } else {
      var init, last := patterns[..|patterns| - 1], patterns[|patterns| - 1];
      piece := PieceAt(init, s);
      assert patterns == init + [last];
      if last <= s && (piece.Kept? || |last| > |piece.pattern|) {
        piece := Masked(last);
      }
    }
  }

  lemma NoHitEarlier(patterns: seq<Bytes>, value: Bytes, cursor: nat, end: nat)
    requires cursor <= end <= |value|
    requires forall k, i | 0 <= k < |patterns| && cursor <= i < end :: !OccursAt(patterns[k], value, i)
    ensures NoneStarts(patterns, value[cursor..], end - cursor)
  {
    forall i, k | 0 <= i < end - cursor && 0 <= k < |patterns|
      ensures !OccursAt(patterns[k], value[cursor..], i)
    {
      assert !OccursAt(patterns[k], value, cursor + i);
      if i + |patterns[k]| <= |value[cursor..]| {
        assert value[cursor..][i..i + |patterns[k]|] == value[cursor + i..cursor + i + |patterns[k]|];
      }
    }
  }

  lemma NothingMasked(patterns: seq<Bytes>, value: Bytes, cursor: nat, pieces: seq<Piece>, placeholder: Bytes)
    requires cursor <= |value| && AllNonempty(patterns) && BestHit(patterns, value, cursor, None)
    requires LeftmostLongest(patterns, pieces) && Source(pieces) == value[cursor..]
    ensures Render(pieces, placeholder) == value[cursor..]
  {
    var kept := value[cursor..];
    NoHitEarlier(patterns, value, cursor, |value|);
    assert kept + Source([]) == kept;
    KeepRun(patterns, kept, []);
    LeftmostLongestIsUnique(patterns, pieces, KeptRun(kept) + []);
    KeptRunRender(kept, [], placeholder);
    assert kept + [] == kept;
  }

  lemma HitIsInside(patterns: seq<Bytes>, value: Bytes, cursor: nat, hit: Hit)
    requires AllNonempty(patterns) && BestHit(patterns, value, cursor, Some(hit))
    ensures cursor <= hit.index < hit.index + |hit.pattern| <= |value|
  {
  }

  /** Past the first hit, the pieces of the rest are the rest of the pieces. */
  lemma TakeHit(patterns: seq<Bytes>, value: Bytes, cursor: nat, hit: Hit, todo: seq<Piece>, placeholder: Bytes)
    returns (rest: seq<Piece>)
    requires cursor <= |value| && AllNonempty(patterns) && BestHit(patterns, value, cursor, Some(hit))
    requires LeftmostLongest(patterns, todo) && Source(todo) == value[cursor..]
    ensures cursor <= hit.index <= hit.index + |hit.pattern| <= |value|
    ensures LeftmostLongest(patterns, rest) && Source(rest) == value[hit.index + |hit.pattern|..]
    ensures Render(todo, placeholder) == value[cursor..hit.index] + placeholder + Render(rest, placeholder)
  {
    hide LeftmostLongest, BestHit, AllNonempty, KeptRun, Source, Render;
    HitIsInside(patterns, value, cursor, hit);
    var kept := value[cursor..hit.index];
    rest := CutExists(patterns, value[hit.index + |hit.pattern|..]);
    MaskHit(patterns, value, cursor, hit, rest);
    LeftmostLongestIsUnique(patterns, todo, MaskedRun(kept, hit.pattern, rest));
    KeptRunRender(kept, [Masked(hit.pattern)] + rest, placeholder);
    RenderCons(Masked(hit.pattern), rest, placeholder);
    assert kept + (placeholder + Render(rest, placeholder)) == kept + placeholder + Render(rest, placeholder);
  }

  /** The mask-and-copy loop, without the final inspection. */
  method MaskPatterns(redactor: CredentialRedactor, value: Bytes) returns (output: Bytes, ghost pieces: seq<Piece>)
    requires AllNonempty(redactor.patterns)
    ensures LeftmostLongest(redactor.patterns, pieces) && Source(pieces) == value
    ensures output == Render(pieces, redactor.placeholder)
    ensures IsMasking(redactor, value, output)
  {
    hide LeftmostLongest, AllNonempty, BestHit, Source, Render;
    var patterns := redactor.patterns;
    pieces := CutExists(patterns, value);
    output := [];
    var cursor := 0;
    ghost var todo := pieces;
    assert value[0..] == value;
    while cursor < |value|
      invariant 0 <= cursor <= |value|
      invariant LeftmostLongest(patterns, todo) && Source(todo) == value[cursor..]
      invariant output + Render(todo, redactor.placeholder) == Render(pieces, redactor.placeholder)
    {
      var best := FirstHit(patterns, value, cursor);
      if best.None? {
        NothingMasked(patterns, value, cursor, todo, redactor.placeholder);
        output := output + value[cursor..];
        return;
      }
      var Hit(index, pattern) := best.value;
      HitIsInside(patterns, value, cursor, best.value);
      ghost var rest := TakeHit(patterns, value, cursor, best.value, todo, redactor.placeholder);
      assert output + (value[cursor..index] + redactor.placeholder + Render(rest, redactor.placeholder))
          == output + value[cursor..index] + redactor.placeholder + Render(rest, redactor.placeholder);
      output := output + value[cursor..index] + redactor.placeholder;
      cursor := index + |pattern|;
      todo := rest;
    }
    NoPieceForNothing(patterns, todo);
    RenderNothing(redactor.placeholder);
  }

  lemma RenderNothing(placeholder: Bytes)
    ensures Render([], placeholder) == []
  {
  }

  lemma NoPieceForNothing(patterns: seq<Bytes>, pieces: seq<Piece>)
    requires AllNonempty(patterns) && LeftmostLongest(patterns, pieces) && Source(pieces) == []
    ensures pieces == []
  {
    LeftmostLongestIsUnique(patterns, pieces, []);
  }

  /** `output` is `value` with its leftmost-longest pattern occurrences masked. */
  ghost predicate IsMasking(redactor: CredentialRedactor, value: Bytes, output: Bytes) {
    exists pieces :: LeftmostLongest(redactor.patterns, pieces) && Source(pieces) == value
      && output == Render(pieces, redactor.placeholder)
  }

  lemma MaskingIsUnique(redactor: CredentialRedactor, value: Bytes, a: Bytes, b: Bytes)
    requires AllNonempty(redactor.patterns) && IsMasking(redactor, value, a) && IsMasking(redactor, value, b)
    ensures a == b
  {
    hide LeftmostLongest;
    var p :| LeftmostLongest(redactor.patterns, p) && Source(p) == value && a == Render(p, redactor.placeholder);
    var q :| LeftmostLongest(redactor.patterns, q) && Source(q) == value && b == Render(q, redactor.placeholder);
    LeftmostLongestIsUnique(redactor.patterns, p, q);
  }

  /** Main result: redaction masks exactly those occurrences, or refuses what could still be read at any layer. */
  method RedactBytes(redactor: CredentialRedactor, value: Bytes) returns (result: Redacted)
    requires AllNonempty(redactor.patterns)
    ensures redactor.patterns == [] ==> result == Redacted(value)
    ensures result.Redacted? ==> IsMasking(redactor, value, result.bytes)
    ensures result.Redacted? && redactor.patterns != [] ==> Inspect(redactor.patterns, result.bytes) == Clean
    ensures result.Refused? ==> exists output ::
      IsMasking(redactor, value, output) && Inspect(redactor.patterns, output) != Clean
  {
    hide LeftmostLongest, Inspect, AllNonempty;
    if redactor.patterns == [] {
      NothingToMask(redactor, value);
      return Redacted(value);
    }
    var redacted;
    ghost var pieces;
    redacted, pieces := MaskPatterns(redactor, value);
    assert IsMasking(redactor, value, redacted);
    var verdict := ContainsBytes(redactor.patterns, redacted);
    if verdict != Clean {
      return Refused;
    }
    return Redacted(redacted);
  }

  lemma NothingToMask(redactor: CredentialRedactor, value: Bytes)
    requires AllNonempty(redactor.patterns) && !OccursAny(redactor.patterns, value)
    ensures IsMasking(redactor, value, value)
  {
    forall k, i | 0 <= k < |redactor.patterns| && 0 <= i <= |value|
      ensures !OccursAt(redactor.patterns[k], value, i)
    {
      assert !Occurs(redactor.patterns[k], value);
    }
    var pieces := CutExists(redactor.patterns, value);
    assert value[0..] == value;
    NothingMasked(redactor.patterns, value, 0, pieces, redactor.placeholder);
  }

  /** Redacting a redacted text again changes nothing and is not refused. */
  lemma RedactionIsIdempotent(redactor: CredentialRedactor, once: Bytes, twice: Bytes)
    requires AllNonempty(redactor.patterns) && Inspect(redactor.patterns, once) == Clean
    requires IsMasking(redactor, once, twice)
    ensures twice == once && Inspect(redactor.patterns, twice) == Clean
  {
    LayerZero(once);
    assert !OccursAny(redactor.patterns, Layer(once, 0));
    NothingToMask(redactor, once);
    MaskingIsUnique(redactor, once, once, twice);
  }

  function Ascii(text: string): Bytes
    requires forall i | 0 <= i < |text| :: text[i] < 128 as char
  {
    seq(|text|, i requires 0 <= i < |text| => text[i] as int)
  }

  /** Candidate placeholders, best first; the mathematical white square brackets are U+27E6 and U+27E7. */
  const REDACTION_MARKERS: seq<Bytes> := [
    Ascii("redacted-credential"),
    Ascii("[REDACTED_CREDENTIAL]"),
    [0xE2, 0x9F, 0xA6] + Ascii("CREDENTIAL REDACTED") + [0xE2, 0x9F, 0xA7],
    Ascii("<secret-removed>"),
    Ascii("***"),
    []
  ]

  /** The first marker that shows no pattern; the empty one always qualifies. */
  function SafeMarker(patterns: seq<Bytes>, markers: seq<Bytes>): (marker: Bytes)
    requires AllNonempty(patterns) && markers != [] && markers[|markers| - 1] == []
    ensures !OccursAny(patterns, marker)
    ensures exists k | 0 <= k < |markers| :: marker == markers[k] && forall j | 0 <= j < k ::
      OccursAny(patterns, markers[j])
  {
    if !OccursAny(patterns, markers[0]) then markers[0]
    else
      assert |markers| > 1 && forall k | 0 <= k < |markers[1..]| :: markers[1..][k] == markers[k + 1];
      SafeMarker(patterns, markers[1..])
  }

  /** The placeholder of a redactor for these patterns. */
  function Placeholder(patterns: seq<Bytes>): (marker: Bytes)
    requires AllNonempty(patterns)
    ensures marker in REDACTION_MARKERS && !OccursAny(patterns, marker)
    ensures forall k | 0 <= k < |REDACTION_MARKERS| && REDACTION_MARKERS[k] == marker ::
      exists j | 0 <= j <= k :: REDACTION_MARKERS[j] == marker && forall i | 0 <= i < j ::
        OccursAny(patterns, REDACTION_MARKERS[i])
  {
    SafeMarker(patterns, REDACTION_MARKERS)
  }
}
