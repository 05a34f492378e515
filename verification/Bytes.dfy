/** Byte strings and exact substring search, shared by the credential boundary. */
module Bytes {

  type Byte = b: int | 0 <= b < 256

  type Bytes = seq<Byte>

  predicate OccursAt(pattern: Bytes, text: Bytes, i: int) {
    0 <= i && i + |pattern| <= |text| && text[i..i + |pattern|] == pattern
  }

  /** `pattern in text` for Python bytes. */
  predicate Occurs(pattern: Bytes, text: Bytes) {
    exists i | 0 <= i <= |text| :: OccursAt(pattern, text, i)
  }

  /** `any(pattern in text for pattern in patterns)`. */
  predicate OccursAny(patterns: seq<Bytes>, text: Bytes) {
    exists k | 0 <= k < |patterns| :: Occurs(patterns[k], text)
  }

  /** A pattern occurs in a text that holds it between two other texts. */
  lemma OccursMeans(pattern: Bytes, text: Bytes)
    ensures Occurs(pattern, text) <==> exists before, after :: text == before + pattern + after
  {
    if Occurs(pattern, text) {
      var i :| 0 <= i <= |text| && OccursAt(pattern, text, i);
      assert text == text[..i] + pattern + text[i + |pattern|..];
    }
    if exists before, after :: text == before + pattern + after {
      var before, after :| text == before + pattern + after;
      assert OccursAt(pattern, text, |before|);
    }
  }

  lemma OccursInWhole(pattern: Bytes, before: Bytes, part: Bytes, after: Bytes)
    requires Occurs(pattern, part)
    ensures Occurs(pattern, before + part + after)
  {
    var i :| 0 <= i <= |part| && OccursAt(pattern, part, i);
    var whole := before + part + after;
    assert whole[|before| + i..|before| + i + |pattern|] == part[i..i + |pattern|];
    assert OccursAt(pattern, whole, |before| + i);
  }

  lemma OccursAnyInExtension(patterns: seq<Bytes>, part: Bytes, whole: Bytes)
    requires OccursAny(patterns, part) && part <= whole
    ensures OccursAny(patterns, whole)
  {
    var k :| 0 <= k < |patterns| && Occurs(patterns[k], part);
    OccursInWhole(patterns[k], [], part, whole[|part|..]);
    assert [] + part + whole[|part|..] == whole;
  }

  /** The chunks of a stream, joined. */
  function Concat(chunks: seq<Bytes>): Bytes {
    if chunks == [] then [] else chunks[0] + Concat(chunks[1..])
  }

  lemma {:induction false} ConcatSnoc(chunks: seq<Bytes>, last: Bytes)
    ensures Concat(chunks + [last]) == Concat(chunks) + last
  {
    if chunks == [] {
      assert chunks + [last] == [last] && [last][1..] == [];
    } else {
      assert (chunks + [last])[1..] == chunks[1..] + [last];
      ConcatSnoc(chunks[1..], last);
    }
  }

  lemma {:induction false} ConcatAppend(first: seq<Bytes>, second: seq<Bytes>)
    ensures Concat(first + second) == Concat(first) + Concat(second)
  {
    if first == [] {
      assert first + second == second;
    } else {
      assert (first + second)[1..] == first[1..] + second;
      ConcatAppend(first[1..], second);
    }
  }

  lemma ConcatPrefix(chunks: seq<Bytes>, k: nat)
    requires k <= |chunks|
    ensures Concat(chunks[..k]) <= Concat(chunks)
  {
    ConcatAppend(chunks[..k], chunks[k..]);
    assert chunks[..k] + chunks[k..] == chunks;
  }

  lemma ReadNext(chunks: seq<Bytes>, k: nat)
    requires k < |chunks|
    ensures Concat(chunks[..k + 1]) == Concat(chunks[..k]) + chunks[k]
  {
    hide Concat;
    assert chunks[..k + 1] == chunks[..k] + [chunks[k]];
    ConcatSnoc(chunks[..k], chunks[k]);
  }
}
