/** Exact multi-pattern search over a stream, keeping only the overlap a pattern could span. */
module PatternMatcher {
  import opened Bytes

  /** The last `n` bytes of `s`, or all of it. */
  function Suffix(s: Bytes, n: nat): (r: Bytes)
    ensures |r| == if |s| <= n then |s| else n
  {
    if |s| <= n then s else s[|s| - n..]
  }

  function MaximumLength(patterns: seq<Bytes>): (m: nat)
    ensures forall k | 0 <= k < |patterns| :: |patterns[k]| <= m
    ensures m == 0 || exists k | 0 <= k < |patterns| :: |patterns[k]| == m
  {
    if patterns == [] then 0
    else
      var rest := MaximumLength(patterns[1..]);
      if |patterns[0]| >= rest then |patterns[0]| else rest
  }

  predicate AllNonempty(patterns: seq<Bytes>) {
    forall k | 0 <= k < |patterns| :: patterns[k] != []
  }

  /** What occurs behind a front occurs in the text without it. */
  lemma OccursLater(pattern: Bytes, front: Bytes, text: Bytes, i: nat)
    requires |front| <= i <= |front + text| && OccursAt(pattern, front + text, i)
    ensures Occurs(pattern, text)
  {
    var at := i - |front|;
    assert text[at..at + |pattern|] == (front + text)[i..i + |pattern|];
    assert OccursAt(pattern, text, at);
  }

  lemma OccursEarlier(pattern: Bytes, text: Bytes, more: Bytes, i: nat)
    requires i + |pattern| <= |text| && OccursAt(pattern, text + more, i)
    ensures Occurs(pattern, text)
  {
    assert text[i..i + |pattern|] == (text + more)[i..i + |pattern|];
    assert OccursAt(pattern, text, i);
  }

  lemma NewIsLate(pattern: Bytes, front: Bytes, tail: Bytes, value: Bytes)
    requires front == [] || |pattern| <= |tail| + 1
    requires pattern != [] && !Occurs(pattern, front + tail) && Occurs(pattern, front + tail + value)
    ensures Occurs(pattern, tail + value)
  {
    hide OccursAt;
    var text := front + (tail + value);
    assert front + tail + value == text;
    var i :| 0 <= i <= |text| && OccursAt(pattern, text, i);
    if i + |pattern| <= |front + tail| {
      OccursEarlier(pattern, front + tail, value, i);
    } else {
      OccursLater(pattern, front, tail + value, i);
    }
  }

  /** A pattern new to `seen + value` lies in the retained overlap plus the new bytes. */
  lemma OverlapFindsNew(pattern: Bytes, seen: Bytes, value: Bytes, overlap: nat)
    requires pattern != [] && |pattern| <= overlap + 1
    requires !Occurs(pattern, seen)
    ensures Occurs(pattern, seen + value) <==> Occurs(pattern, Suffix(seen, overlap) + value)
  {
    hide Occurs;
    var tail := Suffix(seen, overlap);
    var front := seen[..|seen| - |tail|];
    assert seen == front + tail;
    if Occurs(pattern, seen + value) {
      NewIsLate(pattern, front, tail, value);
    }
    if Occurs(pattern, tail + value) {
      OccursInWhole(pattern, front, tail + value, []);
      assert front + (tail + value) + [] == seen + value;
    }
  }

  lemma OverlapFindsAnyNew(patterns: seq<Bytes>, seen: Bytes, value: Bytes, overlap: nat)
    requires AllNonempty(patterns) && MaximumLength(patterns) <= overlap + 1
    requires !OccursAny(patterns, seen)
    ensures OccursAny(patterns, seen + value) <==> OccursAny(patterns, Suffix(seen, overlap) + value)
  {
    forall k | 0 <= k < |patterns|
      ensures Occurs(patterns[k], seen + value) <==> Occurs(patterns[k], Suffix(seen, overlap) + value)
    {
      OverlapFindsNew(patterns[k], seen, value, overlap);
    }
  }

  lemma SuffixOfSuffix(seen: Bytes, value: Bytes, overlap: nat)
    ensures Suffix(Suffix(seen, overlap) + value, overlap) == Suffix(seen + value, overlap)
  {
  }

  class StreamingPatternMatcher {
    const patterns: seq<Bytes>
    const overlap: nat
    var tail: Bytes
    ghost var fed: Bytes

    /** Nothing fed so far holds a pattern, and the tail is what a later match could need. */
    ghost predicate Valid()
      reads this
    {
      && AllNonempty(patterns)
      && MaximumLength(patterns) <= overlap + 1
      && !OccursAny(patterns, fed)
      && tail == Suffix(fed, overlap)
    }

    constructor (patterns: seq<Bytes>, maximumBytes: nat)
      requires AllNonempty(patterns) && maximumBytes == MaximumLength(patterns)
      ensures Valid() && fed == [] && this.patterns == patterns
    {
      this.patterns := patterns;
      overlap := if maximumBytes == 0 then 0 else maximumBytes - 1;
      tail, fed := [], [];
      new;
      forall k | 0 <= k < |patterns| ensures !Occurs(patterns[k], []) { }
    }

    /** Found exactly when some pattern occurs in everything fed, however it was cut up. */
    method Feed(value: Bytes) returns (found: bool)
      requires Valid()
      modifies this
      ensures found <==> OccursAny(patterns, old(fed) + value)
      ensures !found ==> Valid() && fed == old(fed) + value
    {
      if value == [] {
        assert fed + value == fed;
        return false;
      }
      var candidate := tail + value;
      OverlapFindsAnyNew(patterns, fed, value, overlap);
      if OccursAny(patterns, candidate) {
        return true;
      }
      SuffixOfSuffix(fed, value, overlap);
      tail := if overlap == 0 then [] else Suffix(candidate, overlap);
      fed := fed + value;
      return false;
    }
  }
}
