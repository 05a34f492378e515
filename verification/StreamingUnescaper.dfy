/** The incremental unescaper: the same meaning as the whole-buffer pass, for every chunking. */
module StreamingUnescaper {
  import opened Wrappers
  import opened Bytes
  import opened JsonUnescape

  const MAX_PENDING := 11

  /** The streaming decision at the front of the buffered bytes: wait for more input, or take a step. */
  function StreamStep(s: Bytes, final: bool): (r: Option<Step>)
    requires s != []
    ensures final ==> r.Some?
  {
    if s[0] != BACKSLASH then Some(Step([s[0]], 1, false))
    else if |s| < 2 then
      if final then Some(Step([s[0]], 1, false)) else None
    else if SimpleEscape(s[1]).Some? then Some(Step([SimpleEscape(s[1]).value], 2, true))
    else if s[1] != LETTER_U then Some(Step([s[0]], 1, false))
    else if |s| < 6 then
      if final then Some(Step([s[0]], 1, false)) else None
    else if !IsHex4(s[2..6]) then Some(Step([s[0]], 1, false))
    else
      var codepoint := HexValue(s[2..6]);
      if IsHighSurrogate(codepoint) then
        if |s| < 12 then
          if final then Some(Step(s[..6], 6, false)) else None
        else if s[6] != BACKSLASH || s[7] != LETTER_U || !IsHex4(s[8..12]) then Some(Step(s[..6], 6, false))
        else if !IsLowSurrogate(HexValue(s[8..12])) then Some(Step(s[..6], 6, false))
        else Some(Step(Utf8Char(Combine(codepoint, HexValue(s[8..12]))), 12, true))
      else if IsLowSurrogate(codepoint) then Some(Step(s[..6], 6, false))
      else Some(Step(Utf8Char(codepoint), 6, true))
  }

  /** A streaming step, once taken, is the whole-buffer step whatever bytes follow. */
  lemma StreamStepStable(s: Bytes, more: Bytes, final: bool)
    requires s != [] && StreamStep(s, final).Some?
    requires final ==> more == []
    ensures StreamStep(s, final).value == NextStep(s + more)
    ensures StreamStep(s, final).value.consumed <= |s|
    ensures !final ==> StreamStep(s + more, false) == StreamStep(s, false)
  {
    var t := s + more;
    assert t[0] == s[0];
    if |s| >= 6 {
      assert t[2..6] == s[2..6] && t[..6] == s[..6];
    }
    if |s| >= 12 {
      assert t[6..][2..6] == s[8..12] && t[8..12] == s[8..12];
    }
    if final {
      assert t == s;
      if |s| >= 12 {
      } else if |s| >= 6 {
        assert |s[6..]| < 6;
      }
    }
  }

  /** What a buffer yields now, and what it keeps for later. */
  datatype Drained = Drained(output: Bytes, pending: Bytes, changed: bool)

  function Drain(s: Bytes, final: bool): (r: Drained)
    ensures final ==> r.pending == []
    ensures |r.pending| <= |s|
    decreases |s|
  {
    if s == [] || StreamStep(s, final).None? then Drained([], s, false)
    else
      StreamStepStable(s, [], final);
      var step := StreamStep(s, final).value;
      assert s + [] == s;
      var rest := Drain(s[step.consumed..], final);
      Drained(step.output + rest.output, rest.pending, step.changed || rest.changed)
  }

  lemma {:induction false} PendingIsShort(s: Bytes)
    ensures |Drain(s, false).pending| <= MAX_PENDING
    decreases |s|
  {
    if s != [] && StreamStep(s, false).Some? {
      StreamStepStable(s, [], false);
      assert s + [] == s;
      PendingIsShort(s[StreamStep(s, false).value.consumed..]);
    }
  }

  /** Draining first and feeding later is the same as draining the joined input. */
  lemma {:induction false} DrainThenMore(s: Bytes, more: Bytes, final: bool)
    ensures var now := Drain(s, false); var later := Drain(now.pending + more, final);
      Drain(s + more, final) == Drained(now.output + later.output, later.pending, now.changed || later.changed)
    decreases |s|
  {
    hide NextStep, StreamStep;
    if s == [] || StreamStep(s, false).None? {
      var later := Drain(s + more, final);
      assert [] + later.output == later.output;
    } else {
      TakenStepSurvives(s, more, final);
      StreamStepStable(s, [], false);
      assert s + [] == s;
      var step := StreamStep(s, false).value;
      var tail := s[step.consumed..];
      assert (s + more)[step.consumed..] == tail + more;
      DrainThenMore(tail, more, final);
      var now := Drain(tail, false);
      var later := Drain(now.pending + more, final);
      assert step.output + (now.output + later.output) == step.output + now.output + later.output;
    }
  }

  lemma TakenStepSurvives(s: Bytes, more: Bytes, final: bool)
    requires s != [] && StreamStep(s, false).Some?
    ensures StreamStep(s + more, final) == StreamStep(s, false)
  {
    hide NextStep, StreamStep;
    StreamStepStable(s, more, false);
    if final {
      StreamStepStable(s + more, [], true);
      assert s + more + [] == s + more;
    }
  }

  /** A final drain is one whole-buffer unescape pass. */
  lemma {:induction false} FinalDrain(s: Bytes)
    ensures Drain(s, true) == Drained(Unescape(s).bytes, [], Unescape(s).changed)
    decreases |s|
  {
    hide NextStep, StreamStep;
    if s != [] {
      StreamStepStable(s, [], true);
      assert s + [] == s;
      FinalDrain(s[NextStep(s).consumed..]);
    }
  }

  /** Output emitted early is never taken back: it starts the decoding of every longer input. */
  lemma EarlyOutputIsPrefix(s: Bytes, whole: Bytes)
    requires s <= whole
    ensures Drain(s, false).output <= Unescape(whole).bytes
  {
    var more := whole[|s|..];
    assert s + more == whole;
    DrainThenMore(s, more, true);
    FinalDrain(whole);
  }

  /** State of an unescaper that was fed some chunks without finishing. */
  function FeedAll(chunks: seq<Bytes>): Drained {
    if chunks == [] then Drained([], [], false)
    else
      var before := FeedAll(chunks[..|chunks| - 1]);
      var now := Drain(before.pending + chunks[|chunks| - 1], false);
      Drained(before.output + now.output, now.pending, before.changed || now.changed)
  }

  lemma {:induction false} FeedAllIsDrain(chunks: seq<Bytes>)
    ensures FeedAll(chunks) == Drain(Concat(chunks), false)
  {
    if chunks != [] {
      var init, last := chunks[..|chunks| - 1], chunks[|chunks| - 1];
      FeedAllIsDrain(init);
      ConcatSnoc(init, last);
      assert init + [last] == chunks;
      DrainThenMore(Concat(init), last, false);
    }
  }

  /** Main result: for every chunking, fed output plus the finishing flush is the whole-buffer decoding. */
  lemma EveryChunkingDecodes(chunks: seq<Bytes>)
    ensures var fed := FeedAll(chunks); var flush := Drain(fed.pending, true);
      && Unescape(Concat(chunks)) == Decoded(fed.output + flush.output, fed.changed || flush.changed)
      && flush.pending == []
      && |fed.pending| <= MAX_PENDING
  {
    var whole := Concat(chunks);
    FeedAllIsDrain(chunks);
    DrainThenMore(whole, [], true);
    assert whole + [] == whole && FeedAll(chunks).pending + [] == FeedAll(chunks).pending;
    FinalDrain(whole);
    PendingIsShort(whole);
  }

  /** Draining `candidate` continues from `cursor` after emitting `output`. */
  ghost predicate DrainedTo(candidate: Bytes, cursor: nat, final: bool, output: Bytes, found: bool)
    requires cursor <= |candidate|
  {
    var rest := Drain(candidate[cursor..], final);
    Drain(candidate, final) == Drained(output + rest.output, rest.pending, found || rest.changed)
  }

  lemma DrainedToNext(candidate: Bytes, cursor: nat, final: bool, output: Bytes, found: bool)
    requires cursor < |candidate| && DrainedTo(candidate, cursor, final, output, found)
    requires StreamStep(candidate[cursor..], final).Some?
    ensures var step := StreamStep(candidate[cursor..], final).value;
      && cursor < cursor + step.consumed <= |candidate|
      && DrainedTo(candidate, cursor + step.consumed, final, output + step.output, found || step.changed)
  {
    hide NextStep, StreamStep;
    var s := candidate[cursor..];
    StreamStepStable(s, [], final);
    assert s + [] == s;
    var step := StreamStep(s, final).value;
    assert s[step.consumed..] == candidate[cursor + step.consumed..];
    var rest := Drain(s[step.consumed..], final);
    assert output + (step.output + rest.output) == output + step.output + rest.output;
  }

  /** The cursor loop of `feed`: decode as far as the buffered bytes allow. */
  method DrainBuffer(candidate: Bytes, final: bool) returns (output: Bytes, cursor: nat, changed: bool)
    ensures cursor <= |candidate|
    ensures Drain(candidate, final) == Drained(output, candidate[cursor..], changed)
  {
    hide NextStep, StreamStep;
    output, cursor, changed := [], 0, false;
    assert candidate[0..] == candidate;
    while cursor < |candidate|
      invariant 0 <= cursor <= |candidate|
      invariant DrainedTo(candidate, cursor, final, output, changed)
    {
      var step := StreamStep(candidate[cursor..], final);
      if step.None? {
        break;
      }
      DrainedToNext(candidate, cursor, final, output, changed);
      output := output + step.value.output;
      cursor := cursor + step.value.consumed;
      changed := changed || step.value.changed;
    }
    assert Drain(candidate[cursor..], final) == Drained([], candidate[cursor..], false);
  }

  lemma FeedExtends(fed: Bytes, value: Bytes, final: bool)
    ensures var was := Drain(fed, false); var now := Drain(was.pending + value, final);
      && (!final ==>
           Drain(fed + value, false) == Drained(was.output + now.output, now.pending, was.changed || now.changed))
      && (!final ==> |now.pending| <= MAX_PENDING)
      && (final ==> Unescape(fed + value) == Decoded(was.output + now.output, was.changed || now.changed))
      && (final ==> now.pending == [])
  {
    hide NextStep, StreamStep, Drain;
    DrainThenMore(fed, value, final);
    PendingIsShort(fed + value);
    FinalDrain(fed + value);
  }

  class JsonUnescaper {
    var pending: Bytes
    var changed: bool
    ghost var fed: Bytes
    ghost var emitted: Bytes

    /** Every fed byte was drained as if it had arrived at once. */
    ghost predicate Streaming()
      reads this
    {
      Drain(fed, false) == Drained(emitted, pending, changed)
    }

    ghost predicate Finished()
      reads this
    {
      pending == [] && Unescape(fed) == Decoded(emitted, changed)
    }

    constructor ()
      ensures Streaming() && fed == [] && emitted == [] && pending == [] && !changed
    {
      pending, changed := [], false;
      fed, emitted := [], [];
    }

    method Feed(value: Bytes, final: bool) returns (output: Bytes)
      modifies this
      ensures Drain(old(pending) + value, final).output == output
      ensures Drain(old(pending) + value, final).pending == pending
      ensures changed == (old(changed) || Drain(old(pending) + value, final).changed)
      ensures fed == old(fed) + value && emitted == old(emitted) + output
      ensures old(Streaming()) && !final ==> Streaming() && |pending| <= MAX_PENDING
      ensures old(Streaming()) && final ==> Finished()
    {
      var candidate := pending + value;
      var cursor, found;
      output, cursor, found := DrainBuffer(candidate, final);
      FeedExtends(fed, value, final);
      changed := changed || found;
      pending := candidate[cursor..];
      fed, emitted := fed + value, emitted + output;
    }

    method Finish() returns (output: Bytes)
      modifies this
      ensures pending == [] && output == Drain(old(pending), true).output
      ensures fed == old(fed) && emitted == old(emitted) + output
      ensures old(Streaming()) ==> Finished()
    {
      output := Feed([], true);
      assert old(pending) + [] == old(pending);
    }
  }
}
