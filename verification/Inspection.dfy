/** Searching every supported JSON escape layer, over a whole buffer or over a stream. */
module Inspection {
  import opened Bytes
  import opened JsonUnescape
  import opened StreamingUnescaper
  import opened PatternMatcher

  const MAX_ROUNDS := 8

  datatype Verdict = Found | Clean | OverNested | OverLimit | InvalidLimits

  /** The buffer after `i` unescape passes. */
  function Layer(value: Bytes, i: nat): Bytes {
    if i == 0 then value else Unescape(Layer(value, i - 1)).bytes
  }

  /** Some pattern can be read at a supported layer. */
  predicate Visible(patterns: seq<Bytes>, value: Bytes) {
    exists i | 0 <= i <= MAX_ROUNDS :: OccursAny(patterns, Layer(value, i))
  }

  lemma LayerZero(value: Bytes)
    ensures Layer(value, 0) == value
  {
  }

  lemma NextLayer(value: Bytes, i: nat)
    ensures Layer(value, i + 1) == Unescape(Layer(value, i)).bytes
  {
  }

  /** The layered search without early exits or streaming. */
  function Inspect(patterns: seq<Bytes>, value: Bytes): Verdict {
    if Visible(patterns, value) then Found
    else if Unescape(Layer(value, MAX_ROUNDS)).changed then OverNested
    else Clean
  }

  /** Once a pass changes nothing, no later pass does. */
  lemma {:induction false} LayerStays(value: Bytes, i: nat, j: nat)
    requires i <= j && !Unescape(Layer(value, i)).changed
    ensures Layer(value, j) == Layer(value, i)
    decreases j
  {
    hide Unescape;
    if i < j {
      LayerStays(value, i, j - 1);
    }
  }

  lemma SettledLayers(patterns: seq<Bytes>, value: Bytes, k: nat)
    requires k <= MAX_ROUNDS && !Unescape(Layer(value, k)).changed
    requires forall i | 0 <= i <= k :: !OccursAny(patterns, Layer(value, i))
    ensures Inspect(patterns, value) == Clean
  {
    forall i | k <= i <= MAX_ROUNDS ensures Layer(value, i) == Layer(value, k) {
      LayerStays(value, k, i);
    }
  }

  method ContainsBytes(patterns: seq<Bytes>, value: Bytes) returns (verdict: Verdict)
    ensures verdict == Inspect(patterns, value)
  {
    hide Unescape;
    var candidate := value;
    if OccursAny(patterns, candidate) {
      assert OccursAny(patterns, Layer(value, 0));
      return Found;
    }
    for round := 0 to MAX_ROUNDS
      invariant candidate == Layer(value, round)
      invariant forall i | 0 <= i <= round :: !OccursAny(patterns, Layer(value, i))
    {
      var decoded, changed := UnescapeOnce(candidate);
      if !changed {
        SettledLayers(patterns, value, round);
        return Clean;
      }
      candidate := decoded;
      assert candidate == Layer(value, round + 1);
      if OccursAny(patterns, candidate) {
        return Found;
      }
    }
    var _, changed := UnescapeOnce(candidate);
    return if changed then OverNested else Clean;
  }

  /** What has reached `i` layers up, while `base` is still open to more input. */
  ghost function EarlyLayer(base: Bytes, i: nat): Bytes {
    if i == 0 then base else Drain(EarlyLayer(base, i - 1), false).output
  }

  lemma EarlyNext(base: Bytes, i: nat)
    ensures EarlyLayer(base, i + 1) == Drain(EarlyLayer(base, i), false).output
  {
  }

  lemma EarlyZero(base: Bytes)
    ensures EarlyLayer(base, 0) == base
  {
  }

  /** Early bytes of a layer start the finished layer, so a match in them is visible. */
  lemma {:induction false} EarlyLayerIsPrefix(base: Bytes, i: nat, whole: Bytes, start: nat)
    requires base <= Layer(whole, start)
    ensures EarlyLayer(base, i) <= Layer(whole, start + i)
  {
    hide Unescape, Drain;
    if i > 0 {
      EarlyLayerIsPrefix(base, i - 1, whole, start);
      EarlyOutputIsPrefix(EarlyLayer(base, i - 1), Layer(whole, start + i - 1));
    }
  }

  lemma EarlyMatchIsVisible(patterns: seq<Bytes>, base: Bytes, i: nat, whole: Bytes, start: nat)
    requires base <= Layer(whole, start) && start + i <= MAX_ROUNDS
    requires OccursAny(patterns, EarlyLayer(base, i))
    ensures Visible(patterns, whole)
  {
    EarlyLayerIsPrefix(base, i, whole, start);
    OccursAnyInExtension(patterns, EarlyLayer(base, i), Layer(whole, start + i));
  }

  /** One matcher and one unescaper for each layer; none is shared. */
  ghost predicate Wired(patterns: seq<Bytes>, matchers: seq<StreamingPatternMatcher>, decoders: seq<JsonUnescaper>) {
    && |matchers| == |decoders| == MAX_ROUNDS + 1
    && (forall i | 0 <= i < |matchers| :: matchers[i].patterns == patterns)
    && (forall i, j | 0 <= i < j < |matchers| :: matchers[i] != matchers[j])
    && (forall i, j | 0 <= i < j < |decoders| :: decoders[i] != decoders[j])
  }

  ghost predicate DecoderAt(decoder: JsonUnescaper, fed: Bytes)
    reads decoder
  {
    decoder.Streaming() && decoder.fed == fed
  }

  ghost predicate MatcherAt(matcher: StreamingPatternMatcher, fed: Bytes)
    reads matcher
  {
    matcher.Valid() && matcher.fed == fed
  }

  /** Unescapers from `start` up, and the matchers above them, have passed on all they can of `base`. */
  ghost predicate Level(matchers: seq<StreamingPatternMatcher>, decoders: seq<JsonUnescaper>, start: nat, base: Bytes)
    requires |matchers| == |decoders| == MAX_ROUNDS + 1
    reads matchers, decoders
  {
    && (forall i | start <= i <= MAX_ROUNDS :: DecoderAt(decoders[i], EarlyLayer(base, i - start)))
    && (forall i | start < i <= MAX_ROUNDS :: MatcherAt(matchers[i], EarlyLayer(base, i - start)))
  }

  /** The new bytes have risen to `layer`: unescapers below it are level with `after`, the rest with `before`. */
  ghost predicate Rising(matchers: seq<StreamingPatternMatcher>, decoders: seq<JsonUnescaper>,
                         start: nat, layer: nat, before: Bytes, after: Bytes)
    requires |matchers| == |decoders| == MAX_ROUNDS + 1
    reads matchers, decoders
  {
    && (forall i | start <= i <= MAX_ROUNDS ::
         DecoderAt(decoders[i], EarlyLayer(if i < layer then after else before, i - start)))
    && (forall i | start < i <= MAX_ROUNDS ::
         MatcherAt(matchers[i], EarlyLayer(if i <= layer then after else before, i - start)))
  }

  /** One layer: decode the new bytes and search what came out. */
  method FeedLayer(decoder: JsonUnescaper, above: StreamingPatternMatcher, current: Bytes)
    returns (output: Bytes, found: bool)
    requires decoder.Streaming() && MatcherAt(above, Drain(decoder.fed, false).output)
    modifies decoder, above
    ensures DecoderAt(decoder, old(decoder.fed) + current)
    ensures Drain(old(decoder.fed), false).output + output == Drain(old(decoder.fed) + current, false).output
    ensures found ==> OccursAny(above.patterns, Drain(old(decoder.fed) + current, false).output)
    ensures !found ==> MatcherAt(above, Drain(old(decoder.fed) + current, false).output)
  {
    hide Unescape, Drain, OccursAny;
    output := decoder.Feed(current, false);
    found := above.Feed(output);
  }

  /** Raise the new bytes by one layer. */
  method RaiseLayer(patterns: seq<Bytes>, matchers: seq<StreamingPatternMatcher>, decoders: seq<JsonUnescaper>,
                    start: nat, layer: nat, current: Bytes, ghost before: Bytes, ghost after: Bytes)
    returns (output: Bytes, found: bool)
    requires start <= layer < MAX_ROUNDS && Wired(patterns, matchers, decoders)
    requires Rising(matchers, decoders, start, layer, before, after)
    requires EarlyLayer(before, layer - start) + current == EarlyLayer(after, layer - start)
    modifies decoders[layer], matchers[layer + 1]
    ensures found ==> OccursAny(patterns, EarlyLayer(after, layer + 1 - start))
    ensures !found ==> Rising(matchers, decoders, start, layer + 1, before, after)
    ensures EarlyLayer(before, layer + 1 - start) + output == EarlyLayer(after, layer + 1 - start)
  {
    hide Unescape, Drain, OccursAny, MatcherAt, JsonUnescaper.Streaming, EarlyLayer;
    EarlyNext(before, layer - start);
    EarlyNext(after, layer - start);
    output, found := FeedLayer(decoders[layer], matchers[layer + 1], current);
  }

  /** Push new bytes of layer `start` through every layer above it. */
  method FeedLayers(patterns: seq<Bytes>, matchers: seq<StreamingPatternMatcher>, decoders: seq<JsonUnescaper>,
                    value: Bytes, start: nat, ghost base: Bytes)
    returns (found: bool, ghost at: nat)
    requires start <= MAX_ROUNDS && Wired(patterns, matchers, decoders)
    requires Level(matchers, decoders, start, base)
    modifies matchers, decoders
    ensures found ==> at <= MAX_ROUNDS - start && OccursAny(patterns, EarlyLayer(base + value, at))
    ensures !found ==> Level(matchers, decoders, start, base + value)
    ensures unchanged(matchers[start])
  {
    hide Unescape, Drain, OccursAny, DecoderAt, MatcherAt, EarlyLayer, Rising, Level;
    at := 0;
    var current := value;
    EarlyZero(base);
    EarlyZero(base + value);
    LevelIsRising(matchers, decoders, start, base, base + value);
    for layer := start to MAX_ROUNDS
      invariant EarlyLayer(base, layer - start) + current == EarlyLayer(base + value, layer - start)
      invariant Rising(matchers, decoders, start, layer, base, base + value)
      invariant unchanged(matchers[start])
    {
      current, found := RaiseLayer(patterns, matchers, decoders, start, layer, current, base, base + value);
      if found {
        at := layer + 1 - start;
        return;
      }
    }
    FeedTop(matchers, decoders, start, current, base, base + value);
    return false, 0;
  }

  lemma LevelIsRising(matchers: seq<StreamingPatternMatcher>, decoders: seq<JsonUnescaper>, start: nat, before: Bytes,
                      after: Bytes)
    requires |matchers| == |decoders| == MAX_ROUNDS + 1
    requires Level(matchers, decoders, start, before)
    ensures Rising(matchers, decoders, start, start, before, after)
  {
    hide DecoderAt, MatcherAt, EarlyLayer;
  }

  /** The top unescaper only watches for a further change; its output is not searched. */
  method FeedTop(matchers: seq<StreamingPatternMatcher>, decoders: seq<JsonUnescaper>,
                 start: nat, current: Bytes, ghost before: Bytes, ghost after: Bytes)
    requires start <= MAX_ROUNDS && |matchers| == |decoders| == MAX_ROUNDS + 1
    requires forall i | 0 <= i < MAX_ROUNDS :: decoders[i] != decoders[MAX_ROUNDS]
    requires Rising(matchers, decoders, start, MAX_ROUNDS, before, after)
    requires EarlyLayer(before, MAX_ROUNDS - start) + current == EarlyLayer(after, MAX_ROUNDS - start)
    modifies decoders[MAX_ROUNDS]
    ensures Level(matchers, decoders, start, after)
  {
    hide Unescape, Drain, MatcherAt, JsonUnescaper.Streaming, EarlyLayer;
    var _ := decoders[MAX_ROUNDS].Feed(current, false);
  }

  lemma {:induction false} EarlyLayerShift(base: Bytes, i: nat)
    ensures EarlyLayer(EarlyLayer(base, 1), i) == EarlyLayer(base, i + 1)
  {
    hide Unescape, Drain;
    if i > 0 {
      EarlyLayerShift(base, i - 1);
    }
  }

  lemma LevelShift(matchers: seq<StreamingPatternMatcher>, decoders: seq<JsonUnescaper>, start: nat, base: Bytes)
    requires |matchers| == |decoders| == MAX_ROUNDS + 1 && Level(matchers, decoders, start, base)
    ensures Level(matchers, decoders, start + 1, EarlyLayer(base, 1))
  {
    hide Unescape, Drain, DecoderAt, MatcherAt;
    forall i | start < i <= MAX_ROUNDS
      ensures DecoderAt(decoders[i], EarlyLayer(EarlyLayer(base, 1), i - (start + 1)))
      ensures start + 1 < i ==> MatcherAt(matchers[i], EarlyLayer(EarlyLayer(base, 1), i - (start + 1)))
    {
      EarlyLayerShift(base, i - (start + 1));
    }
  }

  method BuildLayers(patterns: seq<Bytes>)
    returns (matchers: seq<StreamingPatternMatcher>, decoders: seq<JsonUnescaper>)
    requires AllNonempty(patterns)
    ensures Wired(patterns, matchers, decoders)
    ensures fresh(matchers) && fresh(decoders)
    ensures Level(matchers, decoders, 0, []) && MatcherAt(matchers[0], [])
  {
    hide Unescape, OccursAny, MaximumLength, AllNonempty, StreamingPatternMatcher.Valid;
    matchers, decoders := [], [];
    var maximumBytes := MaximumLength(patterns);
    for i := 0 to MAX_ROUNDS + 1
      invariant |matchers| == |decoders| == i
      invariant fresh(matchers) && fresh(decoders)
      invariant forall k | 0 <= k < i :: matchers[k].patterns == patterns
      invariant forall j, k | 0 <= j < k < i :: matchers[j] != matchers[k]
      invariant forall j, k | 0 <= j < k < i :: decoders[j] != decoders[k]
      invariant forall k | 0 <= k < i :: DecoderAt(decoders[k], []) && MatcherAt(matchers[k], [])
    {
      var matcher := new StreamingPatternMatcher(patterns, maximumBytes);
      var decoder := new JsonUnescaper();
      matchers, decoders := matchers + [matcher], decoders + [decoder];
    }
    forall i | 0 <= i <= MAX_ROUNDS ensures EarlyLayer([], i) == [] {
      NothingEarly(i);
    }
  }

  lemma {:induction false} NothingEarly(i: nat)
    ensures EarlyLayer([], i) == []
  {
    if i > 0 {
      NothingEarly(i - 1);
    }
  }

  /** Finish one layer and search what its flush completes. */
  method FlushLayer(decoder: JsonUnescaper, above: StreamingPatternMatcher, ghost base: Bytes)
    returns (output: Bytes, found: bool)
    requires DecoderAt(decoder, base) && MatcherAt(above, EarlyLayer(base, 1))
    modifies decoder, above
    ensures EarlyLayer(base, 1) + output == Unescape(base).bytes
    ensures found <==> OccursAny(above.patterns, Unescape(base).bytes)
  {
    hide Unescape, Drain, OccursAny;
    assert EarlyLayer(base, 1) == Drain(base, false).output;
    output := decoder.Finish();
    found := above.Feed(output);
  }

  /** The extra unescaper only tells whether another pass would change the top layer. */
  method FinishTop(decoder: JsonUnescaper, ghost base: Bytes) returns (changed: bool)
    requires DecoderAt(decoder, base)
    modifies decoder
    ensures changed == Unescape(base).changed
  {
    hide Unescape, Drain;
    var _ := decoder.Finish();
    changed := decoder.changed;
  }

  /** Finish layer `layer` and pass its flush through the layers above. */
  method FlushThrough(patterns: seq<Bytes>, matchers: seq<StreamingPatternMatcher>, decoders: seq<JsonUnescaper>,
                      layer: nat, ghost whole: Bytes)
    returns (found: bool)
    requires layer < MAX_ROUNDS && Wired(patterns, matchers, decoders)
    requires Level(matchers, decoders, layer, Layer(whole, layer))
    modifies matchers, decoders
    ensures found ==> Visible(patterns, whole)
    ensures !found ==> !OccursAny(patterns, Layer(whole, layer + 1))
    ensures !found ==> Level(matchers, decoders, layer + 1, Layer(whole, layer + 1))
  {
    hide Unescape, Drain, OccursAny, DecoderAt, MatcherAt, EarlyLayer, Layer, Visible;
    ghost var base := Layer(whole, layer);
    ghost var early := EarlyLayer(base, 1);
    EarlyZero(base);
    NextLayer(whole, layer);
    LevelShift(matchers, decoders, layer, base);
    var current;
    current, found := FlushLayer(decoders[layer], matchers[layer + 1], base);
    EarlyZero(early + current);
    if found {
      EarlyMatchIsVisible(patterns, early + current, 0, whole, layer + 1);
      return;
    }
    ghost var at;
    found, at := FeedLayers(patterns, matchers, decoders, current, layer + 1, early);
    if found {
      EarlyMatchIsVisible(patterns, early + current, at, whole, layer + 1);
    }
  }

  /** Finalize the layers bottom up, passing each flush only through the layers still open. */
  method FlushLayers(patterns: seq<Bytes>, matchers: seq<StreamingPatternMatcher>, decoders: seq<JsonUnescaper>,
                     ghost whole: Bytes)
    returns (verdict: Verdict)
    requires Wired(patterns, matchers, decoders)
    requires Level(matchers, decoders, 0, whole) && !OccursAny(patterns, whole)
    modifies matchers, decoders
    ensures verdict == Inspect(patterns, whole)
  {
    hide Unescape, Drain, OccursAny, DecoderAt, MatcherAt, EarlyLayer, Layer;
    LayerZero(whole);
    for layer := 0 to MAX_ROUNDS
      invariant Level(matchers, decoders, layer, Layer(whole, layer))
      invariant forall i | 0 <= i <= layer :: !OccursAny(patterns, Layer(whole, i))
    {
      NextLayer(whole, layer);
      var found := FlushThrough(patterns, matchers, decoders, layer, whole);
      if found {
        return Found;
      }
    }
    EarlyZero(Layer(whole, MAX_ROUNDS));
    var overNested := FinishTop(decoders[MAX_ROUNDS], Layer(whole, MAX_ROUNDS));
    return if overNested then OverNested else Clean;
  }

  /** One read of the stream: search the raw bytes, then every layer above. */
  method FeedChunk(patterns: seq<Bytes>, matchers: seq<StreamingPatternMatcher>, decoders: seq<JsonUnescaper>,
                   chunk: Bytes, ghost read: Bytes, ghost whole: Bytes)
    returns (found: bool)
    requires Wired(patterns, matchers, decoders) && read + chunk <= whole
    requires Level(matchers, decoders, 0, read) && MatcherAt(matchers[0], read)
    modifies matchers, decoders
    ensures found ==> Visible(patterns, whole)
    ensures !found ==> Level(matchers, decoders, 0, read + chunk) && MatcherAt(matchers[0], read + chunk)
  {
    hide Unescape, Drain, OccursAny, DecoderAt, EarlyLayer, Layer, Visible, StreamingPatternMatcher.Valid;
    LayerZero(whole);
    EarlyZero(read + chunk);
    found := matchers[0].Feed(chunk);
    if found {
      EarlyMatchIsVisible(patterns, read + chunk, 0, whole, 0);
      return;
    }
    ghost var at;
    found, at := FeedLayers(patterns, matchers, decoders, chunk, 0, read);
    if found {
      EarlyMatchIsVisible(patterns, read + chunk, at, whole, 0);
    }
  }

  /** Main result: a stream is judged as its joined chunks would be, however it is cut. */
  method ContainsStream(patterns: seq<Bytes>, chunks: seq<Bytes>, maximumBytes: int, chunkBytes: int)
    returns (verdict: Verdict)
    requires AllNonempty(patterns) && AllNonempty(chunks) // a read returns nothing only at the end
    ensures verdict == InvalidLimits <==> maximumBytes < 0 || chunkBytes <= 0
    ensures verdict != InvalidLimits && patterns == [] ==> verdict == Clean
    ensures verdict != InvalidLimits && patterns != [] && |Concat(chunks)| <= maximumBytes
      ==> verdict == Inspect(patterns, Concat(chunks))
    ensures verdict != InvalidLimits && patterns != [] && |Concat(chunks)| > maximumBytes
      ==> verdict == OverLimit || (verdict == Found && Visible(patterns, Concat(chunks)))
  {
    if maximumBytes < 0 || chunkBytes <= 0 {
      return InvalidLimits;
    }
    if patterns == [] {
      return Clean;
    }
    hide Unescape, Drain, OccursAny, DecoderAt, EarlyLayer, Layer, Visible, AllNonempty;
    ghost var whole := Concat(chunks);
    var matchers, decoders := BuildLayers(patterns);
    var consumed := 0;
    ghost var read: Bytes := [];
    for next := 0 to |chunks|
      invariant read == Concat(chunks[..next]) && consumed == |read| <= maximumBytes
      invariant Level(matchers, decoders, 0, read) && MatcherAt(matchers[0], read)
    {
      var chunk := chunks[next];
      consumed := consumed + |chunk|;
      ReadNext(chunks, next);
      ConcatPrefix(chunks, next + 1);
      if consumed > maximumBytes {
        return OverLimit;
      }
      var found := FeedChunk(patterns, matchers, decoders, chunk, read, whole);
      if found {
        return Found;
      }
      read := read + chunk;
    }
    assert chunks[..|chunks|] == chunks;
    verdict := FlushLayers(patterns, matchers, decoders, whole);
  }
}
