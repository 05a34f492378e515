/** Scoring one review benchmark case: candidates, maximum matching, and the counts built on it. */
module ReviewBenchmark {
  import opened Wrappers
  import opened Matching
  import opened Ordering

  datatype ExpectedFinding = ExpectedFinding(
    id: string, severity: string, category: string, file: string, lineStart: nat, lineEnd: nat)

  datatype PredictedFinding = PredictedFinding(
    severity: string, category: string, file: string, line: Option<int>, confidence: real)

  /** How the benchmark is scored: the path normalizer and whether severities must agree. */
  datatype Rules = Rules(normalize: string -> string, requireExactSeverity: bool)

  /** A prediction hits a finding: its file and category, one of its lines, and its severity where that counts. */
  ghost predicate Hits(rules: Rules, predicted: PredictedFinding, expected: ExpectedFinding) {
    && (exists line :: predicted.line == Some(line) && line >= expected.lineStart && line <= expected.lineEnd)
    && rules.normalize(expected.file) == rules.normalize(predicted.file) && expected.category == predicted.category
    && (rules.requireExactSeverity ==> expected.severity == predicted.severity)
  }

  predicate IsCandidate(rules: Rules, expected: ExpectedFinding, predicted: PredictedFinding)
    ensures IsCandidate(rules, expected, predicted) <==> Hits(rules, predicted, expected)
  {
    && predicted.line.Some?
    && rules.normalize(predicted.file) == rules.normalize(expected.file)
    && predicted.category == expected.category
    && (!rules.requireExactSeverity || predicted.severity == expected.severity)
    && expected.lineStart <= predicted.line.value <= expected.lineEnd
  }

  // ----- Sort keys -----

  function ExpectedKey(rules: Rules, f: ExpectedFinding): Key {
    [Text(f.id), Text(rules.normalize(f.file)), Text(f.category), Number(f.lineStart), Number(f.lineEnd),
      Text(f.severity)]
  }

  function PredictionKey(rules: Rules, f: PredictedFinding): Key {
    [Text(rules.normalize(f.file)), Text(f.category), Flag(f.line.None?),
     Number(if f.line.Some? then f.line.value else -1), Text(f.severity), Score(f.confidence)]
  }

  /** Expected findings come by id, file, category, lines and severity, in this order; `tie` decides among equals. */
  ghost predicate ExpectedFirst(rules: Rules, a: ExpectedFinding, b: ExpectedFinding, tie: bool) {
    var fileA, fileB := rules.normalize(a.file), rules.normalize(b.file);
    if a.id != b.id then TextBefore(a.id, b.id)
    else if fileA != fileB then TextBefore(fileA, fileB)
    else if a.category != b.category then TextBefore(a.category, b.category)
    else if a.lineStart != b.lineStart then a.lineStart < b.lineStart
    else if a.lineEnd != b.lineEnd then a.lineEnd < b.lineEnd
    else if a.severity != b.severity then TextBefore(a.severity, b.severity)
    else tie
  }

  /** Predictions come by file, category, line, severity and confidence; those without a line come last. */
  ghost predicate PredictionFirst(rules: Rules, a: PredictedFinding, b: PredictedFinding, tie: bool) {
    var fileA, fileB := rules.normalize(a.file), rules.normalize(b.file);
    if fileA != fileB then TextBefore(fileA, fileB)
    else if a.category != b.category then TextBefore(a.category, b.category)
    else if a.line != b.line then a.line.Some? && (b.line.None? || a.line.value < b.line.value)
    else if a.severity != b.severity then TextBefore(a.severity, b.severity)
    else if a.confidence != b.confidence then a.confidence < b.confidence
    else tie
  }

  lemma KeyHead(p: KeyPart, a: Key, q: KeyPart, b: Key)
    ensures KeyBefore([p] + a, [q] + b) <==> PartBefore(p, q) || (p == q && KeyBefore(a, b))
    ensures [p] + a == [q] + b <==> p == q && a == b
  {
    assert ([p] + a)[1..] == a && ([q] + b)[1..] == b;
  }

  /** The first part on which two keys differ decides. */
  lemma TwoHeads(p: KeyPart, p': KeyPart, a: Key, q: KeyPart, q': KeyPart, b: Key)
    ensures KeyBefore([p, p'] + a, [q, q'] + b)
      <==> PartBefore(p, q) || (p == q && (PartBefore(p', q') || (p' == q' && KeyBefore(a, b))))
    ensures [p, p'] + a == [q, q'] + b <==> p == q && p' == q' && a == b
  {
    KeyHead(p, [p'] + a, q, [q'] + b);
    KeyHead(p', a, q', b);
    assert [p, p'] + a == [p] + ([p'] + a) && [q, q'] + b == [q] + ([q'] + b);
  }

  lemma SixHeads(a: Key, b: Key)
    requires |a| == 6 && |b| == 6
    ensures KeyBefore(a, b) <==>
      PartBefore(a[0], b[0]) || (a[0] == b[0] && (PartBefore(a[1], b[1]) || (a[1] == b[1] && (
      PartBefore(a[2], b[2]) || (a[2] == b[2] && (PartBefore(a[3], b[3]) || (a[3] == b[3] && (
      PartBefore(a[4], b[4]) || (a[4] == b[4] && PartBefore(a[5], b[5]))))))))))
    ensures a == b <==> forall i | 0 <= i < 6 :: a[i] == b[i]
  {
    hide PartBefore;
    var (c, d) := ([a[4], a[5]] + [], [b[4], b[5]] + []);
    TwoHeads(a[4], a[5], [], b[4], b[5], []);
    hide KeyBefore;
    TwoHeads(a[2], a[3], c, b[2], b[3], d);
    TwoHeads(a[0], a[1], [a[2], a[3]] + c, b[0], b[1], [b[2], b[3]] + d);
    assert a == [a[0], a[1]] + ([a[2], a[3]] + c) && b == [b[0], b[1]] + ([b[2], b[3]] + d);
  }

  lemma TextPart(s: string, t: string)
    ensures PartBefore(Text(s), Text(t)) ==> s != t
  {
    TextBeforeIsStrict(s);
  }

  lemma ExpectedKeyMeans(rules: Rules, a: ExpectedFinding, b: ExpectedFinding, tie: bool)
    ensures var j, k := ExpectedKey(rules, a), ExpectedKey(rules, b);
      ExpectedFirst(rules, a, b, tie) <==> KeyBefore(j, k) || (j == k && tie)
  {
    hide KeyBefore, TextBefore;
    SixHeads(ExpectedKey(rules, a), ExpectedKey(rules, b));
    TextPart(a.id, b.id);
    TextPart(rules.normalize(a.file), rules.normalize(b.file));
    TextPart(a.category, b.category);
    TextPart(a.severity, b.severity);
  }

  lemma PredictionKeyMeans(rules: Rules, a: PredictedFinding, b: PredictedFinding, tie: bool)
    ensures var j, k := PredictionKey(rules, a), PredictionKey(rules, b);
      PredictionFirst(rules, a, b, tie) <==> KeyBefore(j, k) || (j == k && tie)
  {
    hide KeyBefore, TextBefore;
    SixHeads(PredictionKey(rules, a), PredictionKey(rules, b));
    TextPart(rules.normalize(a.file), rules.normalize(b.file));
    TextPart(a.category, b.category);
    TextPart(a.severity, b.severity);
  }

  /** Insert index `i` before the first index with a larger key; equal keys keep index order. */
  function InsertIndex(keys: seq<Key>, order: seq<nat>, i: nat): (r: seq<nat>)
    requires i < |keys| && forall j | 0 <= j < |order| :: order[j] < |keys|
    ensures |r| == |order| + 1
    ensures forall x: nat :: x in r <==> x in order || x == i
    ensures i !in order && Distinct(order) ==> Distinct(r)
  {
    if order == [] then [i]
    else if KeyBefore(keys[i], keys[order[0]]) then [i] + order
    else
      var rest := InsertIndex(keys, order[1..], i);
      assert order == [order[0]] + order[1..];
      assert Distinct(order) && i !in order ==> order[0] !in rest;
      [order[0]] + rest
  }

  /** The indices below `n` sorted by key. */
  function SortIndices(keys: seq<Key>, n: nat): (r: seq<nat>)
    requires n <= |keys|
    ensures IsOrder(r, n)
  {
    if n == 0 then []
    else
      var before := SortIndices(keys, n - 1);
      var r := InsertIndex(keys, before, n - 1);
      assert forall j | 0 <= j < n :: r[j] in r;
      r
  }

  ghost predicate OneShape(keys: seq<Key>) {
    forall u, v | 0 <= u < |keys| && 0 <= v < |keys| :: SameShape(keys[u], keys[v])
  }

  /** Index `u` sorts before index `v`: by key, and by position among equal keys. */
  ghost predicate SortsBefore(keys: seq<Key>, u: nat, v: nat)
    requires u < |keys| && v < |keys|
  {
    KeyBefore(keys[u], keys[v]) || (keys[u] == keys[v] && u < v)
  }

  ghost predicate InKeyOrder(keys: seq<Key>, order: seq<nat>)
    requires forall j | 0 <= j < |order| :: order[j] < |keys|
  {
    forall j, k | 0 <= j < k < |order| :: SortsBefore(keys, order[j], order[k])
  }

  lemma {:induction false} InsertIndexInOrder(keys: seq<Key>, order: seq<nat>, i: nat)
    requires OneShape(keys) && i < |keys| && forall j | 0 <= j < |order| :: order[j] < i
    requires InKeyOrder(keys, order)
    ensures var r := InsertIndex(keys, order, i); forall j | 0 <= j < |r| :: r[j] < |keys|
    ensures InKeyOrder(keys, InsertIndex(keys, order, i))
  {
    hide KeyBefore;
    if order != [] {
      var head, tail := order[0], order[1..];
      InsertIndexInOrder(keys, tail, i);
      KeyBeforeIsTotal(keys[i], keys[head]);
      if KeyBefore(keys[i], keys[head]) {
        forall x | x in order ensures SortsBefore(keys, i, x) {
          if x != head {
            var j :| 0 <= j < |order| && order[j] == x;
            assert SortsBefore(keys, order[0], order[j]);
            if KeyBefore(keys[head], keys[x]) {
              KeyBeforeIsTransitive(keys[i], keys[head], keys[x]);
            }
          }
        }
      } else {
        forall x | x in InsertIndex(keys, tail, i) ensures SortsBefore(keys, head, x) {
        }
      }
    }
  }

  /** The sort orders indices by key, and by position among equal keys. */
  lemma {:induction false} SortIndicesInOrder(keys: seq<Key>, n: nat)
    requires OneShape(keys) && n <= |keys|
    ensures forall j | 0 <= j < n :: SortIndices(keys, n)[j] < |keys|
    ensures InKeyOrder(keys, SortIndices(keys, n))
  {
    hide OneShape, SortsBefore, KeyBefore, InsertIndex;
    if n > 0 {
      SortIndicesInOrder(keys, n - 1);
      InsertIndexInOrder(keys, SortIndices(keys, n - 1), n - 1);
    }
  }

  // ----- The candidate graph -----

  function Candidates(rules: Rules, finding: ExpectedFinding, predictions: seq<PredictedFinding>,
                      order: seq<nat>): (r: seq<nat>)
    requires forall j | 0 <= j < |order| :: order[j] < |predictions|
    ensures forall p: nat :: p in r <==> p in order && Hits(rules, predictions[p], finding)
  {
    if order == [] then []
    else
      var rest := Candidates(rules, finding, predictions, order[1..]);
      if IsCandidate(rules, finding, predictions[order[0]]) then [order[0]] + rest else rest
  }

  ghost predicate Pairs(rules: Rules, expected: seq<ExpectedFinding>, predictions: seq<PredictedFinding>, u: nat,
                        p: nat)
  {
    u < |expected| && p < |predictions| && Hits(rules, predictions[p], expected[u])
  }

  /** A matching of findings: expected index to prediction index, candidates only, nothing used twice. */
  ghost predicate Matches(rules: Rules, expected: seq<ExpectedFinding>, predictions: seq<PredictedFinding>,
                          taken: map<nat, nat>)
  {
    && (forall u | u in taken :: Pairs(rules, expected, predictions, u, taken[u]))
    && OneToOne(taken)
  }

  ghost predicate MatchesMost(rules: Rules, expected: seq<ExpectedFinding>, predictions: seq<PredictedFinding>,
                              taken: map<nat, nat>)
  {
    && Matches(rules, expected, predictions, taken)
    && forall other | Matches(rules, expected, predictions, other) :: |other| <= |taken|
  }

  /** A finding and everything that sorts before it. */
  ghost function UpTo(rules: Rules, expected: seq<ExpectedFinding>, v: nat): set<nat>
    requires v < |expected|
  {
    set u: nat | u < |expected| && (u == v || ExpectedFirst(rules, expected[u], expected[v], u < v))
  }

  /** No finding goes without for the sake of one that sorts after it. */
  ghost predicate ServesInOrder(rules: Rules, expected: seq<ExpectedFinding>, predictions: seq<PredictedFinding>,
                                taken: map<nat, nat>)
  {
    forall v: nat, other | v < |expected| && Matches(rules, expected, predictions, other)
        && other.Keys <= UpTo(rules, expected, v) ::
      |other| <= |taken.Keys * UpTo(rules, expected, v)|
  }

  /** No finding takes a prediction while one that sorts before it would do and is left unused. */
  ghost predicate PassesOverNone(rules: Rules, expected: seq<ExpectedFinding>, predictions: seq<PredictedFinding>,
                                 taken: map<nat, nat>)
  {
    forall u: nat, q: nat | u in taken && taken[u] < |predictions| && Pairs(rules, expected, predictions, u, q) ::
      PredictionFirst(rules, predictions[q], predictions[taken[u]], q < taken[u]) ==> q in taken.Values
  }

  /** A maximum matching that serves findings in their order, and uses predictions in theirs. */
  ghost predicate Chosen(rules: Rules, expected: seq<ExpectedFinding>, predictions: seq<PredictedFinding>,
                         taken: map<nat, nat>)
  {
    && MatchesMost(rules, expected, predictions, taken) && ServesInOrder(rules, expected, predictions, taken)
    && PassesOverNone(rules, expected, predictions, taken)
  }

  function ExpectedKeys(rules: Rules, expected: seq<ExpectedFinding>): (keys: seq<Key>)
    ensures |keys| == |expected| && forall i | 0 <= i < |keys| :: keys[i] == ExpectedKey(rules, expected[i])
    ensures OneShape(keys)
  {
    seq(|expected|, i requires 0 <= i < |expected| => ExpectedKey(rules, expected[i]))
  }

  function PredictionKeys(rules: Rules, predictions: seq<PredictedFinding>): (keys: seq<Key>)
    ensures |keys| == |predictions| && forall i | 0 <= i < |keys| :: keys[i] == PredictionKey(rules, predictions[i])
    ensures OneShape(keys)
  {
    seq(|predictions|, i requires 0 <= i < |predictions| => PredictionKey(rules, predictions[i]))
  }

  /** `expected index -> prediction index`, a matching of maximum size. */
  method MaximumMatchingOf(rules: Rules, expected: seq<ExpectedFinding>, predictions: seq<PredictedFinding>)
    returns (taken: map<nat, nat>)
    ensures Chosen(rules, expected, predictions, taken)
  {
    hide Pairs, KeyBefore, ExpectedKey, PredictionKey, OneShape, InKeyOrder, NoneSkipped, ServesFirst;
    var expectedKeys, predictionKeys := ExpectedKeys(rules, expected), PredictionKeys(rules, predictions);
    var expectedOrder := SortIndices(expectedKeys, |expectedKeys|);
    var predictionOrder := SortIndices(predictionKeys, |predictionKeys|);
    var adjacency :=
      seq(|expected|, u requires 0 <= u < |expected| => Candidates(rules, expected[u], predictions, predictionOrder));
    var owner := MaximumMatching(adjacency, expectedOrder);
    taken := Inverted(owner);
    EdgesArePairs(rules, expected, predictions, predictionOrder, adjacency);
    InvertedIsMost(rules, expected, predictions, adjacency, owner);
    ServedInOrder(rules, expected, predictions, adjacency, owner, taken);
    SkipsNone(rules, expected, predictions, adjacency, owner, taken);
  }

  /** The candidate graph, with every list in the order of the predictions. */
  ghost predicate IsGraph(rules: Rules, expected: seq<ExpectedFinding>, predictions: seq<PredictedFinding>,
                          adjacency: Adjacency)
  {
    && |adjacency| == |expected|
    && (forall u: nat, p: nat :: Edge(adjacency, u, p) <==> Pairs(rules, expected, predictions, u, p))
  }

  lemma EdgesArePairs(rules: Rules, expected: seq<ExpectedFinding>, predictions: seq<PredictedFinding>,
                      order: seq<nat>, adjacency: Adjacency)
    requires IsOrder(order, |predictions|) && |adjacency| == |expected|
    requires forall u: nat | u < |expected| :: adjacency[u] == Candidates(rules, expected[u], predictions, order)
    ensures IsGraph(rules, expected, predictions, adjacency)
  {
  }

  /** A matching of findings, as a map from predictions to their owners. */
  lemma FlippedMatching(rules: Rules, expected: seq<ExpectedFinding>, predictions: seq<PredictedFinding>,
                        adjacency: Adjacency, other: map<nat, nat>)
    requires IsGraph(rules, expected, predictions, adjacency) && Matches(rules, expected, predictions, other)
    ensures var flipped := Inverted(other);
      IsMatching(adjacency, flipped) && flipped.Values == other.Keys && |flipped| == |other|
  {
    hide Pairs, Edge;
    var flipped := Inverted(other);
    forall p | p in flipped ensures Edge(adjacency, flipped[p], p) {
      var u :| u in other && other[u] == p;
      assert Pairs(rules, expected, predictions, u, p);
    }
    forall p, q | p in flipped && q in flipped && flipped[p] == flipped[q] ensures p == q {
      var u :| u in other && other[u] == p;
      var v :| v in other && other[v] == q;
    }
  }

  lemma InvertedIsMost(rules: Rules, expected: seq<ExpectedFinding>, predictions: seq<PredictedFinding>,
                       adjacency: Adjacency, owner: map<nat, nat>)
    requires IsMaximumMatching(adjacency, owner) && IsGraph(rules, expected, predictions, adjacency)
    ensures MatchesMost(rules, expected, predictions, Inverted(owner))
  {
    hide Pairs, Edge;
    var taken := Inverted(owner);
    forall u | u in taken ensures Pairs(rules, expected, predictions, u, taken[u]) && owner[taken[u]] == u {
      var p :| p in owner && owner[p] == u;
      assert Edge(adjacency, u, p);
    }
    forall other | Matches(rules, expected, predictions, other) ensures |other| <= |taken| {
      FlippedMatching(rules, expected, predictions, adjacency, other);
    }
  }

  /** An index is among the first of the order exactly when it is the last one of them or sorts before it. */
  lemma FirstOrBefore(rules: Rules, expected: seq<ExpectedFinding>, order: seq<nat>, k: nat, j: nat)
    requires IsOrder(order, |expected|) && k < |order| && j < |order|
    requires InKeyOrder(ExpectedKeys(rules, expected), order)
    ensures order[j] in order[..k + 1] <==> order[j] in UpTo(rules, expected, order[k])
  {
    hide KeyBefore, ExpectedKey, OneShape, ExpectedFirst;
    var keys, u, v := ExpectedKeys(rules, expected), order[j], order[k];
    InFirst(order, k + 1, j);
    ExpectedKeyMeans(rules, expected[u], expected[v], u < v);
    SortsOneWay(keys, u, v);
    assert j < k ==> SortsBefore(keys, order[j], order[k]);
    assert k < j ==> SortsBefore(keys, order[k], order[j]);
  }

  /** The first findings in order are those that sort before the last one of them. */
  lemma FirstInOrder(rules: Rules, expected: seq<ExpectedFinding>, v: nat) returns (i: nat)
    requires v < |expected|
    ensures i <= |expected|
    ensures Elements(SortIndices(ExpectedKeys(rules, expected), |expected|)[..i]) == UpTo(rules, expected, v)
  {
    hide KeyBefore, ExpectedKey, OneShape, ExpectedFirst, InKeyOrder, SortIndices;
    var keys := ExpectedKeys(rules, expected);
    var order := SortIndices(keys, |expected|);
    SortIndicesInOrder(keys, |keys|);
    assert v in order;
    var k :| 0 <= k < |order| && order[k] == v;
    i := k + 1;
    forall u: nat | u < |expected| ensures u in order[..i] <==> u in UpTo(rules, expected, v) {
      assert u in order;
      var j :| 0 <= j < |order| && order[j] == u;
      FirstOrBefore(rules, expected, order, k, j);
    }
  }

  lemma InFirst(order: seq<nat>, i: nat, j: nat)
    requires i <= |order| && j < |order| && Distinct(order)
    ensures order[j] in order[..i] <==> j < i
  {
    if order[j] in order[..i] {
      var l :| 0 <= l < i && order[..i][l] == order[j];
      assert order[l] == order[j];
    }
    assert j < i ==> order[..i][j] == order[j];
  }

  lemma SortsOneWay(keys: seq<Key>, u: nat, v: nat)
    requires u < |keys| && v < |keys|
    ensures !(SortsBefore(keys, u, v) && SortsBefore(keys, v, u))
  {
    hide KeyBefore;
    KeyBeforeIsStrict(keys[u]);
    if KeyBefore(keys[u], keys[v]) && KeyBefore(keys[v], keys[u]) {
      KeyBeforeIsTransitive(keys[u], keys[v], keys[u]);
    }
  }

  lemma ServedInOrder(rules: Rules, expected: seq<ExpectedFinding>, predictions: seq<PredictedFinding>,
                      adjacency: Adjacency, owner: map<nat, nat>, taken: map<nat, nat>)
    requires IsGraph(rules, expected, predictions, adjacency) && taken.Keys == owner.Values
    requires var order := SortIndices(ExpectedKeys(rules, expected), |expected|);
      forall i | 0 <= i <= |order| :: ServesFirst(adjacency, order, owner.Values, i)
    ensures ServesInOrder(rules, expected, predictions, taken)
  {
    hide ExpectedFirst, Pairs, Elements, UpTo;
    var order := SortIndices(ExpectedKeys(rules, expected), |expected|);
    forall v: nat, other | v < |expected| && Matches(rules, expected, predictions, other)
        && other.Keys <= UpTo(rules, expected, v)
      ensures |other| <= |taken.Keys * UpTo(rules, expected, v)|
    {
      var i := FirstInOrder(rules, expected, v);
      FlippedMatching(rules, expected, predictions, adjacency, other);
      assert ServesFirst(adjacency, order, owner.Values, i);
    }
  }

  /** Candidates are listed in the order of the predictions. */
  lemma {:induction false} CandidatesInOrder(rules: Rules, finding: ExpectedFinding,
                                             predictions: seq<PredictedFinding>, keys: seq<Key>, order: seq<nat>)
    requires |keys| == |predictions| && (forall j | 0 <= j < |order| :: order[j] < |predictions|)
    requires InKeyOrder(keys, order)
    ensures var r := Candidates(rules, finding, predictions, order);
      (forall j | 0 <= j < |r| :: r[j] < |predictions|) && InKeyOrder(keys, r)
  {
    hide SortsBefore, IsCandidate;
    var r := Candidates(rules, finding, predictions, order);
    forall j | 0 <= j < |r| ensures r[j] < |predictions| {
      assert r[j] in r;
    }
    if order != [] {
      CandidatesInOrder(rules, finding, predictions, keys, order[1..]);
      var rest := Candidates(rules, finding, predictions, order[1..]);
      forall p | p in rest ensures SortsBefore(keys, order[0], p) {
        var k :| 0 <= k < |order[1..]| && order[1..][k] == p;
        assert order[k + 1] == p;
      }
    }
  }

  lemma SkipsNone(rules: Rules, expected: seq<ExpectedFinding>, predictions: seq<PredictedFinding>,
                  adjacency: Adjacency, owner: map<nat, nat>, taken: map<nat, nat>)
    requires IsGraph(rules, expected, predictions, adjacency) && NoneSkipped(adjacency, owner)
    requires var order := SortIndices(PredictionKeys(rules, predictions), |predictions|);
      forall u: nat | u < |expected| :: adjacency[u] == Candidates(rules, expected[u], predictions, order)
    requires OneToOne(owner) && taken == Inverted(owner)
    ensures PassesOverNone(rules, expected, predictions, taken)
  {
    hide Inverted, PredictionFirst, Candidates, TakesFirst;
    forall u: nat, q: nat | u in taken && taken[u] < |predictions| && Pairs(rules, expected, predictions, u, q)
      ensures PredictionFirst(rules, predictions[q], predictions[taken[u]], q < taken[u]) ==> q in taken.Values
    {
      var p :| p in owner && owner[p] == u;
      assert TakesFirst(adjacency, owner, u, p);
      assert Edge(adjacency, u, q);
      if PredictionFirst(rules, predictions[q], predictions[p], q < p) {
        EarlierIsTaken(rules, expected[u], predictions, adjacency, owner, u, p, q);
      }
    }
  }

  lemma EarlierIsTaken(rules: Rules, finding: ExpectedFinding, predictions: seq<PredictedFinding>,
                       adjacency: Adjacency, owner: map<nat, nat>, u: nat, p: nat, q: nat)
    requires TakesFirst(adjacency, owner, u, p) && p < |predictions| && q < |predictions| && Edge(adjacency, u, q)
    requires adjacency[u]
      == Candidates(rules, finding, predictions, SortIndices(PredictionKeys(rules, predictions), |predictions|))
    requires PredictionFirst(rules, predictions[q], predictions[p], q < p)
    ensures q in owner
  {
    hide KeyBefore, PredictionKey, PredictionFirst, Candidates, SortIndices, InKeyOrder, OneShape, IsCandidate;
    var keys := PredictionKeys(rules, predictions);
    var order := SortIndices(keys, |predictions|);
    SortIndicesInOrder(keys, |keys|);
    CandidatesInOrder(rules, finding, predictions, keys, order);
    PredictionKeyMeans(rules, predictions[q], predictions[p], q < p);
    var i :| 0 <= i < |adjacency[u]| && adjacency[u][i] == p && forall j | 0 <= j < i :: adjacency[u][j] in owner;
    var j :| 0 <= j < |adjacency[u]| && adjacency[u][j] == q;
    StandsBefore(keys, adjacency[u], j, i);
  }

  /** In a sorted list, what sorts before another index stands before it. */
  lemma StandsBefore(keys: seq<Key>, order: seq<nat>, j: nat, i: nat)
    requires (forall k | 0 <= k < |order| :: order[k] < |keys|) && InKeyOrder(keys, order)
    requires i < |order| && j < |order| && SortsBefore(keys, order[j], order[i])
    ensures j < i
  {
    hide SortsBefore;
    SortsOneWay(keys, order[j], order[i]);
  }

  // ----- Scoring a case -----

  datatype FindingMatch = FindingMatch(
    expectedId: string, predictionIndex: nat, expectedSeverity: string, predictedSeverity: string,
    severityCorrect: bool)

  datatype ExpectedResult = ExpectedResult(
    finding: ExpectedFinding, matched: bool, predictionIndex: Option<nat>, severityCorrect: Option<bool>)

  datatype PredictionResult = PredictionResult(
    predictionIndex: nat, finding: PredictedFinding, matched: bool, expectedId: Option<string>)

  datatype CaseResult = CaseResult(
    expectedCount: nat, predictionCount: nat, truePositives: nat, falsePositives: nat, falseNegatives: nat,
    matches: seq<FindingMatch>, expectedResults: seq<ExpectedResult>, predictionResults: seq<PredictionResult>)

  ghost function MatchedCount(results: seq<ExpectedResult>): nat {
    if results == [] then 0
    else MatchedCount(results[..|results| - 1]) + (if results[|results| - 1].matched then 1 else 0)
  }

  /** An entry for the match of expected finding `u`: both findings, their severities and whether these agree. */
  ghost predicate IsMatchOf(m: FindingMatch, expected: seq<ExpectedFinding>, predictions: seq<PredictedFinding>,
                            taken: map<nat, nat>, u: nat)
  {
    && u in taken && u < |expected| && taken[u] < |predictions|
    && m.expectedId == expected[u].id && m.predictionIndex == taken[u]
    && m.expectedSeverity == expected[u].severity && m.predictedSeverity == predictions[taken[u]].severity
    && (m.severityCorrect <==> expected[u].severity == predictions[taken[u]].severity)
  }

  /** Entries for the findings `order`, one after the other. */
  ghost predicate MatchesOf(expected: seq<ExpectedFinding>, predictions: seq<PredictedFinding>, taken: map<nat, nat>,
                            order: seq<nat>, matches: seq<FindingMatch>)
  {
    && |matches| == |order|
    && forall i | 0 <= i < |matches| :: IsMatchOf(matches[i], expected, predictions, taken, order[i])
  }

  /** One entry for every taken finding, by id and, for equal ids, by index. */
  ghost predicate ListsMatches(expected: seq<ExpectedFinding>, predictions: seq<PredictedFinding>,
                               taken: map<nat, nat>, matches: seq<FindingMatch>)
  {
    exists order ::
      && MatchesOf(expected, predictions, taken, order, matches)
      && (forall u :: u in order <==> u in taken)
      && forall i, j | 0 <= i < j < |order| ::
           ComesById(matches[i].expectedId, matches[j].expectedId, order[i] < order[j])
  }

  ghost predicate ComesById(a: string, b: string, tie: bool) {
    TextBefore(a, b) || (a == b && tie)
  }

  /** The disposition of expected finding `u` under a matching. */
  ghost predicate ExpectedRight(expected: seq<ExpectedFinding>, predictions: seq<PredictedFinding>,
                                taken: map<nat, nat>, u: nat, r: ExpectedResult)
    requires u < |expected| && forall v | v in taken :: taken[v] < |predictions|
  {
    && r.finding == expected[u]
    && (r.matched <==> u in taken)
    && (u in taken ==>
          r.predictionIndex == Some(taken[u])
          && r.severityCorrect == Some(expected[u].severity == predictions[taken[u]].severity))
    && (u !in taken ==> r.predictionIndex == None && r.severityCorrect == None)
  }

  /** The disposition of prediction `p` under a matching. */
  ghost predicate PredictionRight(expected: seq<ExpectedFinding>, predictions: seq<PredictedFinding>,
                                  taken: map<nat, nat>, p: nat, r: PredictionResult)
    requires p < |predictions| && forall u | u in taken :: u < |expected|
  {
    && r.predictionIndex == p && r.finding == predictions[p]
    && (r.matched <==> exists u :: u in taken && taken[u] == p)
    && (r.matched <==> r.expectedId.Some?)
    && forall u | u in taken && taken[u] == p :: r.expectedId == Some(expected[u].id)
  }

  /** The matches sorted by expected id; equal ids keep their order. */
  function SortMatches(matches: seq<FindingMatch>): (r: seq<FindingMatch>) {
    var order := SortIndices(MatchKeys(matches), |matches|);
    seq(|matches|, i requires 0 <= i < |matches| => matches[order[i]])
  }

  function MatchKeys(matches: seq<FindingMatch>): (keys: seq<Key>)
    ensures |keys| == |matches| && OneShape(keys)
  {
    seq(|matches|, i requires 0 <= i < |matches| => [Text(matches[i].expectedId)])
  }

  lemma IdKeyMeans(matches: seq<FindingMatch>, i: nat, j: nat)
    requires i < |matches| && j < |matches|
    ensures SortsBefore(MatchKeys(matches), i, j)
      <==> ComesById(matches[i].expectedId, matches[j].expectedId, i < j)
  {
    KeyHead(Text(matches[i].expectedId), [], Text(matches[j].expectedId), []);
    assert MatchKeys(matches)[i] == [Text(matches[i].expectedId)] + [];
    assert MatchKeys(matches)[j] == [Text(matches[j].expectedId)] + [];
  }

  lemma SortedMatchesListed(expected: seq<ExpectedFinding>, predictions: seq<PredictedFinding>, taken: map<nat, nat>,
                            indices: seq<nat>, matches: seq<FindingMatch>)
    requires MatchesOf(expected, predictions, taken, indices, matches) && |matches| == |indices|
    requires forall u :: u in indices <==> u in taken
    requires forall i, j | 0 <= i < j < |indices| :: indices[i] < indices[j]
    ensures ListsMatches(expected, predictions, taken, SortMatches(matches))
  {
    hide IsMatchOf, ComesById, KeyBefore, SortsBefore, InKeyOrder, SortIndices, OneShape, MatchesOf;
    var keys := MatchKeys(matches);
    var order := SortIndices(keys, |matches|);
    SortIndicesInOrder(keys, |keys|);
    var origins := seq(|matches|, i requires 0 <= i < |matches| => indices[order[i]]);
    forall i, j | 0 <= i < j < |origins|
      ensures ComesById(matches[order[i]].expectedId, matches[order[j]].expectedId, origins[i] < origins[j])
    {
      SortedById(matches, order, i, j);
      assert (order[i] < order[j]) == (indices[order[i]] < indices[order[j]]);
    }
    SameIndices(indices, order, origins);
    MovedMatches(expected, predictions, taken, indices, matches, order, origins);
  }

  lemma MovedMatches(expected: seq<ExpectedFinding>, predictions: seq<PredictedFinding>, taken: map<nat, nat>,
                     indices: seq<nat>, matches: seq<FindingMatch>, order: seq<nat>, origins: seq<nat>)
    requires MatchesOf(expected, predictions, taken, indices, matches)
    requires order == SortIndices(MatchKeys(matches), |matches|) && |origins| == |order|
    requires forall i | 0 <= i < |origins| :: origins[i] == indices[order[i]]
    ensures MatchesOf(expected, predictions, taken, origins, SortMatches(matches))
  {
    hide IsMatchOf, SortIndices;
  }

  lemma SortedById(matches: seq<FindingMatch>, order: seq<nat>, i: nat, j: nat)
    requires i < j < |order| && forall k | 0 <= k < |order| :: order[k] < |matches|
    requires InKeyOrder(MatchKeys(matches), order)
    ensures ComesById(matches[order[i]].expectedId, matches[order[j]].expectedId, order[i] < order[j])
  {
    hide KeyBefore, TextBefore;
    assert SortsBefore(MatchKeys(matches), order[i], order[j]);
    IdKeyMeans(matches, order[i], order[j]);
  }

  lemma SameIndices(indices: seq<nat>, order: seq<nat>, origins: seq<nat>)
    requires IsOrder(order, |indices|) && |origins| == |indices|
    requires forall i | 0 <= i < |origins| :: origins[i] == indices[order[i]]
    ensures forall u :: u in origins <==> u in indices
  {
    forall u | u in indices ensures u in origins {
      var k :| 0 <= k < |indices| && indices[k] == u;
      assert k in order;
      var i :| 0 <= i < |order| && order[i] == k;
      assert origins[i] == u;
    }
  }

  /** Score one case: the counts are those of a maximum matching and the listings agree with it. */
  method ScoreCase(rules: Rules, expected: seq<ExpectedFinding>, predictions: seq<PredictedFinding>)
    returns (r: CaseResult, ghost taken: map<nat, nat>)
    ensures Chosen(rules, expected, predictions, taken)
    ensures r.expectedCount == |expected| && r.predictionCount == |predictions|
    ensures r.truePositives == |taken| == |r.matches| == MatchedCount(r.expectedResults)
    ensures r.truePositives + r.falsePositives == |predictions|
    ensures r.truePositives + r.falseNegatives == |expected|
    ensures |r.expectedResults| == |expected|
    ensures forall u: nat | u < |expected| :: ExpectedRight(expected, predictions, taken, u, r.expectedResults[u])
    ensures |r.predictionResults| == |predictions|
    ensures forall p: nat | p < |predictions| ::
      PredictionRight(expected, predictions, taken, p, r.predictionResults[p])
    ensures ListsMatches(expected, predictions, taken, r.matches)
  {
    hide ServesInOrder, PassesOverNone, ExpectedRight, PredictionRight, ListsMatches, MatchesOf;
    var expectedToPrediction := MaximumMatchingOf(rules, expected, predictions);
    taken := expectedToPrediction;
    TakenInRange(rules, expected, predictions, taken);
    var predictionToExpected := Inverted(expectedToPrediction);
    var expectedResults, matches, indices := ExpectedResults(expected, predictions, expectedToPrediction);
    var predictionResults := PredictionResults(expected, predictions, expectedToPrediction, predictionToExpected);
    var truePositives := |expectedToPrediction|;
    SortedMatchesListed(expected, predictions, taken, indices, matches);
    r := CaseResult(|expected|, |predictions|, truePositives,
                    |predictions| - truePositives, |expected| - truePositives,
                    SortMatches(matches), expectedResults, predictionResults);
  }

  lemma TakenInRange(rules: Rules, expected: seq<ExpectedFinding>, predictions: seq<PredictedFinding>,
                     taken: map<nat, nat>)
    requires Matches(rules, expected, predictions, taken)
    ensures forall u | u in taken :: u < |expected| && taken[u] < |predictions|
    ensures |taken| <= |expected| && |taken| <= |predictions|
  {
    forall u | u in taken ensures u < |expected| && taken[u] < |predictions| {
      assert Pairs(rules, expected, predictions, u, taken[u]);
    }
    RangeCount(taken.Keys, |expected|);
    OwnersCount(taken, taken.Keys);
    RangeCount(Owners(taken, taken.Keys), |predictions|);
  }

  lemma {:induction false} RangeCount(s: set<nat>, n: nat)
    requires forall x | x in s :: x < n
    ensures |s| <= n
  {
    if n > 0 {
      RangeCount(s - {n - 1}, n - 1);
      if n - 1 in s {
        assert s == (s - {n - 1}) + {n - 1};
      } else {
        assert s - {n - 1} == s;
      }
    } else {
      assert s == {};
    }
  }

  /** The taken findings with index below `n`. */
  ghost function Below(taken: map<nat, nat>, n: nat): (part: set<nat>)
    ensures part <= taken.Keys
  {
    set u | u in taken && u < n
  }

  method ExpectedResults(expected: seq<ExpectedFinding>, predictions: seq<PredictedFinding>, taken: map<nat, nat>)
    returns (results: seq<ExpectedResult>, matches: seq<FindingMatch>, ghost indices: seq<nat>)
    requires forall u | u in taken :: u < |expected| && taken[u] < |predictions|
    ensures |results| == |expected| && |matches| == |taken| == MatchedCount(results)
    ensures forall u: nat | u < |expected| :: ExpectedRight(expected, predictions, taken, u, results[u])
    ensures MatchesOf(expected, predictions, taken, indices, matches) && |matches| == |indices|
    ensures forall u :: u in indices <==> u in taken
    ensures forall i, j | 0 <= i < j < |indices| :: indices[i] < indices[j]
  {
    hide ExpectedRight, IsMatchOf, Below, MatchesOf;
    results, matches, indices := [], [], [];
    NoMatches(expected, predictions, taken);
    NothingBelow(taken);
    for u := 0 to |expected|
      invariant |results| == u && |matches| == |Below(taken, u)| == MatchedCount(results)
      invariant forall v: nat | v < u :: ExpectedRight(expected, predictions, taken, v, results[v])
      invariant MatchesOf(expected, predictions, taken, indices, matches) && |matches| == |indices|
      invariant forall v :: v in indices <==> v in taken && v < u
      invariant forall i, j | 0 <= i < j < |indices| :: indices[i] < indices[j]
    {
      ghost var before := results;
      var result := ResultOf(expected, predictions, taken, u);
      OneMoreBelow(taken, u);
      if u in taken {
        var m := MatchOf(expected, predictions, taken, u);
        assert forall i | 0 <= i < |indices| :: indices[i] in indices;
        OneMoreMatch(expected, predictions, taken, indices, matches, u, m);
        matches, indices := matches + [m], indices + [u];
      }
      results := results + [result];
      assert results[..|results| - 1] == before;
    }
    AllBelow(taken, |expected|);
  }

  lemma NoMatches(expected: seq<ExpectedFinding>, predictions: seq<PredictedFinding>, taken: map<nat, nat>)
    ensures MatchesOf(expected, predictions, taken, [], [])
  {
  }

  lemma OneMoreMatch(expected: seq<ExpectedFinding>, predictions: seq<PredictedFinding>, taken: map<nat, nat>,
                     indices: seq<nat>, matches: seq<FindingMatch>, u: nat, m: FindingMatch)
    requires MatchesOf(expected, predictions, taken, indices, matches)
    requires IsMatchOf(m, expected, predictions, taken, u)
    ensures MatchesOf(expected, predictions, taken, indices + [u], matches + [m])
  {
    hide IsMatchOf;
  }

  /** The entry for the match of expected finding `u`. */
  function MatchOf(expected: seq<ExpectedFinding>, predictions: seq<PredictedFinding>, taken: map<nat, nat>,
                   u: nat): (m: FindingMatch)
    requires u in taken && u < |expected| && taken[u] < |predictions|
    ensures IsMatchOf(m, expected, predictions, taken, u)
  {
    var e, p := expected[u], predictions[taken[u]];
    FindingMatch(e.id, taken[u], e.severity, p.severity, e.severity == p.severity)
  }

  /** The listing entry of expected finding `u`. */
  function ResultOf(expected: seq<ExpectedFinding>, predictions: seq<PredictedFinding>, taken: map<nat, nat>,
                    u: nat): (r: ExpectedResult)
    requires u < |expected| && forall v | v in taken :: v < |expected| && taken[v] < |predictions|
    ensures ExpectedRight(expected, predictions, taken, u, r) && (r.matched <==> u in taken)
  {
    if u !in taken then ExpectedResult(expected[u], false, None, None)
    else ExpectedResult(expected[u], true, Some(taken[u]), Some(expected[u].severity == predictions[taken[u]].severity))
  }

  lemma NothingBelow(taken: map<nat, nat>)
    ensures Below(taken, 0) == {}
  {
  }

  lemma OneMoreBelow(taken: map<nat, nat>, u: nat)
    ensures Below(taken, u + 1) == Below(taken, u) + if u in taken then {u} else {}
    ensures |Below(taken, u + 1)| == |Below(taken, u)| + if u in taken then 1 else 0
  {
    if u in taken {
      assert Below(taken, u + 1) == Below(taken, u) + {u};
    } else {
      assert Below(taken, u + 1) == Below(taken, u);
    }
  }

  lemma AllBelow(taken: map<nat, nat>, n: nat)
    requires forall u | u in taken :: u < n
    ensures Below(taken, n) == taken.Keys && |taken.Keys| == |taken|
  {
  }

  method PredictionResults(expected: seq<ExpectedFinding>, predictions: seq<PredictedFinding>,
                           taken: map<nat, nat>, takenBy: map<nat, nat>)
    returns (results: seq<PredictionResult>)
    requires forall u | u in taken :: u < |expected| && taken[u] < |predictions|
    requires OneToOne(taken) && takenBy == Inverted(taken)
    ensures |results| == |predictions|
    ensures forall p: nat | p < |predictions| :: PredictionRight(expected, predictions, taken, p, results[p])
  {
    results := [];
    for p := 0 to |predictions|
      invariant |results| == p
      invariant forall q: nat | q < p :: PredictionRight(expected, predictions, taken, q, results[q])
    {
      hide PredictionRight, Inverted, OneToOne;
      var matched := p in takenBy;
      InvertedAt(taken, takenBy, p);
      var result :=
        PredictionResult(p, predictions[p], matched, if matched then Some(expected[takenBy[p]].id) else None);
      PredictionIsRight(expected, predictions, taken, takenBy, p, result);
      results := results + [result];
    }
  }

  lemma InvertedAt(taken: map<nat, nat>, takenBy: map<nat, nat>, p: nat)
    requires OneToOne(taken) && takenBy == Inverted(taken)
    ensures p in takenBy <==> exists u :: u in taken && taken[u] == p
    ensures p in takenBy ==> takenBy[p] in taken && taken[takenBy[p]] == p
    ensures forall u | u in taken && taken[u] == p :: p in takenBy && takenBy[p] == u
  {
    if p in takenBy {
      var u :| u in taken && taken[u] == p;
      assert takenBy[p] == u;
    }
  }

  lemma PredictionIsRight(expected: seq<ExpectedFinding>, predictions: seq<PredictedFinding>,
                          taken: map<nat, nat>, takenBy: map<nat, nat>, p: nat, r: PredictionResult)
    requires p < |predictions| && forall u | u in taken :: u < |expected|
    requires p in takenBy ==> takenBy[p] in taken && taken[takenBy[p]] == p
    requires forall u | u in taken && taken[u] == p :: p in takenBy && takenBy[p] == u
    requires r
      == PredictionResult(p, predictions[p], p in takenBy, if p in takenBy then Some(expected[takenBy[p]].id) else None)
    ensures PredictionRight(expected, predictions, taken, p, r)
  {
  }
}
