/** What the score of a case does not depend on, and what it means for a validated case. */
module ScoringLaws {
  import opened Matching
  import opened ReviewBenchmark

  /** `f` sends the positions of `a` one to one to positions of `b` with the same content. */
  ghost predicate Relabels<T>(a: seq<T>, b: seq<T>, f: seq<nat>) {
    && |f| == |a|
    && (forall i | 0 <= i < |a| :: f[i] < |b| && b[f[i]] == a[i])
    && (forall i, j | 0 <= i < j < |a| :: f[i] != f[j])
  }

  function Without<T>(b: seq<T>, j: nat): seq<T>
    requires j < |b|
  {
    b[..j] + b[j + 1..]
  }

  lemma WithoutCount<T>(b: seq<T>, j: nat)
    requires j < |b|
    ensures multiset(Without(b, j)) == multiset(b) - multiset{b[j]}
  {
    assert b == b[..j] + ([b[j]] + b[j + 1..]);
  }

  /** Where a position of `Without(b, j)` lies in `b`. */
  function Past(i: nat, j: nat): nat {
    if i < j then i else i + 1
  }

  /** Two listings of the same multiset can be relabelled into each other. */
  lemma {:induction false} ListingsRelabel<T>(a: seq<T>, b: seq<T>) returns (f: seq<nat>)
    requires multiset(a) == multiset(b)
    ensures Relabels(a, b, f)
    decreases |a|
  {
    hide Relabels;
    if a == [] {
      f := [];
      NothingRelabels(a, b);
    } else {
      var init, last := a[..|a| - 1], a[|a| - 1];
      assert a == init + [last];
      assert last in multiset(b);
      var j :| 0 <= j < |b| && b[j] == last;
      WithoutCount(b, j);
      var g := ListingsRelabel(init, Without(b, j));
      f := RelabelOneMore(init, last, b, j, g);
    }
  }

  lemma NothingRelabels<T>(a: seq<T>, b: seq<T>)
    requires a == []
    ensures Relabels(a, b, [])
  {
  }

  lemma RelabelOneMore<T>(init: seq<T>, last: T, b: seq<T>, j: nat, g: seq<nat>) returns (f: seq<nat>)
    requires j < |b| && b[j] == last && Relabels(init, Without(b, j), g)
    ensures Relabels(init + [last], b, f)
  {
    f := seq(|g|, i requires 0 <= i < |g| => Past(g[i], j)) + [j];
    forall i | 0 <= i < |init| ensures f[i] < |b| && b[f[i]] == init[i] && f[i] != j {
      assert Without(b, j)[g[i]] == init[i];
    }
  }

  /** A matching carries over to relabelled findings and predictions, with the same size. */
  lemma RelabelledPair(rules: Rules, expected: seq<ExpectedFinding>, predictions: seq<PredictedFinding>,
                       expected': seq<ExpectedFinding>, predictions': seq<PredictedFinding>,
                       f: seq<nat>, g: seq<nat>, u: nat, p: nat)
    requires Relabels(expected, expected', f) && Relabels(predictions, predictions', g)
    requires Pairs(rules, expected, predictions, u, p)
    ensures Pairs(rules, expected', predictions', f[u], g[p])
  {
  }

  lemma CarryOver(rules: Rules, expected: seq<ExpectedFinding>, predictions: seq<PredictedFinding>,
                  expected': seq<ExpectedFinding>, predictions': seq<PredictedFinding>,
                  f: seq<nat>, g: seq<nat>, taken: map<nat, nat>)
    returns (taken': map<nat, nat>)
    requires Relabels(expected, expected', f) && Relabels(predictions, predictions', g)
    requires Matches(rules, expected, predictions, taken)
    ensures Matches(rules, expected', predictions', taken') && |taken'| == |taken|
  {
    hide Pairs;
    TakenInRange(rules, expected, predictions, taken);
    var origin := Origins(expected, expected', f, taken);
    taken' := map v | v in origin :: g[taken[origin[v]]];
    assert taken'.Keys == origin.Keys;
    forall v | v in taken' ensures Pairs(rules, expected', predictions', v, taken'[v]) {
      RelabelledPair(rules, expected, predictions, expected', predictions', f, g, origin[v], taken[origin[v]]);
    }
    forall v, w | v in taken' && w in taken' && taken'[v] == taken'[w] ensures v == w {
      assert taken[origin[v]] == taken[origin[w]];
    }
  }

  /** Where each relabelled finding that is taken came from. */
  lemma Origins<T>(a: seq<T>, b: seq<T>, f: seq<nat>, taken: map<nat, nat>) returns (origin: map<nat, nat>)
    requires Relabels(a, b, f) && forall u | u in taken :: u < |a|
    ensures |origin| == |taken|
    ensures forall v | v in origin :: origin[v] in taken && f[origin[v]] == v
  {
    var renamed := map u | u in taken :: f[u];
    assert renamed.Keys == taken.Keys;
    origin := Inverted(renamed);
    forall v | v in origin ensures origin[v] in taken && f[origin[v]] == v {
      var u :| u in renamed && renamed[u] == v;
    }
  }

  lemma AtMost(rules: Rules, expected: seq<ExpectedFinding>, predictions: seq<PredictedFinding>,
               expected': seq<ExpectedFinding>, predictions': seq<PredictedFinding>,
               taken: map<nat, nat>, taken': map<nat, nat>)
    requires multiset(expected) == multiset(expected') && multiset(predictions) == multiset(predictions')
    requires Matches(rules, expected, predictions, taken) && MatchesMost(rules, expected', predictions', taken')
    ensures |taken| <= |taken'|
  {
    var f := ListingsRelabel(expected, expected');
    var g := ListingsRelabel(predictions, predictions');
    var carried := CarryOver(rules, expected, predictions, expected', predictions', f, g, taken);
  }

  /** Main result: reordering findings or predictions never changes how many true positives are counted. */
  lemma TruePositivesIgnoreOrder(rules: Rules, expected: seq<ExpectedFinding>, predictions: seq<PredictedFinding>,
                                 expected': seq<ExpectedFinding>, predictions': seq<PredictedFinding>,
                                 taken: map<nat, nat>, taken': map<nat, nat>)
    requires multiset(expected) == multiset(expected') && multiset(predictions) == multiset(predictions')
    requires MatchesMost(rules, expected, predictions, taken) && MatchesMost(rules, expected', predictions', taken')
    ensures |taken| == |taken'|
  {
    AtMost(rules, expected, predictions, expected', predictions', taken, taken');
    AtMost(rules, expected', predictions', expected, predictions, taken', taken);
  }

  // ----- Validated cases -----

  predicate Overlap(rules: Rules, a: ExpectedFinding, b: ExpectedFinding) {
    && rules.normalize(a.file) == rules.normalize(b.file)
    && a.category == b.category
    && a.lineStart <= b.lineEnd
    && b.lineStart <= a.lineEnd
  }

  /** Two findings share a line of one file in one category. */
  ghost predicate ShareLine(rules: Rules, a: ExpectedFinding, b: ExpectedFinding) {
    && rules.normalize(a.file) == rules.normalize(b.file) && a.category == b.category
    && exists line :: Covers(a, line) && Covers(b, line)
  }

  ghost predicate Covers(f: ExpectedFinding, line: int) {
    f.lineStart <= line <= f.lineEnd
  }

  lemma OverlapMeans(rules: Rules, a: ExpectedFinding, b: ExpectedFinding)
    requires a.lineStart <= a.lineEnd && b.lineStart <= b.lineEnd
    ensures Overlap(rules, a, b) <==> ShareLine(rules, a, b)
  {
    var line := if a.lineStart <= b.lineStart then b.lineStart else a.lineStart;
    assert Overlap(rules, a, b) ==> Covers(a, line) && Covers(b, line);
  }

  datatype CaseCheck = Accepted | DuplicateIds | Ambiguous(first: nat, second: nat)

  ghost predicate Unambiguous(rules: Rules, findings: seq<ExpectedFinding>) {
    forall i, j | 0 <= i < j < |findings| :: !ShareLine(rules, findings[i], findings[j])
  }

  /** Before a pair of findings, in the order in which pairs are checked, none shares a line. */
  ghost predicate ClearBefore(rules: Rules, findings: seq<ExpectedFinding>, first: nat, second: nat) {
    forall i, j | 0 <= i < j < |findings| && (i < first || (i == first && j < second)) ::
      !ShareLine(rules, findings[i], findings[j])
  }

  /** The validator of a benchmark case, whose findings cover at least one line each. */
  method ValidateFindings(rules: Rules, findings: seq<ExpectedFinding>) returns (check: CaseCheck)
    requires forall i | 0 <= i < |findings| :: findings[i].lineStart <= findings[i].lineEnd
    ensures check.DuplicateIds? <==> exists i, j | 0 <= i < j < |findings| :: findings[i].id == findings[j].id
    ensures check.Accepted? ==> Unambiguous(rules, findings)
    ensures check.Ambiguous? ==>
      && check.first < check.second < |findings|
      && ShareLine(rules, findings[check.first], findings[check.second])
      && ClearBefore(rules, findings, check.first, check.second)
  {
    hide Overlap, ShareLine;
    for index := 0 to |findings|
      invariant forall i, j | 0 <= i < index && i < j < |findings| :: findings[i].id != findings[j].id
    {
      for other := index + 1 to |findings|
        invariant forall j | index < j < other :: findings[index].id != findings[j].id
      {
        if findings[index].id == findings[other].id {
          return DuplicateIds;
        }
      }
    }
    for index := 0 to |findings|
      invariant ClearBefore(rules, findings, index, index)
    {
      for other := index + 1 to |findings|
        invariant ClearBefore(rules, findings, index, other)
      {
        OverlapMeans(rules, findings[index], findings[other]);
        if Overlap(rules, findings[index], findings[other]) {
          return Ambiguous(index, other);
        }
      }
    }
    return Accepted;
  }

  /** In a validated case a prediction is a candidate for one expected finding at most. */
  lemma OneFindingPerPrediction(rules: Rules, expected: seq<ExpectedFinding>, predictions: seq<PredictedFinding>,
                                u: nat, v: nat, p: nat)
    requires Unambiguous(rules, expected)
    requires Pairs(rules, expected, predictions, u, p) && Pairs(rules, expected, predictions, v, p)
    ensures u == v
  {
    if u != v {
      var line := predictions[p].line.value;
      assert Covers(expected[u], line) && Covers(expected[v], line);
      assert ShareLine(rules, expected[u], expected[v]) && ShareLine(rules, expected[v], expected[u]);
    }
  }

  ghost predicate IsHit(rules: Rules, expected: seq<ExpectedFinding>, predictions: seq<PredictedFinding>, u: nat) {
    exists p :: Pairs(rules, expected, predictions, u, p)
  }

  /** Expected findings that some prediction hits. */
  ghost function Hit(rules: Rules, expected: seq<ExpectedFinding>, predictions: seq<PredictedFinding>): set<nat> {
    set u | 0 <= u < |expected| && IsHit(rules, expected, predictions, u)
  }

  /** In a validated case the matching serves exactly the expected findings that some prediction hits. */
  lemma ValidatedCaseCountsHits(rules: Rules, expected: seq<ExpectedFinding>, predictions: seq<PredictedFinding>,
                                taken: map<nat, nat>)
    requires Unambiguous(rules, expected) && MatchesMost(rules, expected, predictions, taken)
    ensures taken.Keys == Hit(rules, expected, predictions)
  {
    hide Hits, Unambiguous;
    var hit := Hit(rules, expected, predictions);
    forall u | u in taken ensures u in hit {
      assert Pairs(rules, expected, predictions, u, taken[u]);
    }
    var all := map u | u in hit :: FirstHitOf(rules, expected, predictions, u);
    forall u, v | u in all && v in all && all[u] == all[v] ensures u == v {
      OneFindingPerPrediction(rules, expected, predictions, u, v, all[u]);
    }
    assert Matches(rules, expected, predictions, all);
    assert all.Keys == hit;
    assert |hit| == |all| <= |taken.Keys|;
    SubsetOfSameSize(taken.Keys, hit);
  }

  ghost function FirstHitOf(rules: Rules, expected: seq<ExpectedFinding>, predictions: seq<PredictedFinding>,
                            u: nat): (p: nat)
    requires u in Hit(rules, expected, predictions)
    ensures Pairs(rules, expected, predictions, u, p)
  {
    var p :| Pairs(rules, expected, predictions, u, p); p
  }

  lemma SubsetOfSameSize(a: set<nat>, b: set<nat>)
    requires a <= b && |b| <= |a|
    ensures a == b
  {
    assert b == a + (b - a);
    assert |b| == |a| + |b - a|;
  }
}
