/** The efficiency frontier of an experiment: the systems that no other system dominates. */
module Frontier {
  import opened Wrappers

  datatype Point = Point(systemId: string, f1: real, falsePositives: real, latency: real, tokens: real, cost: real)

  datatype Means = Means(f1: Option<real>, falsePositives: Option<real>, latency: Option<real>, tokens: Option<real>,
                         cost: Option<real>)

  datatype SystemResult = SystemResult(
    systemId: string, budgetEligible: bool, means: Means, caseTrialRate: real, sourceOutputRate: real)

  predicate Dominates(left: Point, right: Point) {
    && left.f1 >= right.f1 && left.falsePositives <= right.falsePositives && left.latency <= right.latency
    && left.tokens <= right.tokens && left.cost <= right.cost
    && (left.f1 > right.f1 || left.falsePositives < right.falsePositives || left.latency < right.latency
        || left.tokens < right.tokens || left.cost < right.cost)
  }

  /** A system that competes: within budget, complete, and with every mean measured. */
  predicate Competes(system: SystemResult) {
    && system.budgetEligible
    && system.means.f1.Some? && system.means.falsePositives.Some? && system.means.latency.Some?
    && system.means.tokens.Some? && system.means.cost.Some?
    && system.caseTrialRate >= 1.0 && system.sourceOutputRate >= 1.0
  }

  function PointOf(system: SystemResult): Point
    requires Competes(system)
  {
    Point(system.systemId, system.means.f1.value, system.means.falsePositives.value, system.means.latency.value,
          system.means.tokens.value, system.means.cost.value)
  }

  ghost predicate DistinctIds(systems: seq<SystemResult>) {
    forall i, j | 0 <= i < j < |systems| :: systems[i].systemId != systems[j].systemId
  }

  // ----- What the frontier is about -----

  /** The system is within budget and complete, and these are its name and all of its means. */
  ghost predicate ShownBy(s: SystemResult, p: Point) {
    && s.budgetEligible && s.caseTrialRate >= 1.0 && s.sourceOutputRate >= 1.0 && s.systemId == p.systemId
    && s.means == Means(Some(p.f1), Some(p.falsePositives), Some(p.latency), Some(p.tokens), Some(p.cost))
  }

  lemma ShownMeans(s: SystemResult, p: Point)
    ensures ShownBy(s, p) <==> Competes(s) && PointOf(s) == p
  {
  }

  /** The means of a point, each counted so that more is better. */
  function Merits(p: Point): seq<real> {
    [p.f1, -p.falsePositives, -p.latency, -p.tokens, -p.cost]
  }

  /** One point is at least as good in every mean as another one, and not equal to it in all. */
  ghost predicate Better(p: Point, q: Point) {
    (forall i | 0 <= i < 5 :: Merits(p)[i] >= Merits(q)[i]) && exists i | 0 <= i < 5 :: Merits(p)[i] != Merits(q)[i]
  }

  lemma BetterMeans(p: Point, q: Point)
    ensures Better(p, q) <==> Dominates(p, q)
  {
    var a, b := Merits(p), Merits(q);
    assert a[0] == p.f1 && a[1] == -p.falsePositives && a[2] == -p.latency && a[3] == -p.tokens && a[4] == -p.cost;
    assert b[0] == q.f1 && b[1] == -q.falsePositives && b[2] == -q.latency && b[3] == -q.tokens && b[4] == -q.cost;
  }

  /** The points of the competing systems. */
  ghost predicate Candidate(systems: seq<SystemResult>, p: Point) {
    exists s :: s in systems && ShownBy(s, p)
  }

  lemma OnePointPerId(systems: seq<SystemResult>, p: Point, q: Point)
    requires DistinctIds(systems) && Candidate(systems, p) && Candidate(systems, q) && p.systemId == q.systemId
    ensures p == q
  {
    var s :| s in systems && ShownBy(s, p);
    var t :| t in systems && ShownBy(t, q);
    var i :| 0 <= i < |systems| && systems[i] == s;
    var j :| 0 <= j < |systems| && systems[j] == t;
    assert i == j;
  }

  ghost predicate DistinctPoints(points: seq<Point>) {
    forall i, j | 0 <= i < j < |points| :: points[i].systemId != points[j].systemId
  }

  /** One system is listed before another. */
  ghost predicate Earlier(systems: seq<SystemResult>, first: string, second: string) {
    exists a, b | 0 <= a < b < |systems| :: systems[a].systemId == first && systems[b].systemId == second
  }

  ghost predicate InSystemOrder(systems: seq<SystemResult>, points: seq<Point>) {
    forall i, j | 0 <= i < j < |points| :: Earlier(systems, points[i].systemId, points[j].systemId)
  }

  predicate Beaten(points: seq<Point>, p: Point) {
    exists k | 0 <= k < |points| :: points[k].systemId != p.systemId && Dominates(points[k], p)
  }

  lemma ListedEarlier(systems: seq<SystemResult>, i: nat, s: SystemResult)
    requires i < |systems| && s in systems[..i]
    ensures Earlier(systems, s.systemId, systems[i].systemId)
  {
    var a :| 0 <= a < i && systems[..i][a] == s;
    assert systems[a].systemId == s.systemId;
  }

  lemma CandidateOneMore(systems: seq<SystemResult>, s: SystemResult)
    ensures forall p :: Candidate(systems + [s], p) <==> Candidate(systems, p) || (Competes(s) && p == PointOf(s))
  {
    hide ShownBy;
    var more := systems + [s];
    forall p ensures Candidate(more, p) <==> Candidate(systems, p) || (Competes(s) && p == PointOf(s)) {
      ShownMeans(s, p);
      if Candidate(more, p) {
        var x :| x in more && ShownBy(x, p);
        assert x in systems || x == s;
      }
      assert s in more;
    }
  }

  method EfficiencyFrontier(systems: seq<SystemResult>) returns (frontier: seq<Point>)
    requires DistinctIds(systems)
    ensures forall p :: p in frontier <==>
      Candidate(systems, p) && !exists q :: Candidate(systems, q) && Better(q, p)
    ensures DistinctPoints(frontier) && InSystemOrder(systems, frontier)
  {
    hide Earlier, Better;
    var points: seq<Point> := [];
    for i := 0 to |systems|
      invariant forall p :: p in points <==> Candidate(systems[..i], p)
      invariant DistinctPoints(points) && InSystemOrder(systems, points)
    {
      assert systems[..i + 1] == systems[..i] + [systems[i]];
      CandidateOneMore(systems[..i], systems[i]);
      if Competes(systems[i]) {
        forall p | p in points
          ensures p.systemId != systems[i].systemId && Earlier(systems, p.systemId, systems[i].systemId)
        {
          var s :| s in systems[..i] && ShownBy(s, p);
          ListedEarlier(systems, i, s);
        }
        points := points + [PointOf(systems[i])];
      }
    }
    assert systems[..|systems|] == systems;
    frontier := [];
    for k := 0 to |points|
      invariant forall p :: p in frontier <==> p in points[..k] && !Beaten(points, p)
      invariant DistinctPoints(frontier) && InSystemOrder(systems, frontier)
    {
      forall p | p in points[..k]
        ensures p.systemId != points[k].systemId && Earlier(systems, p.systemId, points[k].systemId)
      {
        var j :| 0 <= j < k && points[j] == p;
      }
      if !Beaten(points, points[k]) {
        frontier := frontier + [points[k]];
      }
    }
    assert points[..|points|] == points;
    forall p | p in points ensures Beaten(points, p) <==> exists q :: Candidate(systems, q) && Better(q, p) {
      if exists q :: Candidate(systems, q) && Better(q, p) {
        var q :| Candidate(systems, q) && Better(q, p);
        BetterMeans(q, p);
        assert q in points;
        if q.systemId == p.systemId {
          OnePointPerId(systems, p, q);
        }
      }
      if Beaten(points, p) {
        var k :| 0 <= k < |points| && points[k].systemId != p.systemId && Dominates(points[k], p);
        BetterMeans(points[k], p);
        assert points[k] in points;
      }
    }
  }

  ghost function Dominators(points: set<Point>, p: Point): set<Point> {
    set q | q in points && Better(q, p)
  }

  lemma SmallerSet(a: set<Point>, b: set<Point>)
    requires a < b
    ensures |a| < |b|
  {
    var x :| x in b && x !in a;
    assert b == a + (b - a) && x in b - a;
    assert |b| == |a| + |b - a|;
  }

  /** A dominated point is dominated by one that nothing dominates. */
  lemma {:induction false} UndominatedDominator(points: set<Point>, p: Point) returns (best: Point)
    requires Dominators(points, p) != {}
    ensures best in points && Better(best, p) && Dominators(points, best) == {}
    decreases |Dominators(points, p)|
  {
    var q :| q in Dominators(points, p);
    if Dominators(points, q) == {} {
      best := q;
    } else {
      assert Dominators(points, q) < Dominators(points, p);
      SmallerSet(Dominators(points, q), Dominators(points, p));
      best := UndominatedDominator(points, q);
    }
  }

  /** Main result: every competing system left out is dominated by one on the frontier. */
  lemma LeftOutIsDominated(systems: seq<SystemResult>, frontier: seq<Point>, p: Point)
    requires forall q :: q in frontier <==>
      Candidate(systems, q) && !exists r :: Candidate(systems, r) && Better(r, q)
    requires Candidate(systems, p)
    ensures p in frontier <==> !exists best :: best in frontier && Better(best, p)
  {
    if p !in frontier {
      var points := set s | s in systems && Competes(s) :: PointOf(s);
      forall q ensures q in points <==> Candidate(systems, q) {
        if Candidate(systems, q) {
          var s :| s in systems && ShownBy(s, q);
          ShownMeans(s, q);
        }
      }
      var r :| Candidate(systems, r) && Better(r, p);
      assert r in Dominators(points, p);
      var best := UndominatedDominator(points, p);
      forall q | Candidate(systems, q) ensures !Better(q, best) {
        assert q !in Dominators(points, best);
      }
      assert best in frontier;
    }
  }
}
