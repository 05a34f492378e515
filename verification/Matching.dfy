/** Maximum bipartite matching by augmenting paths over a mutable owner map. */
module Matching {

  /** `adjacency[u]` lists the predictions that expected finding `u` may take. */
  type Adjacency = seq<seq<nat>>

  /** Owners of predictions: an edge for each, and no expected finding twice. */
  ghost predicate IsMatching(adjacency: Adjacency, owner: map<nat, nat>) {
    && (forall p | p in owner :: Edge(adjacency, owner[p], p))
    && OneToOne(owner)
  }

  ghost predicate OneToOne(owner: map<nat, nat>) {
    forall p, q | p in owner && q in owner && owner[p] == owner[q] :: p == q
  }

  ghost predicate Edge(adjacency: Adjacency, u: nat, p: nat) {
    u < |adjacency| && p in adjacency[u]
  }

  ghost predicate IsMaximumMatching(adjacency: Adjacency, owner: map<nat, nat>) {
    && IsMatching(adjacency, owner)
    && forall other | IsMatching(adjacency, other) :: |other| <= |owner|
  }

  /** A dead end: expected findings whose every candidate is owned by another of them. */
  ghost predicate DeadEnd(adjacency: Adjacency, owner: map<nat, nat>, lefts: set<nat>, rights: set<nat>) {
    && (forall u, p | u in lefts && Edge(adjacency, u, p) :: p in rights)
    && (forall p | p in rights :: p in owner && owner[p] in lefts)
  }

  ghost predicate SameOn(before: map<nat, nat>, after: map<nat, nat>, keys: set<nat>) {
    forall p | p in keys :: (p in before <==> p in after) && (p in before ==> after[p] == before[p])
  }

  /** Expected findings that own a prediction outside `seen`. */
  ghost function OwnersOutside(owner: map<nat, nat>, seen: set<nat>): set<nat> {
    set p | p in owner && p !in seen :: owner[p]
  }

  /** An augmenting path gave `x` a prediction outside `seen`, took one new prediction and left `seen` alone. */
  ghost predicate Augmented(adjacency: Adjacency, before: map<nat, nat>, after: map<nat, nat>, x: nat, seen: set<nat>) {
    && (exists q :: q !in before && after.Keys == before.Keys + {q})
    && SameOn(before, after, seen)
    && (forall p | p in after :: Edge(adjacency, after[p], p))
    && (forall p, q | p in after && q in after && p !in seen && q !in seen && after[p] == after[q] :: p == q)
    && OwnersOutside(after, seen) == OwnersOutside(before, seen) + {x}
  }

  lemma TakeFree(adjacency: Adjacency, owner: map<nat, nat>, x: nat, p: nat, seen: set<nat>)
    requires IsMatching(adjacency, owner) && Edge(adjacency, x, p)
    requires forall q | q in owner && owner[q] == x :: q in seen
    requires p !in owner && p !in seen
    ensures Augmented(adjacency, owner, owner[p := x], x, seen)
  {
    var after := owner[p := x];
    assert after.Keys == owner.Keys + {p};
    assert p in after && after[p] == x;
    forall u | u in OwnersOutside(owner, seen) + {x} ensures u in OwnersOutside(after, seen) {
      if u != x {
        var q :| q in owner && q !in seen && owner[q] == u;
        assert q in after && after[q] == u;
      }
    }
  }

  lemma KeysGrow(adjacency: Adjacency, before: map<nat, nat>, after: map<nat, nat>, x: nat, seen: set<nat>)
    requires Augmented(adjacency, before, after, x, seen)
    ensures before.Keys <= after.Keys
  {
  }

  /** Moving the owner `y` of `p` elsewhere lets `x` take `p`. */
  lemma TakeOver(adjacency: Adjacency, before: map<nat, nat>, moved: map<nat, nat>, x: nat, p: nat,
                 seen: set<nat>, tried: set<nat>)
    requires IsMatching(adjacency, before) && Edge(adjacency, x, p)
    requires forall q | q in before && before[q] == x :: q in seen
    requires seen <= tried && p !in tried && p in before
    requires Augmented(adjacency, before, moved, before[p], tried + {p})
    ensures Augmented(adjacency, before, moved[p := x], x, seen)
  {
    var after := moved[p := x];
    assert p in tried + {p} && moved[p] == before[p] && after.Keys == moved.Keys;
    forall q | q in after && q !in seen && q != p ensures after[q] == moved[q] != x {
      MovedOwner(adjacency, before, moved, x, p, seen, tried, q);
    }
    forall a, b | a in after && b in after && a !in seen && b !in seen && after[a] == after[b] ensures a == b {
      if a != p && b != p {
        MovedOwnersDiffer(adjacency, before, moved, x, p, seen, tried, a, b);
      }
    }
    OwnersAfterTakeOver(before, moved, x, p, seen, tried);
  }

  /** Where the inner search left prediction `q`. */
  lemma MovedOwner(adjacency: Adjacency, before: map<nat, nat>, moved: map<nat, nat>, x: nat, p: nat,
                   seen: set<nat>, tried: set<nat>, q: nat)
    requires IsMatching(adjacency, before) && seen <= tried && p !in tried && p in before
    requires forall c | c in before && before[c] == x :: c in seen
    requires Augmented(adjacency, before, moved, before[p], tried + {p})
    requires q in moved && q !in seen && q != p
    ensures moved[q] != x
    ensures q in tried ==> q in before && moved[q] == before[q] != before[p]
    ensures q !in tried ==>
      moved[q] == before[p] || exists c :: c in before && c !in tried + {p} && before[c] == moved[q]
  {
    if q !in tried {
      assert moved[q] in OwnersOutside(moved, tried + {p});
    }
  }

  lemma MovedOwnersDiffer(adjacency: Adjacency, before: map<nat, nat>, moved: map<nat, nat>, x: nat, p: nat,
                          seen: set<nat>, tried: set<nat>, a: nat, b: nat)
    requires IsMatching(adjacency, before) && seen <= tried && p !in tried && p in before
    requires forall c | c in before && before[c] == x :: c in seen
    requires Augmented(adjacency, before, moved, before[p], tried + {p})
    requires a in moved && a !in seen && a != p && b in moved && b !in seen && b != p && moved[a] == moved[b]
    ensures a == b
  {
    MovedOwner(adjacency, before, moved, x, p, seen, tried, a);
    MovedOwner(adjacency, before, moved, x, p, seen, tried, b);
  }

  lemma OwnersAfterTakeOver(before: map<nat, nat>, moved: map<nat, nat>, x: nat, p: nat, seen: set<nat>,
                            tried: set<nat>)
    requires seen <= tried && p !in tried && p in before && p in moved
    requires SameOn(before, moved, tried + {p})
    requires OwnersOutside(moved, tried + {p}) == OwnersOutside(before, tried + {p}) + {before[p]}
    ensures OwnersOutside(moved[p := x], seen) == OwnersOutside(before, seen) + {x}
  {
    var y, after, inner := before[p], moved[p := x], tried + {p};
    forall u | u in OwnersOutside(after, seen) ensures u in OwnersOutside(before, seen) + {x} {
      var q :| q in after && q !in seen && after[q] == u;
      if q != p && q !in tried {
        assert u in OwnersOutside(moved, inner);
        if u == y {
          assert y in OwnersOutside(before, seen);
        } else {
          var c :| c in before && c !in inner && before[c] == u;
        }
      }
    }
    forall u | u in OwnersOutside(before, seen) + {x} ensures u in OwnersOutside(after, seen) {
      if u == x {
        assert p in after && after[p] == x;
      } else {
        var q :| q in before && q !in seen && before[q] == u;
        if q in tried {
          assert q in after && after[q] == u;
        } else {
          assert u in OwnersOutside(before, inner) + {y};
          var c :| c in moved && c !in inner && moved[c] == u;
          assert c in after && after[c] == u;
        }
      }
    }
  }

  lemma OwnerIsElsewhere(adjacency: Adjacency, owner: map<nat, nat>, p: nat, x: nat, seen: set<nat>)
    requires IsMatching(adjacency, owner) && p in owner
    ensures owner[p] < |adjacency|
    ensures forall q | q in owner && owner[q] == owner[p] :: q == p
  {
  }

  /** No finding passes over an unused prediction on its list for a later one. */
  ghost predicate NoneSkipped(adjacency: Adjacency, owner: map<nat, nat>) {
    forall p | p in owner :: TakesFirst(adjacency, owner, owner[p], p)
  }

  ghost predicate TakesFirst(adjacency: Adjacency, owner: map<nat, nat>, u: nat, p: nat) {
    && u < |adjacency|
    && exists i :: 0 <= i < |adjacency[u]| && adjacency[u][i] == p && forall j | 0 <= j < i :: adjacency[u][j] in owner
  }

  lemma TakenSkipsNone(adjacency: Adjacency, owner: map<nat, nat>, x: nat, p: nat, i: nat)
    requires x < |adjacency| && i < |adjacency[x]| && adjacency[x][i] == p
    requires NoneSkipped(adjacency, owner) && forall j | 0 <= j < i :: adjacency[x][j] in owner
    ensures NoneSkipped(adjacency, owner[p := x])
  {
    var after := owner[p := x];
    forall q | q in after ensures TakesFirst(adjacency, after, after[q], q) {
      if q == p {
        assert adjacency[x][i] == p;
      } else {
        assert TakesFirst(adjacency, owner, owner[q], q);
      }
    }
  }

  class Matcher {
    const adjacency: Adjacency
    ghost const predictions: set<nat>
    var predictionToExpected: map<nat, nat>
    var seenPredictions: set<nat>

    ghost predicate Valid()
      reads this
    {
      && IsMatching(adjacency, predictionToExpected)
      && (forall u, p | Edge(adjacency, u, p) :: p in predictions)
      && seenPredictions <= predictions
      && NoneSkipped(adjacency, predictionToExpected)
    }

    constructor (adjacency: Adjacency)
      ensures Valid() && this.adjacency == adjacency && predictionToExpected == map[] && seenPredictions == {}
    {
      this.adjacency := adjacency;
      predictions := set u, i | 0 <= u < |adjacency| && 0 <= i < |adjacency[u]| :: adjacency[u][i];
      predictionToExpected := map[];
      seenPredictions := {};
    }

    /** Search an augmenting path from `x` that avoids the predictions already seen. */
    method Augment(x: nat, ghost lefts: set<nat>, ghost rights: set<nat>) returns (found: bool)
      requires Valid() && x < |adjacency|
      requires forall q | q in predictionToExpected && predictionToExpected[q] == x :: q in seenPredictions
      requires DeadEnd(adjacency, predictionToExpected, lefts, rights)
      requires seenPredictions <= predictionToExpected.Keys
      modifies this
      decreases predictions - seenPredictions
      ensures seenPredictions <= predictions && old(seenPredictions) <= seenPredictions
      ensures found ==> Augmented(adjacency, old(predictionToExpected), predictionToExpected, x, old(seenPredictions))
      ensures NoneSkipped(adjacency, predictionToExpected)
      ensures !found ==> seenPredictions <= predictionToExpected.Keys
      ensures found ==> x !in lefts && SameOn(old(predictionToExpected), predictionToExpected, rights)
      ensures !found ==> predictionToExpected == old(predictionToExpected)
      ensures !found ==> forall p | Edge(adjacency, x, p) :: p in seenPredictions
      ensures !found ==> Exhausted(old(seenPredictions))
    {
      hide Augmented, IsMatching, NoneSkipped;
      var candidates := adjacency[x];
      for i := 0 to |candidates|
        invariant seenPredictions <= predictions && old(seenPredictions) <= seenPredictions
        invariant predictionToExpected == old(predictionToExpected)
        invariant seenPredictions <= predictionToExpected.Keys
        invariant forall j | 0 <= j < i :: candidates[j] in seenPredictions
        invariant Exhausted(old(seenPredictions))
      {
        var p := candidates[i];
        if p in seenPredictions {
          continue;
        }
        assert Edge(adjacency, x, p);
        ghost var tried := seenPredictions;
        seenPredictions := seenPredictions + {p};
        if p !in predictionToExpected {
          TakeFree(adjacency, predictionToExpected, x, p, old(seenPredictions));
          TakenSkipsNone(adjacency, predictionToExpected, x, p, i);
          predictionToExpected := predictionToExpected[p := x];
          return true;
        }
        OwnerIsElsewhere(adjacency, predictionToExpected, p, x, old(seenPredictions));
        var moved := Augment(predictionToExpected[p], lefts, rights);
        if moved {
          TakeOver(adjacency, old(predictionToExpected), predictionToExpected, x, p, old(seenPredictions), tried);
          KeysGrow(adjacency, old(predictionToExpected), predictionToExpected, old(predictionToExpected)[p],
                   tried + {p});
          TakenSkipsNone(adjacency, predictionToExpected, x, p, i);
          predictionToExpected := predictionToExpected[p := x];
          return true;
        }
      }
      return false;
    }

    /** Every prediction seen since `before` is owned, and its owner's candidates were all seen too. */
    ghost predicate Exhausted(before: set<nat>)
      reads this
    {
      forall p | p in seenPredictions && p !in before ::
        p in predictionToExpected && forall q | Edge(adjacency, predictionToExpected[p], q) :: q in seenPredictions
    }
  }

  ghost function Owners(owner: map<nat, nat>, keys: set<nat>): set<nat>
    requires keys <= owner.Keys
  {
    set p | p in keys :: owner[p]
  }

  /** Distinct predictions have distinct owners, so they can be counted by their owners. */
  lemma {:induction false} OwnersCount(owner: map<nat, nat>, keys: set<nat>)
    requires OneToOne(owner) && keys <= owner.Keys
    ensures |Owners(owner, keys)| == |keys|
    decreases |keys|
  {
    if keys == {} {
      assert Owners(owner, keys) == {};
    } else {
      var p :| p in keys;
      OwnersCount(owner, keys - {p});
      assert owner[p] !in Owners(owner, keys - {p});
      assert Owners(owner, keys) == Owners(owner, keys - {p}) + {owner[p]};
    }
  }

  lemma {:induction false} SubsetCount<T>(a: set<T>, b: set<T>)
    requires a <= b
    ensures |a| <= |b|
  {
    if a != {} {
      var x :| x in a;
      SubsetCount(a - {x}, b - {x});
    }
  }

  /** No matching is larger than the cover: the dead-end predictions and the live expected findings. */
  lemma CoverBoundsMatching(adjacency: Adjacency, owner: map<nat, nat>, live: set<nat>, rights: set<nat>)
    requires IsMatching(adjacency, owner)
    requires forall p | p in owner && p !in rights :: owner[p] in live
    ensures |owner| <= |rights| + |live|
  {
    var inside, outside := owner.Keys * rights, owner.Keys - rights;
    assert owner.Keys == inside + outside;
    OwnersCount(owner, outside);
    SubsetCount(Owners(owner, outside), live);
    SubsetCount(inside, rights);
  }

  /** A matching that owns every dead-end prediction and serves every live finding attains the cover. */
  lemma CoverIsAttained(adjacency: Adjacency, owner: map<nat, nat>, lefts: set<nat>, live: set<nat>, rights: set<nat>)
    requires IsMatching(adjacency, owner) && DeadEnd(adjacency, owner, lefts, rights)
    requires live !! lefts && forall u | u in live :: u in owner.Values
    ensures |owner| >= |rights| + |live|
    ensures (forall p | p in owner && p !in rights :: owner[p] in live) ==> |owner| == |rights| + |live|
  {
    if forall p | p in owner && p !in rights :: owner[p] in live {
      CoverBoundsMatching(adjacency, owner, live, rights);
    }
    var outside := set p | p in owner && owner[p] in live;
    forall u | u in live ensures u in Owners(owner, outside) {
      var p :| p in owner && owner[p] == u;
    }
    assert Owners(owner, outside) == live;
    OwnersCount(owner, outside);
    assert rights !! outside;
    SubsetCount(rights + outside, owner.Keys);
  }

  /** No matching of these findings is larger than `n`. */
  ghost predicate NoneLarger(adjacency: Adjacency, findings: set<nat>, n: nat) {
    forall other | IsMatching(adjacency, other) && other.Values <= findings :: |other| <= n
  }

  /** When every finding of a set is served or dead, no matching of that set is larger than the one at hand. */
  lemma DeadEndCertifies(adjacency: Adjacency, owner: map<nat, nat>, lefts: set<nat>, rights: set<nat>,
                         findings: set<nat>)
    requires IsMatching(adjacency, owner) && DeadEnd(adjacency, owner, lefts, rights)
    requires Tried(owner, lefts, findings)
    ensures NoneLarger(adjacency, findings, |owner|)
  {
    var live := findings - lefts;
    CoverIsAttained(adjacency, owner, lefts, live, rights);
    forall other | IsMatching(adjacency, other) && other.Values <= findings ensures |other| <= |owner| {
      forall p | p in other && p !in rights ensures other[p] in live {
        assert Edge(adjacency, other[p], p) && other[p] in other.Values;
      }
      CoverBoundsMatching(adjacency, other, live, rights);
    }
  }

  /** After a failed search the dead end grows by everything it saw. */
  lemma DeadEndGrows(adjacency: Adjacency, owner: map<nat, nat>, lefts: set<nat>, rights: set<nat>, x: nat,
                     seen: set<nat>)
    returns (lefts': set<nat>, rights': set<nat>)
    requires DeadEnd(adjacency, owner, lefts, rights)
    requires forall p | Edge(adjacency, x, p) :: p in seen
    requires forall p | p in seen :: p in owner && forall q | Edge(adjacency, owner[p], q) :: q in seen
    ensures DeadEnd(adjacency, owner, lefts', rights')
    ensures lefts <= lefts' && x in lefts'
  {
    lefts' := lefts + {x} + Owners(owner, seen);
    rights' := rights + seen;
    forall u, p | u in lefts' && Edge(adjacency, u, p) ensures p in rights' {
      if u in Owners(owner, seen) {
        var q :| q in seen && owner[q] == u;
      }
    }
  }

  lemma NothingSeen(owner: map<nat, nat>)
    ensures OwnersOutside(owner, {}) == owner.Values
  {
    forall u | u in owner.Values ensures u in OwnersOutside(owner, {}) {
      var p :| p in owner && owner[p] == u;
    }
  }

  /** From an empty seen set, an augmented matching is a matching that serves one more expected finding. */
  lemma AugmentedServesMore(adjacency: Adjacency, before: map<nat, nat>, after: map<nat, nat>, x: nat)
    requires Augmented(adjacency, before, after, x, {})
    ensures IsMatching(adjacency, after) && after.Values == before.Values + {x}
  {
    hide OwnersOutside;
    NothingSeen(before);
    NothingSeen(after);
  }

  /** `expected index -> prediction index`, read off the owner map. */
  function Inverted(owner: map<nat, nat>): (taken: map<nat, nat>)
    requires OneToOne(owner)
    ensures taken.Keys == owner.Values && taken.Values == owner.Keys && |taken| == |owner|
    ensures forall p | p in owner :: taken[owner[p]] == p
  {
    OwnersCount(owner, owner.Keys);
    assert Owners(owner, owner.Keys) == owner.Values;
    var taken := map u | u in owner.Values :: TakenBy(owner, u);
    assert forall p | p in owner :: owner[p] in taken && taken[owner[p]] == p;
    taken
  }

  function TakenBy(owner: map<nat, nat>, u: nat): (p: nat)
    requires u in owner.Values
    requires OneToOne(owner)
    ensures p in owner && owner[p] == u
  {
    var p :| p in owner && owner[p] == u; p
  }

  /** Every finding tried so far is served or dead, and no other finding is served. */
  ghost predicate Tried(owner: map<nat, nat>, lefts: set<nat>, tried: set<nat>) {
    && (forall u | u in tried :: u in owner.Values || u in lefts)
    && owner.Values <= tried
  }

  /** One top-level search, with the dead end it may add to. */
  method TryFinding(matcher: Matcher, x: nat, ghost lefts: set<nat>, ghost rights: set<nat>, ghost tried: set<nat>)
    returns (ghost lefts': set<nat>, ghost rights': set<nat>)
    requires matcher.Valid() && x < |matcher.adjacency| && x !in tried
    requires DeadEnd(matcher.adjacency, matcher.predictionToExpected, lefts, rights)
    requires Tried(matcher.predictionToExpected, lefts, tried)
    modifies matcher
    ensures matcher.Valid()
    ensures DeadEnd(matcher.adjacency, matcher.predictionToExpected, lefts', rights')
    ensures Tried(matcher.predictionToExpected, lefts', tried + {x})
    ensures old(matcher.predictionToExpected).Values <= matcher.predictionToExpected.Values
  {
    hide IsMatching, DeadEnd, Augmented, NoneSkipped;
    ghost var before := matcher.predictionToExpected;
    forall q | q in before ensures before[q] != x {
      assert before[q] in before.Values;
    }
    matcher.seenPredictions := {};
    var found := matcher.Augment(x, lefts, rights);
    if found {
      AugmentedServesMore(matcher.adjacency, before, matcher.predictionToExpected, x);
      DeadEndStays(matcher.adjacency, before, matcher.predictionToExpected, lefts, rights);
      lefts', rights' := lefts, rights;
    } else {
      lefts', rights' := DeadEndGrows(matcher.adjacency, before, lefts, rights, x, matcher.seenPredictions);
    }
  }

  ghost function Elements(order: seq<nat>): set<nat> {
    set u | u in order
  }

  /** An order in which every finding below `n` comes once, as `sorted` returns. */
  ghost predicate IsOrder(order: seq<nat>, n: nat) {
    && |order| == n
    && (forall i | 0 <= i < n :: order[i] < n)
    && (forall u: nat | 0 <= u < n :: u in order)
    && (forall i, j | 0 <= i < j < n :: order[i] != order[j])
  }

  /** Of the first `i` findings in order, as many are served as any matching of them alone could serve. */
  ghost predicate ServesFirst(adjacency: Adjacency, order: seq<nat>, served: set<nat>, i: nat)
    requires i <= |order|
  {
    NoneLarger(adjacency, Elements(order[..i]), |served * Elements(order[..i])|)
  }

  /**
   * Try each expected finding in turn. The result is a maximum matching whatever the order, and a finding never goes
   * without for the sake of a later one: every first part of the order is served as well as it could be by itself.
   * No finding takes a prediction while an earlier one on its list is left unused.
   */
  method MaximumMatching(adjacency: Adjacency, expectedOrder: seq<nat>) returns (owner: map<nat, nat>)
    requires IsOrder(expectedOrder, |adjacency|)
    ensures IsMaximumMatching(adjacency, owner)
    ensures forall i | 0 <= i <= |expectedOrder| :: ServesFirst(adjacency, expectedOrder, owner.Values, i)
    ensures NoneSkipped(adjacency, owner)
  {
    hide NoneSkipped, IsMatching, DeadEnd, NoneLarger, Elements, Tried;
    var matcher := new Matcher(adjacency);
    ghost var lefts: set<nat>, rights: set<nat> := {}, {};
    NothingTried(adjacency, expectedOrder);
    for i := 0 to |expectedOrder|
      invariant matcher.Valid() && matcher.adjacency == adjacency && fresh(matcher)
      invariant DeadEnd(adjacency, matcher.predictionToExpected, lefts, rights)
      invariant Tried(matcher.predictionToExpected, lefts, Elements(expectedOrder[..i]))
      invariant forall j | 0 <= j <= i :: ServesFirst(adjacency, expectedOrder, matcher.predictionToExpected.Values, j)
    {
      ghost var before := matcher.predictionToExpected;
      NextElement(expectedOrder, i);
      lefts, rights := TryFinding(matcher, expectedOrder[i], lefts, rights, Elements(expectedOrder[..i]));
      forall j | 0 <= j <= i + 1
        ensures ServesFirst(adjacency, expectedOrder, matcher.predictionToExpected.Values, j)
      {
        if j <= i {
          StillServesFirst(adjacency, expectedOrder, before.Values, matcher.predictionToExpected.Values, j);
        } else {
          NowServesFirst(adjacency, expectedOrder, matcher.predictionToExpected, lefts, rights, j);
        }
      }
    }
    owner := matcher.predictionToExpected;
    ServesAll(adjacency, expectedOrder, owner);
  }

  lemma StillServesFirst(adjacency: Adjacency, order: seq<nat>, before: set<nat>, after: set<nat>, i: nat)
    requires i <= |order| && before <= after && ServesFirst(adjacency, order, before, i)
    ensures ServesFirst(adjacency, order, after, i)
  {
    SubsetCount(before * Elements(order[..i]), after * Elements(order[..i]));
  }

  lemma NowServesFirst(adjacency: Adjacency, order: seq<nat>, owner: map<nat, nat>, lefts: set<nat>, rights: set<nat>,
                       i: nat)
    requires i <= |order| && IsMatching(adjacency, owner) && DeadEnd(adjacency, owner, lefts, rights)
    requires Tried(owner, lefts, Elements(order[..i]))
    ensures ServesFirst(adjacency, order, owner.Values, i)
  {
    DeadEndCertifies(adjacency, owner, lefts, rights, Elements(order[..i]));
    assert owner.Values * Elements(order[..i]) == owner.Values;
    OwnersCount(owner, owner.Keys);
    assert Owners(owner, owner.Keys) == owner.Values && |owner.Keys| == |owner|;
  }

  lemma ServesAll(adjacency: Adjacency, order: seq<nat>, owner: map<nat, nat>)
    requires IsOrder(order, |adjacency|) && IsMatching(adjacency, owner)
    requires ServesFirst(adjacency, order, owner.Values, |order|)
    ensures IsMaximumMatching(adjacency, owner)
  {
    assert order[..|order|] == order;
    OwnersCount(owner, owner.Keys);
    assert Owners(owner, owner.Keys) == owner.Values && |owner.Keys| == |owner|;
    forall other | IsMatching(adjacency, other) ensures |other| <= |owner| {
      forall u | u in other.Values ensures u in Elements(order) {
        var p :| p in other && other[p] == u;
        assert Edge(adjacency, u, p);
      }
      SubsetCount(owner.Values * Elements(order), owner.Values);
    }
  }

  lemma NextElement(order: seq<nat>, i: nat)
    requires i < |order| && forall j, k | 0 <= j < k < |order| :: order[j] != order[k]
    ensures Elements(order[..i + 1]) == Elements(order[..i]) + {order[i]}
    ensures order[i] !in Elements(order[..i])
  {
    assert order[..i + 1] == order[..i] + [order[i]];
  }

  lemma NothingTried(adjacency: Adjacency, order: seq<nat>)
    ensures DeadEnd(adjacency, map[], {}, {}) && Tried(map[], {}, Elements(order[..0]))
    ensures ServesFirst(adjacency, order, {}, 0)
  {
    forall other | IsMatching(adjacency, other) && other.Values <= Elements(order[..0]) ensures |other| <= 0 {
      OwnersCount(other, other.Keys);
      assert Owners(other, other.Keys) == other.Values && |other.Keys| == |other|;
    }
  }

  lemma DeadEndStays(adjacency: Adjacency, before: map<nat, nat>, after: map<nat, nat>, lefts: set<nat>,
                     rights: set<nat>)
    requires DeadEnd(adjacency, before, lefts, rights) && SameOn(before, after, rights)
    ensures DeadEnd(adjacency, after, lefts, rights)
  {
  }
}
