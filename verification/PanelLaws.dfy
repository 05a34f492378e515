/** What a panel's result does and does not depend on. */
module PanelLaws {
  import opened Ordering
  import opened ReviewBenchmark
  import opened Panel
  import opened ScoringLaws

  /** The members that report an identity. */
  ghost function Reporters(rules: PanelRules, members: seq<seq<PredictedFinding>>, id: Identity): set<nat> {
    set m | 0 <= m < |members| && Reports(rules, members[m], id)
  }

  /** An identity is in the panel exactly when at least quorum distinct members reported it. */
  lemma {:induction false} BallotsCountReporters(rules: PanelRules, members: seq<seq<PredictedFinding>>, id: Identity)
    ensures |Ballots(rules, members, id)| == |Reporters(rules, members, id)|
  {
    hide Reports;
    if members != [] {
      var init, n := members[..|members| - 1], |members| - 1;
      BallotsCountReporters(rules, init, id);
      VoteIsReport(rules, members[n], id);
      var fewer := Reporters(rules, init, id);
      if Reports(rules, members[n], id) {
        assert Reporters(rules, members, id) == fewer + {n};
      } else {
        assert Reporters(rules, members, id) == fewer;
      }
    }
  }

  lemma QuorumOfReporters(rules: PanelRules, members: seq<seq<PredictedFinding>>, quorum: int,
                          panel: seq<PredictedFinding>, id: Identity)
    requires quorum >= 1 && IsPanel(rules, members, quorum, panel)
    ensures |Reporters(rules, members, id)| >= quorum <==> exists f :: f in panel && Listed(f) == id
    ensures forall i, j | 0 <= i < j < |panel| :: Listed(panel[i]) != Listed(panel[j])
  {
    hide Ballots, Reporters, PanelEntry, IdentityKey, InPanelOrder;
    PanelOrderMeans(panel);
    BallotsCountReporters(rules, members, id);
    assert InPanel(rules, members, quorum, id) <==> exists f :: f in panel && Listed(f) == id;
    forall i, j | 0 <= i < j < |panel| ensures Listed(panel[i]) != Listed(panel[j]) {
      assert KeyBefore(Keys(panel)[i], Keys(panel)[j]);
      KeyBeforeIsStrict(Keys(panel)[i]);
    }
  }

  lemma PanelEntryIsUnique(id: Identity, votes: seq<Vote>, f: PredictedFinding, g: PredictedFinding)
    requires PanelEntry(id, votes, f) && PanelEntry(id, votes, g)
    ensures f == g
  {
    PanelSeverityIsUnique(multiset(Severities(votes)), f.severity, g.severity);
  }

  /** Raising the quorum only removes findings. */
  lemma RaisingQuorumOnlyRemoves(rules: PanelRules, members: seq<seq<PredictedFinding>>, low: int, high: int,
                                 panel: seq<PredictedFinding>, stricter: seq<PredictedFinding>)
    requires low <= high && IsPanel(rules, members, low, panel) && IsPanel(rules, members, high, stricter)
    ensures forall f | f in stricter :: f in panel
  {
    hide Ballots, PanelEntry, InPanelOrder;
    forall f | f in stricter ensures f in panel {
      var id := Listed(f);
      assert InPanel(rules, members, high, id);
      assert InPanel(rules, members, low, id);
      var g :| g in panel && Listed(g) == id;
      PanelEntryIsUnique(id, Ballots(rules, members, id), f, g);
    }
  }

  // ----- Order independence -----

  lemma {:induction false} SeverityWithout(votes: seq<Vote>, j: nat)
    requires j < |votes|
    ensures multiset(Severities(votes)) == multiset(Severities(Without(votes, j))) + multiset{votes[j].severity}
  {
    var all := Severities(votes);
    WithoutCount(all, j);
    assert Severities(Without(votes, j)) == Without(all, j);
    assert all[j] in multiset(all);
  }

  lemma {:induction false} ConfidenceWithout(votes: seq<Vote>, j: nat)
    requires j < |votes|
    ensures Confidence(votes) == Confidence(Without(votes, j)) + votes[j].confidence
  {
    var init, last := votes[..|votes| - 1], votes[|votes| - 1];
    if j == |votes| - 1 {
      assert Without(votes, j) == init;
    } else {
      ConfidenceWithout(init, j);
      assert Without(votes, j)[..|votes| - 2] == Without(init, j);
      assert Without(votes, j)[|votes| - 2] == last;
    }
  }

  lemma VoteAppended(votes: seq<Vote>, last: Vote)
    ensures multiset(Severities(votes + [last])) == multiset(Severities(votes)) + multiset{last.severity}
    ensures Confidence(votes + [last]) == Confidence(votes) + last.confidence
  {
    assert Severities(votes + [last]) == Severities(votes) + [last.severity];
    assert (votes + [last])[..|votes|] == votes;
  }

  /** Severity counts and confidence totals depend on the votes, not on their order. */
  lemma {:induction false} VotesPermute(a: seq<Vote>, b: seq<Vote>)
    requires multiset(a) == multiset(b)
    ensures multiset(Severities(a)) == multiset(Severities(b)) && Confidence(a) == Confidence(b) && |a| == |b|
    decreases |a|
  {
    hide Severities, Confidence, Without;
    assert |a| == |multiset(a)| == |multiset(b)| == |b|;
    if a == [] {
      assert b == a;
    } else {
      var init, last := a[..|a| - 1], a[|a| - 1];
      assert a == init + [last];
      assert last in multiset(a);
      var j :| 0 <= j < |b| && b[j] == last;
      WithoutCount(b, j);
      VotesPermute(init, Without(b, j));
      ConfidenceWithout(b, j);
      SeverityWithout(b, j);
      VoteAppended(init, last);
    }
  }

  /** One member's votes for an identity: one or none. */
  ghost function Contribution(rules: PanelRules, findings: seq<PredictedFinding>, id: Identity): seq<Vote> {
    if HasVote(rules, findings, id) then [StrongestVote(rules, findings, id)] else []
  }

  /** Findings listed in another order, or repeated, vote alike. */
  lemma SameFindingsSameContribution(rules: PanelRules, a: seq<PredictedFinding>, b: seq<PredictedFinding>,
                                     id: Identity)
    requires forall f :: f in a <==> f in b
    ensures Contribution(rules, a, id) == Contribution(rules, b, id)
  {
    VoteIsReport(rules, a, id);
    VoteIsReport(rules, b, id);
    if HasVote(rules, a, id) {
      StrongestIsUnique(rules, a, b, id, StrongestVote(rules, a, id), StrongestVote(rules, b, id));
    }
  }

  lemma {:induction false} BallotsWithout(rules: PanelRules, members: seq<seq<PredictedFinding>>, j: nat, id: Identity)
    requires j < |members|
    ensures multiset(Ballots(rules, members, id))
      == multiset(Ballots(rules, Without(members, j), id)) + multiset(Contribution(rules, members[j], id))
  {
    hide HasVote;
    var n := |members| - 1;
    var init, last := members[..n], members[n];
    assert Ballots(rules, members, id) == Ballots(rules, init, id) + Contribution(rules, last, id);
    if j == n {
      assert Without(members, j) == init;
    } else {
      BallotsWithout(rules, init, j, id);
      var fewer := Without(members, j);
      assert fewer[..n - 1] == Without(init, j) && fewer[n - 1] == last;
      assert Ballots(rules, fewer, id) == Ballots(rules, Without(init, j), id) + Contribution(rules, last, id);
    }
  }

  function FindingSets(members: seq<seq<PredictedFinding>>): seq<set<PredictedFinding>> {
    seq(|members|, i requires 0 <= i < |members| => set f | f in members[i])
  }

  /** The same reports: members in any order, findings in any order and any number of exact repeats. */
  ghost predicate SameReports(a: seq<seq<PredictedFinding>>, b: seq<seq<PredictedFinding>>) {
    multiset(FindingSets(a)) == multiset(FindingSets(b))
  }

  /** The last member reported what some other member reported, and without both the reports are the same again. */
  lemma SameLastMember(a: seq<seq<PredictedFinding>>, b: seq<seq<PredictedFinding>>) returns (j: nat)
    requires SameReports(a, b) && a != []
    ensures j < |b| && SameReports(a[..|a| - 1], Without(b, j))
    ensures forall f :: f in a[|a| - 1] <==> f in b[j]
  {
    hide FindingSets, Without;
    var init, last := a[..|a| - 1], a[|a| - 1];
    var sets := FindingSets(b);
    var same := set f | f in last;
    SetsSnoc(init, last);
    assert a == init + [last];
    assert multiset(FindingSets(a)) == multiset(FindingSets(init)) + multiset{same};
    assert same in multiset(sets);
    j :| 0 <= j < |sets| && sets[j] == same;
    SetsWithout(b, j);
    WithoutCount(sets, j);
    forall f ensures f in last <==> f in b[j] {
      assert f in last <==> f in sets[j];
    }
  }

  lemma SetsSnoc(init: seq<seq<PredictedFinding>>, last: seq<PredictedFinding>)
    ensures FindingSets(init + [last]) == FindingSets(init) + [set f | f in last]
  {
  }

  lemma SetsWithout(members: seq<seq<PredictedFinding>>, j: nat)
    requires j < |FindingSets(members)|
    ensures j < |members| && FindingSets(members)[j] == set f | f in members[j]
    ensures FindingSets(Without(members, j)) == Without(FindingSets(members), j)
  {
  }

  lemma NoReports(a: seq<seq<PredictedFinding>>, b: seq<seq<PredictedFinding>>)
    requires SameReports(a, b) && a == []
    ensures b == []
  {
    assert FindingSets(a) == [];
    assert |FindingSets(b)| == 0;
  }

  lemma {:induction false} SameReportsSameBallots(rules: PanelRules, a: seq<seq<PredictedFinding>>,
                                                  b: seq<seq<PredictedFinding>>, id: Identity)
    requires SameReports(a, b)
    ensures multiset(Ballots(rules, a, id)) == multiset(Ballots(rules, b, id))
    decreases |a|
  {
    hide HasVote, SameReports, Contribution, StrongestVote;
    if a == [] {
      NoReports(a, b);
    } else {
      var init, last := a[..|a| - 1], a[|a| - 1];
      var j := SameLastMember(a, b);
      SameReportsSameBallots(rules, init, Without(b, j), id);
      BallotsWithout(rules, b, j, id);
      SameFindingsSameContribution(rules, last, b[j], id);
      BallotsSnoc(rules, init, last, id);
      assert a == init + [last];
    }
  }

  lemma BallotsSnoc(rules: PanelRules, init: seq<seq<PredictedFinding>>, last: seq<PredictedFinding>, id: Identity)
    ensures Ballots(rules, init + [last], id) == Ballots(rules, init, id) + Contribution(rules, last, id)
  {
    hide HasVote;
    assert (init + [last])[..|init|] == init;
  }

  lemma SameBallotsSameEntry(id: Identity, a: seq<Vote>, b: seq<Vote>, f: PredictedFinding)
    requires multiset(a) == multiset(b) && PanelEntry(id, a, f)
    ensures PanelEntry(id, b, f)
  {
    VotesPermute(a, b);
  }

  lemma SameListing(rules: PanelRules, a: seq<seq<PredictedFinding>>, b: seq<seq<PredictedFinding>>, quorum: int,
                    panelA: seq<PredictedFinding>, panelB: seq<PredictedFinding>, f: PredictedFinding)
    requires SameReports(a, b) && IsPanel(rules, a, quorum, panelA) && IsPanel(rules, b, quorum, panelB)
    requires f in panelA
    ensures f in panelB
  {
    hide Ballots, PanelEntry, Sorted, SameReports;
    var id := Listed(f);
    SameReportsSameBallots(rules, a, b, id);
    var votesA, votesB := Ballots(rules, a, id), Ballots(rules, b, id);
    SameBallotsSameEntry(id, votesA, votesB, f);
    assert InPanel(rules, a, quorum, id);
    VotesPermute(votesA, votesB);
    assert InPanel(rules, b, quorum, id);
    var g :| g in panelB && Listed(g) == id;
    PanelEntryIsUnique(id, votesB, f, g);
  }

  /** Main result: the panel is the same list for every order of members and findings and any exact repeats. */
  lemma PanelIgnoresOrder(rules: PanelRules, a: seq<seq<PredictedFinding>>, b: seq<seq<PredictedFinding>>, quorum: int,
                          panelA: seq<PredictedFinding>, panelB: seq<PredictedFinding>)
    requires SameReports(a, b) && IsPanel(rules, a, quorum, panelA) && IsPanel(rules, b, quorum, panelB)
    ensures panelA == panelB
  {
    hide Ballots, PanelEntry, SameReports, IdentityKey, KeyBefore, InPanelOrder;
    PanelOrderMeans(panelA);
    PanelOrderMeans(panelB);
    forall f ensures f in panelA <==> f in panelB {
      if f in panelA {
        SameListing(rules, a, b, quorum, panelA, panelB, f);
      }
      if f in panelB {
        SameReportsBack(a, b);
        SameListing(rules, b, a, quorum, panelB, panelA, f);
      }
    }
    SameKeys(panelA, panelB);
    SortedIsUnique(Keys(panelA), Keys(panelB));
    SameKeysSamePanel(panelA, panelB);
  }

  lemma SameReportsBack(a: seq<seq<PredictedFinding>>, b: seq<seq<PredictedFinding>>)
    requires SameReports(a, b)
    ensures SameReports(b, a)
  {
  }

  lemma SameKeys(a: seq<PredictedFinding>, b: seq<PredictedFinding>)
    requires forall f :: f in a <==> f in b
    ensures forall k :: k in Keys(a) <==> k in Keys(b)
  {
    forall k ensures k in Keys(a) <==> k in Keys(b) {
      if k in Keys(a) {
        var i :| 0 <= i < |a| && Keys(a)[i] == k;
        assert a[i] in b;
        var j :| 0 <= j < |b| && b[j] == a[i];
        assert Keys(b)[j] == k;
      }
      if k in Keys(b) {
        var i :| 0 <= i < |b| && Keys(b)[i] == k;
        assert b[i] in a;
        var j :| 0 <= j < |a| && a[j] == b[i];
        assert Keys(a)[j] == k;
      }
    }
  }

  lemma SameKeysSamePanel(a: seq<PredictedFinding>, b: seq<PredictedFinding>)
    requires forall f :: f in a <==> f in b
    requires Keys(a) == Keys(b) && Sorted(Keys(a))
    ensures a == b
  {
    hide KeyBefore, IdentityKey;
    assert |a| == |Keys(a)| == |Keys(b)| == |b|;
    forall i | 0 <= i < |a| ensures a[i] == b[i] {
      assert a[i] in b;
      var j :| 0 <= j < |b| && b[j] == a[i];
      assert Keys(a)[i] == Keys(b)[j] == Keys(a)[j];
      KeyBeforeIsStrict(Keys(a)[i]);
    }
  }
}
