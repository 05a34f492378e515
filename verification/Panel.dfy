/** Reviewer panels: one vote a member, a quorum, and an order-free result. */
module Panel {
  import opened Wrappers
  import opened Ordering
  import opened ReviewBenchmark

  datatype Identity = Identity(file: string, category: string, line: Option<int>)

  /** The text rules of the panel: path normalization, and stripping and case-folding of a severity. */
  datatype PanelRules = PanelRules(normalize: string -> string, clean: string -> string)

  /** What counts of a finding once its identity is known. */
  datatype Vote = Vote(severity: string, confidence: real)

  function IdentityOf(rules: PanelRules, f: PredictedFinding): Identity {
    Identity(rules.normalize(f.file), f.category, f.line)
  }

  function VoteOf(rules: PanelRules, f: PredictedFinding): Vote {
    Vote(rules.clean(f.severity), f.confidence)
  }

  function SeverityRank(severity: string): int {
    if severity == "info" then 1 else if severity == "minor" then 2
    else if severity == "major" then 3 else if severity == "blocker" then 4 else 0
  }

  function VoteKey(v: Vote): Key {
    [Number(SeverityRank(v.severity)), Text(v.severity), Score(v.confidence)]
  }

  function IdentityKey(id: Identity): Key {
    [Text(id.file), Text(id.category), Flag(id.line.None?), Number(if id.line.Some? then id.line.value else -1)]
  }

  lemma IdentityKeyIsInjective(a: Identity, b: Identity)
    requires IdentityKey(a) == IdentityKey(b)
    ensures a == b
  {
    var k, l := IdentityKey(a), IdentityKey(b);
    assert k[0] == l[0] && k[1] == l[1] && k[2] == l[2] && k[3] == l[3];
  }

  // ----- What the votes mean -----

  /** The finding is one for this file, category and line. */
  ghost predicate IsFor(rules: PanelRules, f: PredictedFinding, id: Identity) {
    rules.normalize(f.file) == id.file && f.category == id.category && f.line == id.line
  }

  /** Two findings have one identity exactly when normalized file, category and line agree. */
  lemma VoteTogether(rules: PanelRules, f: PredictedFinding, g: PredictedFinding)
    ensures IdentityOf(rules, f) == IdentityOf(rules, g)
      <==> rules.normalize(f.file) == rules.normalize(g.file) && f.category == g.category && f.line == g.line
  {
  }

  ghost predicate CountsAs(rules: PanelRules, f: PredictedFinding, v: Vote) {
    v.severity == rules.clean(f.severity) && v.confidence == f.confidence
  }

  /** The known severities, from the weakest to the strongest. */
  const SEVERITIES: seq<string> := ["info", "minor", "major", "blocker"]

  /** `t` is a known severity, and `s` is unknown or a weaker one. */
  ghost predicate RankBelow(s: string, t: string) {
    exists j | 0 <= j < |SEVERITIES| :: SEVERITIES[j] == t && s !in SEVERITIES[j..]
  }

  lemma RankMeans(s: string, t: string)
    ensures RankBelow(s, t) <==> SeverityRank(s) < SeverityRank(t)
  {
    var all := SEVERITIES;
    assert all[0..] == ["info", "minor", "major", "blocker"] && all[1..] == ["minor", "major", "blocker"];
    assert all[2..] == ["major", "blocker"] && all[3..] == ["blocker"];
    assert forall j | 0 <= j < 4 :: SeverityRank(all[j]) == j + 1;
    assert SeverityRank(t) > 0 ==> all[SeverityRank(t) - 1] == t;
    assert forall j | 0 <= j < 4 :: s in all[j..] <==> SeverityRank(s) > j;
  }

  /** Of two severities with one rank, which only unknown ones share, the earlier text is the lesser. */
  ghost predicate Milder(s: string, t: string) {
    RankBelow(s, t) || (!RankBelow(t, s) && TextBefore(s, t))
  }

  /** One vote is weaker than another: by severity, and by confidence where severities agree. */
  ghost predicate Weaker(v: Vote, w: Vote) {
    Milder(v.severity, w.severity) || (v.severity == w.severity && v.confidence < w.confidence)
  }

  lemma WeakerMeans(v: Vote, w: Vote)
    ensures Weaker(v, w) <==> KeyBefore(VoteKey(v), VoteKey(w))
  {
    hide SeverityRank, TextBefore, RankBelow;
    RankMeans(v.severity, w.severity);
    RankMeans(w.severity, v.severity);
    TextBeforeIsStrict(v.severity);
    ThreeParts(VoteKey(v), VoteKey(w));
  }

  lemma ThreeParts(a: Key, b: Key)
    requires |a| == 3 && |b| == 3
    ensures KeyBefore(a, b) <==>
      PartBefore(a[0], b[0]) || (a[0] == b[0] && (PartBefore(a[1], b[1]) || (a[1] == b[1] && PartBefore(a[2], b[2]))))
  {
    hide PartBefore;
    assert KeyBefore(a[2..], b[2..]) <==> PartBefore(a[2], b[2]) by {
      assert a[2..][1..] == [] && b[2..][1..] == [] && !KeyBefore([], []);
    }
    assert KeyBefore(a[1..], b[1..]) <==> PartBefore(a[1], b[1]) || (a[1] == b[1] && PartBefore(a[2], b[2])) by {
      assert a[1..][1..] == a[2..] && b[1..][1..] == b[2..];
    }
  }

  lemma WeakerIsTransitive(u: Vote, v: Vote, w: Vote)
    ensures Weaker(u, v) && Weaker(v, w) ==> Weaker(u, w)
  {
    hide KeyBefore, VoteKey, Weaker;
    WeakerMeans(u, v);
    WeakerMeans(v, w);
    WeakerMeans(u, w);
    if Weaker(u, v) && Weaker(v, w) {
      KeyBeforeIsTransitive(VoteKey(u), VoteKey(v), VoteKey(w));
    }
  }

  lemma WeakerIsTotal(v: Vote, w: Vote)
    ensures v == w || Weaker(v, w) || Weaker(w, v)
    ensures !Weaker(v, v)
  {
    hide KeyBefore, Weaker;
    WeakerMeans(v, w);
    WeakerMeans(w, v);
    WeakerMeans(v, v);
    KeyBeforeIsStrict(VoteKey(v));
    KeyBeforeIsTotal(VoteKey(v), VoteKey(w));
    if VoteKey(v) == VoteKey(w) {
      assert VoteKey(v)[1] == VoteKey(w)[1] && VoteKey(v)[2] == VoteKey(w)[2];
    }
  }

  // ----- One member -----

  ghost predicate Reports(rules: PanelRules, findings: seq<PredictedFinding>, id: Identity) {
    exists f :: f in findings && IsFor(rules, f, id)
  }

  /** `v` is the strongest vote for `id` among the findings. */
  ghost predicate Strongest(rules: PanelRules, findings: seq<PredictedFinding>, id: Identity, v: Vote) {
    && (exists f :: f in findings && IsFor(rules, f, id) && CountsAs(rules, f, v))
    && (forall f, w | f in findings && IsFor(rules, f, id) && CountsAs(rules, f, w) :: !Weaker(v, w))
  }

  lemma StrongestIsUnique(rules: PanelRules, a: seq<PredictedFinding>, b: seq<PredictedFinding>, id: Identity, v: Vote,
                          w: Vote)
    requires forall f :: f in a <==> f in b
    requires Strongest(rules, a, id, v) && Strongest(rules, b, id, w)
    ensures v == w
  {
    hide Weaker;
    var f :| f in a && IsFor(rules, f, id) && CountsAs(rules, f, v);
    var g :| g in b && IsFor(rules, g, id) && CountsAs(rules, g, w);
    assert f in b && g in a;
    WeakerIsTotal(v, w);
  }

  /** Each reported identity with its strongest finding. */
  ghost predicate RightVotes(rules: PanelRules, findings: seq<PredictedFinding>,
                             votes: map<Identity, PredictedFinding>)
  {
    && (forall id :: id in votes <==> Reports(rules, findings, id))
    && (forall id | id in votes :: Strongest(rules, findings, id, VoteOf(rules, votes[id])))
  }

  /** Deduplicate one member so that it casts one vote an identity. */
  method MemberVotes(rules: PanelRules, findings: seq<PredictedFinding>)
    returns (votes: map<Identity, PredictedFinding>)
    ensures RightVotes(rules, findings, votes)
  {
    votes := map[];
    hide RightVotes, KeyBefore, VoteKey, VoteOf, IdentityOf, Reports, Strongest;
    assert RightVotes(rules, findings[..0], votes) by { NoVotes(rules); }
    for i := 0 to |findings|
      invariant RightVotes(rules, findings[..i], votes)
    {
      ghost var before := votes;
      var finding := findings[i];
      var identity := IdentityOf(rules, finding);
      if identity !in votes || KeyBefore(VoteKey(VoteOf(rules, votes[identity])), VoteKey(VoteOf(rules, finding))) {
        votes := votes[identity := finding];
      }
      CountOneMore(rules, findings[..i], finding, before, votes);
      assert findings[..i + 1] == findings[..i] + [finding];
    }
    assert findings[..|findings|] == findings;
  }

  lemma NoVotes(rules: PanelRules)
    ensures RightVotes(rules, [], map[])
  {
  }

  lemma CountOneMore(rules: PanelRules, findings: seq<PredictedFinding>, finding: PredictedFinding,
                     before: map<Identity, PredictedFinding>, votes: map<Identity, PredictedFinding>)
    requires RightVotes(rules, findings, before)
    requires var id := IdentityOf(rules, finding);
      votes == if id !in before || KeyBefore(VoteKey(VoteOf(rules, before[id])), VoteKey(VoteOf(rules, finding)))
               then before[id := finding] else before
    ensures RightVotes(rules, findings + [finding], votes)
  {
    hide KeyBefore, VoteKey, Strongest;
    var all, here := findings + [finding], IdentityOf(rules, finding);
    assert finding in all;
    forall id ensures id in votes <==> Reports(rules, all, id) {
      if id in before {
        var f :| f in findings && IsFor(rules, f, id);
        assert f in all;
      }
      if Reports(rules, all, id) && id != here {
        var f :| f in all && IsFor(rules, f, id);
        assert f in findings;
      }
    }
    forall id | id in votes ensures Strongest(rules, all, id, VoteOf(rules, votes[id])) {
      StrongestOneMore(rules, findings, finding, before, votes, id);
    }
  }

  lemma StrongestOneMore(rules: PanelRules, findings: seq<PredictedFinding>, finding: PredictedFinding,
                         before: map<Identity, PredictedFinding>, votes: map<Identity, PredictedFinding>, id: Identity)
    requires RightVotes(rules, findings, before) && id in votes
    requires var here := IdentityOf(rules, finding);
      votes == if here !in before || KeyBefore(VoteKey(VoteOf(rules, before[here])), VoteKey(VoteOf(rules, finding)))
               then before[here := finding] else before
    ensures Strongest(rules, findings + [finding], id, VoteOf(rules, votes[id]))
  {
    hide KeyBefore, VoteKey, Weaker;
    var all, here, v := findings + [finding], IdentityOf(rules, finding), VoteOf(rules, votes[id]);
    assert finding in all;
    if id in before {
      var f :| f in findings && IsFor(rules, f, id) && CountsAs(rules, f, VoteOf(rules, before[id]));
      assert f in all;
      WeakerMeans(VoteOf(rules, before[id]), VoteOf(rules, finding));
    }
    WeakerIsTotal(v, v);
    forall f, w | f in all && IsFor(rules, f, id) && CountsAs(rules, f, w) ensures !Weaker(v, w) {
      if f in findings {
        assert Reports(rules, findings, id);
        WeakerIsTransitive(VoteOf(rules, before[id]), v, w);
      } else {
        assert w == VoteOf(rules, finding);
      }
    }
  }

  // ----- The ballots of a panel -----

  ghost function StrongestVote(rules: PanelRules, findings: seq<PredictedFinding>, id: Identity): (v: Vote)
    requires exists v :: Strongest(rules, findings, id, v)
  {
    var v :| Strongest(rules, findings, id, v); v
  }

  ghost predicate HasVote(rules: PanelRules, findings: seq<PredictedFinding>, id: Identity) {
    exists v :: Strongest(rules, findings, id, v)
  }

  /** The votes for `id`, one for each member that reports it, in member order. */
  ghost function Ballots(rules: PanelRules, members: seq<seq<PredictedFinding>>, id: Identity): seq<Vote> {
    if members == [] then []
    else
      var before, last := Ballots(rules, members[..|members| - 1], id), members[|members| - 1];
      if HasVote(rules, last, id) then before + [StrongestVote(rules, last, id)] else before
  }

  function Severities(votes: seq<Vote>): seq<string> {
    seq(|votes|, i requires 0 <= i < |votes| => votes[i].severity)
  }

  function Confidence(votes: seq<Vote>): real {
    if votes == [] then 0.0 else Confidence(votes[..|votes| - 1]) + votes[|votes| - 1].confidence
  }

  function CountKey(severities: multiset<string>, s: string): Key {
    [Number(severities[s]), Number(SeverityRank(s)), Text(s)]
  }

  /** One severity has fewer votes than another, or as many and is milder. */
  ghost predicate LessCommon(severities: multiset<string>, t: string, s: string) {
    severities[t] < severities[s] || (severities[t] == severities[s] && Milder(t, s))
  }

  lemma LessCommonMeans(severities: multiset<string>, t: string, s: string)
    ensures LessCommon(severities, t, s) <==> KeyBefore(CountKey(severities, t), CountKey(severities, s))
  {
    hide SeverityRank, TextBefore, RankBelow;
    RankMeans(t, s);
    RankMeans(s, t);
    ThreeParts(CountKey(severities, t), CountKey(severities, s));
  }

  /** The most frequent severity; ties go to the higher rank, then to the later text. */
  ghost predicate PanelSeverity(severities: multiset<string>, s: string) {
    s in severities && forall t | t in severities && t != s :: LessCommon(severities, t, s)
  }

  lemma PanelSeverityIsUnique(severities: multiset<string>, s: string, t: string)
    requires PanelSeverity(severities, s) && PanelSeverity(severities, t)
    ensures s == t
  {
    hide LessCommon, KeyBefore;
    if s != t {
      LessCommonMeans(severities, s, t);
      LessCommonMeans(severities, t, s);
      KeyBeforeIsTransitive(CountKey(severities, t), CountKey(severities, s), CountKey(severities, t));
      KeyBeforeIsStrict(CountKey(severities, t));
    }
  }

  /** The panel's finding for an identity with these ballots. */
  ghost predicate PanelEntry(id: Identity, votes: seq<Vote>, f: PredictedFinding) {
    && votes != []
    && PanelSeverity(multiset(Severities(votes)), f.severity)
    && f.file == id.file && f.category == id.category && f.line == id.line
    && f.confidence == Confidence(votes) / |votes| as real
  }

  function Listed(f: PredictedFinding): Identity {
    Identity(f.file, f.category, f.line)
  }

  ghost predicate InPanel(rules: PanelRules, members: seq<seq<PredictedFinding>>, quorum: int, id: Identity) {
    var votes := Ballots(rules, members, id);
    votes != [] && |votes| >= quorum
  }

  function Keys(findings: seq<PredictedFinding>): seq<Key> {
    seq(|findings|, i requires 0 <= i < |findings| => IdentityKey(Listed(findings[i])))
  }

  /** A panel lists by file, then category, then line, and a finding without a line last. */
  ghost predicate ListedBefore(a: PredictedFinding, b: PredictedFinding) {
    || TextBefore(a.file, b.file)
    || (a.file == b.file && TextBefore(a.category, b.category))
    || (a.file == b.file && a.category == b.category && a.line.Some? && (b.line.Some? ==> a.line.value < b.line.value))
  }

  lemma ListedBeforeMeans(a: PredictedFinding, b: PredictedFinding)
    ensures ListedBefore(a, b) <==> KeyBefore(IdentityKey(Listed(a)), IdentityKey(Listed(b)))
  {
    hide TextBefore;
    var k, l := IdentityKey(Listed(a)), IdentityKey(Listed(b));
    ThreeParts(k[1..], l[1..]);
    assert k[1..][0] == k[1] && k[1..][1] == k[2] && k[1..][2] == k[3];
    assert l[1..][0] == l[1] && l[1..][1] == l[2] && l[1..][2] == l[3];
    assert KeyBefore(k, l) <==> PartBefore(k[0], l[0]) || (k[0] == l[0] && KeyBefore(k[1..], l[1..]));
  }

  ghost predicate InPanelOrder(panel: seq<PredictedFinding>) {
    forall i, j | 0 <= i < j < |panel| :: ListedBefore(panel[i], panel[j])
  }

  lemma PanelOrderMeans(panel: seq<PredictedFinding>)
    ensures InPanelOrder(panel) <==> Sorted(Keys(panel))
  {
    hide ListedBefore, KeyBefore, IdentityKey;
    forall i, j | 0 <= i < j < |panel|
      ensures ListedBefore(panel[i], panel[j]) <==> KeyBefore(Keys(panel)[i], Keys(panel)[j])
    {
      ListedBeforeMeans(panel[i], panel[j]);
    }
  }

  /** The panel lists exactly the identities with enough ballots, once each and sorted, with the right entries. */
  ghost predicate IsPanel(rules: PanelRules, members: seq<seq<PredictedFinding>>, quorum: int,
                          panel: seq<PredictedFinding>)
  {
    && InPanelOrder(panel)
    && (forall f | f in panel :: PanelEntry(Listed(f), Ballots(rules, members, Listed(f)), f))
    && (forall id :: InPanel(rules, members, quorum, id) <==> exists f :: f in panel && Listed(f) == id)
  }

  // ----- Computing the panel -----

  lemma OneMoreSeverity(votes: seq<Vote>, i: nat)
    requires i < |votes|
    ensures multiset(Severities(votes[..i + 1])) == multiset(Severities(votes[..i])) + multiset{votes[i].severity}
  {
    assert Severities(votes[..i + 1]) == Severities(votes[..i]) + [votes[i].severity];
  }

  ghost predicate CountsOf(counts: map<string, nat>, all: multiset<string>) {
    (forall s :: s in counts <==> s in all) && forall s | s in counts :: counts[s] == all[s]
  }

  lemma OneMoreCount(counts: map<string, nat>, all: multiset<string>, s: string)
    requires CountsOf(counts, all)
    ensures CountsOf(counts[s := (if s in counts then counts[s] else 0) + 1], all + multiset{s})
  {
  }

  method CountSeverities(votes: seq<Vote>) returns (counts: map<string, nat>)
    ensures CountsOf(counts, multiset(Severities(votes)))
  {
    counts := map[];
    assert Severities(votes[..0]) == [];
    hide Severities, CountsOf;
    assert CountsOf(counts, multiset(Severities(votes[..0]))) by { NoCounts(); }
    for i := 0 to |votes|
      invariant CountsOf(counts, multiset(Severities(votes[..i])))
    {
      var s := votes[i].severity;
      OneMoreSeverity(votes, i);
      OneMoreCount(counts, multiset(Severities(votes[..i])), s);
      counts := counts[s := (if s in counts then counts[s] else 0) + 1];
    }
    assert votes[..|votes|] == votes;
  }

  lemma NoCounts()
    ensures CountsOf(map[], multiset([]))
  {
  }

  method MostCommon(votes: seq<Vote>) returns (best: string)
    requires votes != []
    ensures PanelSeverity(multiset(Severities(votes)), best)
  {
    hide LessCommon;
    ghost var all := multiset(Severities(votes));
    var counts := CountSeverities(votes);
    var remaining := counts.Keys;
    assert Severities(votes)[0] in all;
    best :| best in remaining;
    remaining := remaining - {best};
    while remaining != {}
      invariant remaining <= counts.Keys && best in counts && best !in remaining
      invariant forall t | t in counts && t !in remaining && t != best :: LessCommon(all, t, best)
      decreases |remaining|
    {
      var next :| next in remaining;
      remaining := remaining - {next};
      var bestKey := [Number(counts[best]), Number(SeverityRank(best)), Text(best)];
      var nextKey := [Number(counts[next]), Number(SeverityRank(next)), Text(next)];
      CountKeysDiffer(all, best, next);
      if KeyBefore(bestKey, nextKey) {
        forall t | t in counts && t !in remaining && t != next ensures LessCommon(all, t, next) {
          if t != best {
            LessCommonIsTransitive(all, t, best, next);
          }
        }
        best := next;
      }
    }
  }

  lemma LessCommonIsTransitive(all: multiset<string>, r: string, s: string, t: string)
    requires LessCommon(all, r, s) && LessCommon(all, s, t)
    ensures LessCommon(all, r, t)
  {
    hide LessCommon, KeyBefore, CountKey;
    LessCommonMeans(all, r, s);
    LessCommonMeans(all, s, t);
    LessCommonMeans(all, r, t);
    KeyBeforeIsTransitive(CountKey(all, r), CountKey(all, s), CountKey(all, t));
  }

  lemma CountKeysDiffer(all: multiset<string>, s: string, t: string)
    requires s != t
    ensures KeyBefore(CountKey(all, s), CountKey(all, t)) <==> LessCommon(all, s, t)
    ensures LessCommon(all, s, t) || LessCommon(all, t, s)
  {
    hide LessCommon, KeyBefore;
    LessCommonMeans(all, s, t);
    LessCommonMeans(all, t, s);
    KeyBeforeIsTotal(CountKey(all, s), CountKey(all, t));
    assert CountKey(all, s)[2] != CountKey(all, t)[2];
  }

  method MeanConfidence(votes: seq<Vote>) returns (mean: real)
    requires votes != []
    ensures mean == Confidence(votes) / |votes| as real
  {
    var total := 0.0;
    for i := 0 to |votes|
      invariant total == Confidence(votes[..i])
    {
      assert votes[..i + 1][..i] == votes[..i];
      total := total + votes[i].confidence;
    }
    assert votes[..|votes|] == votes;
    mean := total / |votes| as real;
  }

  /** Every ballot box holds the votes of the members so far. */
  ghost predicate RightBoxes(rules: PanelRules, members: seq<seq<PredictedFinding>>, boxes: map<Identity, seq<Vote>>) {
    && (forall id :: id in boxes <==> Ballots(rules, members, id) != [])
    && (forall id | id in boxes :: boxes[id] == Ballots(rules, members, id))
  }

  /** Add one member's votes to the boxes. */
  method CastVotes(rules: PanelRules, ghost members: seq<seq<PredictedFinding>>, findings: seq<PredictedFinding>,
                   boxes: map<Identity, seq<Vote>>)
    returns (boxes': map<Identity, seq<Vote>>)
    requires RightBoxes(rules, members, boxes)
    ensures RightBoxes(rules, members + [findings], boxes')
  {
    hide Strongest;
    var votes := MemberVotes(rules, findings);
    boxes' := map id | id in boxes.Keys + votes.Keys ::
      (if id in boxes then boxes[id] else []) + (if id in votes then [VoteOf(rules, votes[id])] else []);
    forall id ensures Ballots(rules, members + [findings], id)
      == Ballots(rules, members, id) + (if id in votes then [VoteOf(rules, votes[id])] else [])
    {
      BallotsOneMore(rules, members, findings, id, votes);
    }
  }

  lemma BallotsOneMore(rules: PanelRules, members: seq<seq<PredictedFinding>>, findings: seq<PredictedFinding>,
                       id: Identity, votes: map<Identity, PredictedFinding>)
    requires RightVotes(rules, findings, votes)
    ensures Ballots(rules, members + [findings], id)
      == Ballots(rules, members, id) + (if id in votes then [VoteOf(rules, votes[id])] else [])
  {
    assert (members + [findings])[..|members|] == members;
    if id in votes {
      var v := StrongestVote(rules, findings, id);
      StrongestIsUnique(rules, findings, findings, id, v, VoteOf(rules, votes[id]));
    } else {
      VoteIsReport(rules, findings, id);
    }
  }

  /** A member votes for an identity exactly when it reports it. */
  lemma VoteIsReport(rules: PanelRules, findings: seq<PredictedFinding>, id: Identity)
    ensures HasVote(rules, findings, id) <==> Reports(rules, findings, id)
  {
    if Reports(rules, findings, id) {
      var v := SomeStrongest(rules, findings, id);
    }
  }

  lemma {:induction false} SomeStrongest(rules: PanelRules, findings: seq<PredictedFinding>, id: Identity)
    returns (v: Vote)
    requires Reports(rules, findings, id)
    ensures Strongest(rules, findings, id, v)
    decreases |findings|
  {
    hide Weaker;
    var init, last := findings[..|findings| - 1], findings[|findings| - 1];
    assert findings == init + [last];
    var w := VoteOf(rules, last);
    WeakerIsTotal(w, w);
    if Reports(rules, init, id) {
      v := SomeStrongest(rules, init, id);
      var f :| f in init && IsFor(rules, f, id) && CountsAs(rules, f, v);
      assert f in findings;
      if IsFor(rules, last, id) && Weaker(v, w) {
        StrongerStill(rules, init, id, v, w);
        v := w;
      }
      assert forall x | CountsAs(rules, last, x) :: x == w;
    } else {
      v := w;
      var f :| f in findings && IsFor(rules, f, id);
      assert f == last;
    }
  }

  lemma StrongerStill(rules: PanelRules, findings: seq<PredictedFinding>, id: Identity, v: Vote, w: Vote)
    requires Strongest(rules, findings, id, v) && Weaker(v, w)
    ensures forall f, x | f in findings && IsFor(rules, f, id) && CountsAs(rules, f, x) :: !Weaker(w, x)
  {
    hide Weaker;
    forall f, x | f in findings && IsFor(rules, f, id) && CountsAs(rules, f, x) ensures !Weaker(w, x) {
      WeakerIsTransitive(v, w, x);
    }
  }

  function IdentityKeys(ids: seq<Identity>): seq<Key> {
    seq(|ids|, i requires 0 <= i < |ids| => IdentityKey(ids[i]))
  }

  function FromKey(k: Key): Identity
    requires |k| == 4 && k[0].Text? && k[1].Text? && k[2].Flag? && k[3].Number?
  {
    Identity(k[0].s, k[1].s, if k[2].b then None else Some(k[3].n))
  }

  ghost predicate AllIdentityKeys(keys: seq<Key>) {
    forall i | 0 <= i < |keys| ::
      |keys[i]| == 4 && keys[i][0].Text? && keys[i][1].Text? && keys[i][2].Flag? && keys[i][3].Number?
      && keys[i] == IdentityKey(FromKey(keys[i]))
  }

  method SortIdentities(ids: set<Identity>) returns (order: seq<Identity>)
    ensures Sorted(IdentityKeys(order)) && forall id :: id in order <==> id in ids
  {
    hide KeyBefore, Sorted;
    var keys: seq<Key> := [];
    var remaining := ids;
    EmptyIsSorted();
    while remaining != {}
      invariant remaining <= ids && Sorted(keys) && AllIdentityKeys(keys)
      invariant forall id :: IdentityKey(id) in keys <==> id in ids && id !in remaining
      decreases |remaining|
    {
      var id :| id in remaining;
      KeysShapedLike(id, keys);
      var was := keys;
      keys := InsertKey(keys, IdentityKey(id));
      remaining := remaining - {id};
      KeysGrow(was, id, keys);
    }
    order := seq(|keys|, i requires 0 <= i < |keys| => FromKey(keys[i]));
    assert IdentityKeys(order) == keys;
    forall id ensures id in order <==> IdentityKey(id) in keys {
      if IdentityKey(id) in keys {
        var i :| 0 <= i < |keys| && keys[i] == IdentityKey(id);
        IdentityKeyIsInjective(id, order[i]);
      }
      if id in order {
        var i :| 0 <= i < |order| && order[i] == id;
        assert keys[i] == IdentityKey(id);
      }
    }
  }

  lemma KeysShapedLike(id: Identity, keys: seq<Key>)
    requires AllIdentityKeys(keys)
    ensures ShapedLike(IdentityKey(id), keys)
  {
  }

  lemma KeysGrow(keys: seq<Key>, id: Identity, more: seq<Key>)
    requires AllIdentityKeys(keys) && forall k :: k in more <==> k in keys || k == IdentityKey(id)
    ensures AllIdentityKeys(more)
    ensures forall other :: IdentityKey(other) in more <==> IdentityKey(other) in keys || other == id
  {
    forall i | 0 <= i < |more| ensures exists x :: more[i] == IdentityKey(x) {
      assert more[i] in more;
      if more[i] in keys {
        var j :| 0 <= j < |keys| && keys[j] == more[i];
        assert more[i] == IdentityKey(FromKey(keys[j]));
      } else {
        assert more[i] == IdentityKey(id);
      }
    }
    forall other ensures IdentityKey(other) == IdentityKey(id) <==> other == id {
      if IdentityKey(other) == IdentityKey(id) {
        IdentityKeyIsInjective(other, id);
      }
    }
  }

  /** Main result: the panel lists exactly the identities with enough ballots, with the right entries, in order. */
  method PanelFindings(rules: PanelRules, members: seq<seq<PredictedFinding>>, quorum: int)
    returns (panel: seq<PredictedFinding>)
    ensures IsPanel(rules, members, quorum, panel)
  {
    var boxes: map<Identity, seq<Vote>> := map[];
    for m := 0 to |members|
      invariant RightBoxes(rules, members[..m], boxes)
    {
      boxes := CastVotes(rules, members[..m], members[m], boxes);
      assert members[..m + 1] == members[..m] + [members[m]];
    }
    assert members[..|members|] == members;
    var order := SortIdentities(boxes.Keys);
    panel := ListPanel(rules, members, quorum, boxes, order);
  }

  /** The listed findings so far: identities of `order[..n]` with enough ballots. */
  ghost predicate ListedSoFar(rules: PanelRules, members: seq<seq<PredictedFinding>>, quorum: int,
                              order: seq<Identity>, n: nat, panel: seq<PredictedFinding>)
    requires n <= |order|
  {
    && Sorted(Keys(panel))
    && (forall f | f in panel ::
         Listed(f) in order[..n] && PanelEntry(Listed(f), Ballots(rules, members, Listed(f)), f))
    && (forall id | id in order[..n] && InPanel(rules, members, quorum, id) ::
         exists f :: f in panel && Listed(f) == id)
    && (forall f | f in panel :: InPanel(rules, members, quorum, Listed(f)))
  }

  method ListPanel(rules: PanelRules, ghost members: seq<seq<PredictedFinding>>, quorum: int,
                   boxes: map<Identity, seq<Vote>>, order: seq<Identity>)
    returns (panel: seq<PredictedFinding>)
    requires RightBoxes(rules, members, boxes)
    requires Sorted(IdentityKeys(order)) && forall id :: id in order <==> id in boxes
    ensures IsPanel(rules, members, quorum, panel)
  {
    hide KeyBefore, IdentityKey, Ballots, PanelSeverity, InPanelOrder;
    panel := [];
    for n := 0 to |order|
      invariant ListedSoFar(rules, members, quorum, order, n, panel)
    {
      var id := order[n];
      assert id in order;
      var votes := boxes[id];
      if |votes| < quorum {
        SkipIdentity(rules, members, quorum, order, n, panel);
        continue;
      }
      var severity := MostCommon(votes);
      var mean := MeanConfidence(votes);
      var entry := PredictedFinding(severity, id.category, id.file, id.line, mean);
      ListOneMore(rules, members, quorum, order, n, panel, entry);
      panel := panel + [entry];
    }
    assert order[..|order|] == order;
    PanelOrderMeans(panel);
  }

  lemma SkipIdentity(rules: PanelRules, members: seq<seq<PredictedFinding>>, quorum: int,
                     order: seq<Identity>, n: nat, panel: seq<PredictedFinding>)
    requires n < |order| && ListedSoFar(rules, members, quorum, order, n, panel)
    requires !InPanel(rules, members, quorum, order[n])
    ensures ListedSoFar(rules, members, quorum, order, n + 1, panel)
  {
    hide Ballots, InPanel, PanelEntry, Sorted;
    assert order[..n + 1] == order[..n] + [order[n]];
  }

  lemma ListOneMore(rules: PanelRules, members: seq<seq<PredictedFinding>>, quorum: int,
                    order: seq<Identity>, n: nat, panel: seq<PredictedFinding>, entry: PredictedFinding)
    requires n < |order| && ListedSoFar(rules, members, quorum, order, n, panel) && Sorted(IdentityKeys(order))
    requires Listed(entry) == order[n] && InPanel(rules, members, quorum, order[n])
    requires PanelEntry(order[n], Ballots(rules, members, order[n]), entry)
    ensures ListedSoFar(rules, members, quorum, order, n + 1, panel + [entry])
  {
    hide Ballots, InPanel, PanelEntry, KeyBefore, IdentityKey;
    assert order[..n + 1] == order[..n] + [order[n]];
    var all := panel + [entry];
    forall i, j | 0 <= i < j < |all| ensures KeyBefore(Keys(all)[i], Keys(all)[j]) {
      if j < |panel| {
        assert Keys(all)[i] == Keys(panel)[i] && Keys(all)[j] == Keys(panel)[j];
      } else {
        assert panel[i] in panel;
        var k :| 0 <= k < n && order[..n][k] == Listed(panel[i]);
        assert KeyBefore(IdentityKeys(order)[k], IdentityKeys(order)[n]);
      }
    }
    forall id | id in order[..n + 1] && InPanel(rules, members, quorum, id)
      ensures exists f :: f in all && Listed(f) == id
    {
      if id in order[..n] {
        var f :| f in panel && Listed(f) == id;
        assert f in all;
      } else {
        assert entry in all;
      }
    }
  }
}
