/** The lifecycle of a governed run, as the audit verifier checks it: which events, how often, in which order. */
module Lifecycle {
  import opened AuditChain
  import opened ItemLists

  const REQUIRED: seq<EventType> :=
    [EvaluationRequested, PolicyAdmitted, AgentStarted, AgentCompleted, CleanupCompleted, OutcomeDecided, RunCompleted]

  const STAGES: seq<EventType> := [EvaluationStarted, TestsCompleted, ScannersCompleted]

  // ----- What the check is for -----

  /** Event `t` happens at `i` and at no other time. */
  ghost predicate OnceAt(events: seq<EventType>, t: EventType, i: int) {
    0 <= i < |events| && events[i] == t && forall j | 0 <= j < |events| && j != i :: events[j] != t
  }

  /** The seven events of every governed run, with `c` and `k` the end of the agent and of the cleanup. */
  ghost predicate Framed(events: seq<EventType>, c: int, k: int) {
    var n := |events|;
    && OnceAt(events, EvaluationRequested, 0) && OnceAt(events, PolicyAdmitted, 1) && OnceAt(events, AgentStarted, 2)
    && OnceAt(events, AgentCompleted, c) && OnceAt(events, CleanupCompleted, k) && 2 < c < k < n - 2
    && OnceAt(events, OutcomeDecided, n - 2) && OnceAt(events, RunCompleted, n - 1)
  }

  /** An evaluation that failed says so once, after it started. */
  ghost predicate FailedInOrder(events: seq<EventType>, s: int, f: int) {
    0 <= s < f < |events| - 2 && events[s] == EvaluationStarted && OnceAt(events, EvaluationFailed, f)
  }

  /** One judge event, completed or skipped, at `j`. */
  ghost predicate JudgedAt(events: seq<EventType>, j: int) {
    || (OnceAt(events, JudgeCompleted, j) && JudgeSkipped !in events)
    || (OnceAt(events, JudgeSkipped, j) && JudgeCompleted !in events)
  }

  /** An evaluation that ran to its end goes through its four stages once each, after the cleanup at `k`. */
  ghost predicate EvaluatedInOrder(events: seq<EventType>, k: int, s: int, t: int, q: int, j: int) {
    && OnceAt(events, EvaluationStarted, s) && OnceAt(events, TestsCompleted, t) && OnceAt(events, ScannersCompleted, q)
    && JudgedAt(events, j) && k < s < t < q < j < |events| - 2
  }

  /** What the check should accept. */
  ghost predicate WellOrdered(events: seq<EventType>) {
    exists c, k ::
      && Framed(events, c, k)
      && (EvaluationStarted in events ==>
            if EvaluationFailed in events then exists s, f :: FailedInOrder(events, s, f)
            else exists s, t, q, j :: EvaluatedInOrder(events, k, s, t, q, j))
  }

  // ----- Counting and finding, as the check does -----

  function Count(events: seq<EventType>, t: EventType): nat {
    multiset(events)[t]
  }

  function IndexOf(events: seq<EventType>, t: EventType): (i: nat)
    requires t in events
    ensures i < |events| && events[i] == t && t !in events[..i]
  {
    if events[0] == t then 0 else IndexOf(events[1..], t) + 1
  }

  lemma CountAround(before: seq<EventType>, t: EventType, after: seq<EventType>)
    ensures Count(before + [t] + after, t) == Count(before, t) + 1 + Count(after, t)
  {
  }

  lemma CountedIfThere(events: seq<EventType>, t: EventType)
    ensures Count(events, t) == 0 <==> t !in events
  {
  }

  lemma OnceAround(before: seq<EventType>, t: EventType, after: seq<EventType>)
    ensures OnceAt(before + [t] + after, t, |before|) <==> t !in before && t !in after
  {
    var events := before + [t] + after;
    assert forall j | 0 <= j < |before| :: events[j] == before[j];
    assert forall j | 0 <= j < |after| :: events[|before| + 1 + j] == after[j];
    assert forall j | |before| < j < |events| :: events[j] == after[j - |before| - 1];
  }

  lemma CountedOnce(events: seq<EventType>, t: EventType)
    ensures Count(events, t) == 1 <==> t in events && OnceAt(events, t, IndexOf(events, t))
    ensures Count(events, t) == 0 <==> t !in events
  {
    hide Count, OnceAt, IndexOf;
    CountedIfThere(events, t);
    if t in events {
      var i := IndexOf(events, t);
      var before, after := events[..i], events[i + 1..];
      assert events == before + [t] + after;
      CountAround(before, t, after);
      CountedIfThere(before, t);
      CountedIfThere(after, t);
      OnceAround(before, t, after);
    }
  }

  /** The first position of an event is the position before which it does not occur. */
  lemma SameIndex(events: seq<EventType>, t: EventType, i: nat)
    requires i < |events| && events[i] == t && forall j | 0 <= j < i :: events[j] != t
    ensures IndexOf(events, t) == i
  {
    var first := IndexOf(events, t);
    assert forall j | 0 <= j < first :: events[..first][j] != t;
  }

  lemma {:induction false} NotBeforeFirst(events: seq<EventType>, t: EventType, i: nat)
    requires i < |events| && events[i] == t
    ensures t in events && IndexOf(events, t) <= i
  {
    if events[0] != t {
      NotBeforeFirst(events[1..], t, i - 1);
    }
  }

  lemma OnceIsCounted(events: seq<EventType>, t: EventType, i: int)
    requires OnceAt(events, t, i)
    ensures t in events && Count(events, t) == 1 && IndexOf(events, t) == i
  {
    SameIndex(events, t, i);
    CountedOnce(events, t);
  }

  predicate NonDecreasing(positions: seq<nat>) {
    forall i, j | 0 <= i < j < |positions| :: positions[i] <= positions[j]
  }

  predicate StartsRight(events: seq<EventType>) {
    |events| >= 3 && events[..3] == REQUIRED[..3]
  }

  predicate EndsRight(events: seq<EventType>) {
    |events| >= 2 && events[|events| - 2..] == [OutcomeDecided, RunCompleted]
  }

  /** Each of these events happens once. */
  predicate AllOnce(events: seq<EventType>, types: seq<EventType>)
    ensures AllOnce(events, types) ==> forall i | 0 <= i < |types| :: types[i] in events
  {
    assert forall i | 0 <= i < |types| && Count(events, types[i]) == 1 :: types[i] in events;
    forall i | 0 <= i < |types| :: Count(events, types[i]) == 1
  }

  function Positions(events: seq<EventType>, types: seq<EventType>): (positions: seq<nat>)
    requires forall t | t in types :: t in events
    ensures |positions| == |types| && forall i | 0 <= i < |types| :: positions[i] == IndexOf(events, types[i])
  {
    seq(|types|, i requires 0 <= i < |types| => IndexOf(events, types[i]))
  }

  /** The checks on the seven required events. */
  ghost predicate FrameChecks(events: seq<EventType>) {
    && StartsRight(events) && AllOnce(events, REQUIRED) && NonDecreasing(Positions(events, REQUIRED))
    && EndsRight(events)
  }

  lemma OnceIfAllOnce(events: seq<EventType>, types: seq<EventType>, i: nat)
    requires AllOnce(events, types) && i < |types|
    ensures types[i] in events && OnceAt(events, types[i], IndexOf(events, types[i]))
  {
    hide Count, OnceAt, IndexOf;
    CountedOnce(events, types[i]);
  }

  lemma InOrder(events: seq<EventType>, types: seq<EventType>, i: nat, j: nat)
    requires AllOnce(events, types) && NonDecreasing(Positions(events, types)) && i < j < |types|
    ensures types[i] in events && types[j] in events && IndexOf(events, types[i]) <= IndexOf(events, types[j])
  {
    hide Count, IndexOf;
    assert Positions(events, types)[i] <= Positions(events, types)[j];
  }

  /** What happens once happens where it is seen. */
  lemma OnceHere(events: seq<EventType>, t: EventType, i: int, at: int)
    requires OnceAt(events, t, i) && 0 <= at < |events| && events[at] == t
    ensures i == at
  {
  }

  lemma RequiredOnce(events: seq<EventType>, t: EventType)
    requires AllOnce(events, REQUIRED) && t in REQUIRED
    ensures t in events && OnceAt(events, t, IndexOf(events, t))
  {
    hide AllOnce, OnceAt, IndexOf;
    var i :| 0 <= i < |REQUIRED| && REQUIRED[i] == t;
    OnceIfAllOnce(events, REQUIRED, i);
  }

  lemma RequiredInOrder(events: seq<EventType>)
    requires AllOnce(events, REQUIRED) && NonDecreasing(Positions(events, REQUIRED))
    ensures AgentStarted in events && AgentCompleted in events && CleanupCompleted in events && OutcomeDecided in events
    ensures IndexOf(events, AgentStarted) <= IndexOf(events, AgentCompleted) <= IndexOf(events, CleanupCompleted)
    ensures IndexOf(events, CleanupCompleted) <= IndexOf(events, OutcomeDecided)
  {
    hide AllOnce, NonDecreasing, Positions, IndexOf;
    InOrder(events, REQUIRED, 2, 3);
    InOrder(events, REQUIRED, 3, 4);
    InOrder(events, REQUIRED, 4, 5);
  }

  /** The events at both ends are where the checks on the ends see them. */
  lemma EndsAreOnce(events: seq<EventType>)
    requires AllOnce(events, REQUIRED) && StartsRight(events) && EndsRight(events)
    ensures var n := |events|;
      && OnceAt(events, EvaluationRequested, 0) && OnceAt(events, PolicyAdmitted, 1) && OnceAt(events, AgentStarted, 2)
      && OnceAt(events, OutcomeDecided, n - 2) && OnceAt(events, RunCompleted, n - 1)
  {
    hide AllOnce, OnceAt, IndexOf;
    var n := |events|;
    assert events[..3][0] == EvaluationRequested && events[..3][1] == PolicyAdmitted && events[..3][2] == AgentStarted;
    assert events[n - 2..][0] == OutcomeDecided && events[n - 2..][1] == RunCompleted;
    RequiredOnceHere(events, EvaluationRequested, 0);
    RequiredOnceHere(events, PolicyAdmitted, 1);
    RequiredOnceHere(events, AgentStarted, 2);
    RequiredOnceHere(events, OutcomeDecided, n - 2);
    RequiredOnceHere(events, RunCompleted, n - 1);
  }

  lemma RequiredOnceHere(events: seq<EventType>, t: EventType, at: int)
    requires AllOnce(events, REQUIRED) && t in REQUIRED && 0 <= at < |events| && events[at] == t
    ensures OnceAt(events, t, at)
  {
    hide AllOnce, OnceAt, IndexOf;
    RequiredOnce(events, t);
    OnceHere(events, t, IndexOf(events, t), at);
  }

  lemma FrameChecksMean(events: seq<EventType>)
    requires FrameChecks(events)
    ensures exists c, k :: Framed(events, c, k)
  {
    hide AllOnce, NonDecreasing, Positions, IndexOf, OnceAt, StartsRight, EndsRight;
    var n := |events|;
    EndsAreOnce(events);
    RequiredInOrder(events);
    RequiredOnce(events, AgentCompleted);
    RequiredOnce(events, CleanupCompleted);
    var c, k := IndexOf(events, AgentCompleted), IndexOf(events, CleanupCompleted);
    FoundThere(events);
    OnceHere(events, AgentStarted, 2, IndexOf(events, AgentStarted));
    OnceHere(events, OutcomeDecided, n - 2, IndexOf(events, OutcomeDecided));
    assert Framed(events, c, k) by { DistinctPlaces(events, c, k); }
  }

  lemma DistinctPlaces(events: seq<EventType>, c: int, k: int)
    requires OnceAt(events, AgentStarted, 2) && OnceAt(events, AgentCompleted, c) && OnceAt(events, CleanupCompleted, k)
    requires OnceAt(events, OutcomeDecided, |events| - 2)
    ensures c != 2 && c != k && k != |events| - 2
  {
  }

  lemma FoundThere(events: seq<EventType>)
    ensures forall t | t in events :: events[IndexOf(events, t)] == t
  {
  }

  /** Events each of which is first seen after the one before. */
  ghost predicate InSteps(events: seq<EventType>, types: seq<EventType>) {
    && (forall i | 0 <= i < |types| :: types[i] in events)
    && (forall i | 0 <= i < |types| - 1 :: IndexOf(events, types[i]) < IndexOf(events, types[i + 1]))
  }

  lemma {:induction false} StepsRise(events: seq<EventType>, types: seq<EventType>, i: nat, j: nat)
    requires InSteps(events, types) && i < j < |types|
    ensures IndexOf(events, types[i]) < IndexOf(events, types[j])
  {
    hide IndexOf;
    if i < j - 1 {
      StepsRise(events, types, i, j - 1);
    }
    assert IndexOf(events, types[j - 1]) < IndexOf(events, types[j - 1 + 1]);
  }

  lemma StepsAreInOrder(events: seq<EventType>, types: seq<EventType>)
    requires InSteps(events, types)
    ensures NonDecreasing(Positions(events, types))
  {
    hide IndexOf;
    assert forall t | t in types :: t in events;
    hide InSteps;
    forall i, j | 0 <= i < j < |types| ensures Positions(events, types)[i] <= Positions(events, types)[j] {
      StepsRise(events, types, i, j);
    }
  }

  lemma FramedIsChecked(events: seq<EventType>, c: int, k: int)
    requires Framed(events, c, k)
    ensures FrameChecks(events)
  {
    hide Count, OnceAt, IndexOf, Positions, NonDecreasing;
    var n := |events|;
    OnceIsCounted(events, EvaluationRequested, 0);
    OnceIsCounted(events, PolicyAdmitted, 1);
    OnceIsCounted(events, AgentStarted, 2);
    OnceIsCounted(events, AgentCompleted, c);
    OnceIsCounted(events, CleanupCompleted, k);
    OnceIsCounted(events, OutcomeDecided, n - 2);
    OnceIsCounted(events, RunCompleted, n - 1);
    assert events[..3] == REQUIRED[..3];
    assert events[n - 2..] == [OutcomeDecided, RunCompleted];
    assert InSteps(events, REQUIRED);
    StepsAreInOrder(events, REQUIRED);
  }

  function JudgeType(events: seq<EventType>): EventType {
    if JudgeCompleted in events then JudgeCompleted else JudgeSkipped
  }

  /** The events of a complete evaluation, in their order. */
  function EvaluationOrder(events: seq<EventType>): seq<EventType> {
    [CleanupCompleted, EvaluationStarted, TestsCompleted, ScannersCompleted, JudgeType(events), OutcomeDecided]
  }

  /** The checks on the evaluation, for events that end with a decision. */
  ghost predicate EvaluationChecks(events: seq<EventType>)
    requires OutcomeDecided in events
  {
    EvaluationStarted in events ==>
      if EvaluationFailed in events then
        && Count(events, EvaluationFailed) == 1
        && IndexOf(events, EvaluationStarted) < IndexOf(events, EvaluationFailed) < IndexOf(events, OutcomeDecided)
      else
        && AllOnce(events, STAGES)
        && Count(events, JudgeCompleted) + Count(events, JudgeSkipped) == 1
        && AllOnce(events, EvaluationOrder(events))
        && NonDecreasing(Positions(events, EvaluationOrder(events)))
  }

  lemma JudgeCounted(events: seq<EventType>)
    ensures Count(events, JudgeCompleted) + Count(events, JudgeSkipped) == 1
      <==> exists j :: JudgedAt(events, j)
    ensures forall j | JudgedAt(events, j) :: OnceAt(events, JudgeType(events), j)
    ensures Count(events, JudgeCompleted) + Count(events, JudgeSkipped) == 1 ==> AllOnce(events, [JudgeType(events)])
  {
    CountedOnce(events, JudgeCompleted);
    CountedOnce(events, JudgeSkipped);
    if Count(events, JudgeCompleted) + Count(events, JudgeSkipped) == 1 {
      assert JudgedAt(events, IndexOf(events, JudgeType(events)));
    }
    forall j | JudgedAt(events, j) ensures Count(events, JudgeCompleted) + Count(events, JudgeSkipped) == 1 {
      OnceIsCounted(events, JudgeType(events), j);
    }
  }

  lemma FailureChecked(events: seq<EventType>, c: int, k: int)
    requires Framed(events, c, k) && EvaluationStarted in events && EvaluationFailed in events
    ensures OutcomeDecided in events && (EvaluationChecks(events) <==> exists s, f :: FailedInOrder(events, s, f))
  {
    hide Count;
    var first := IndexOf(events, EvaluationStarted);
    OnceIsCounted(events, OutcomeDecided, |events| - 2);
    CountedOnce(events, EvaluationFailed);
    assert EvaluationChecks(events) ==> FailedInOrder(events, first, IndexOf(events, EvaluationFailed));
    forall s, f | FailedInOrder(events, s, f) ensures EvaluationChecks(events) {
      OnceIsCounted(events, EvaluationFailed, f);
      NotBeforeFirst(events, EvaluationStarted, s);
    }
  }

  lemma OrderedIsChecked(events: seq<EventType>, c: int, k: int, s: int, t: int, q: int, j: int)
    requires Framed(events, c, k) && EvaluationFailed !in events && EvaluatedInOrder(events, k, s, t, q, j)
    ensures OutcomeDecided in events && EvaluationChecks(events)
  {
    hide Count, OnceAt, IndexOf, JudgeType, JudgedAt, NonDecreasing, Positions;
    OnceIsCounted(events, CleanupCompleted, k);
    OnceIsCounted(events, EvaluationStarted, s);
    OnceIsCounted(events, TestsCompleted, t);
    OnceIsCounted(events, ScannersCompleted, q);
    JudgeCounted(events);
    OnceIsCounted(events, JudgeType(events), j);
    OnceIsCounted(events, OutcomeDecided, |events| - 2);
    var order := EvaluationOrder(events);
    assert order[0] == CleanupCompleted && order[1] == EvaluationStarted && order[2] == TestsCompleted;
    assert order[3] == ScannersCompleted && order[4] == JudgeType(events) && order[5] == OutcomeDecided;
    assert InSteps(events, order);
    StepsAreInOrder(events, order);
  }

  lemma CheckedIsOrdered(events: seq<EventType>, c: int, k: int)
    requires Framed(events, c, k) && EvaluationStarted in events && EvaluationFailed !in events
    requires OutcomeDecided in events && EvaluationChecks(events)
    ensures exists s, t, q, j :: EvaluatedInOrder(events, k, s, t, q, j)
  {
    hide Count;
    var order := EvaluationOrder(events);
    var p := Positions(events, order);
    forall i | 0 <= i < |order| ensures OnceAt(events, order[i], p[i]) {
      CountedOnce(events, order[i]);
    }
    JudgeCounted(events);
    assert OnceAt(events, order[0], p[0]) && OnceAt(events, order[1], p[1]) && OnceAt(events, order[2], p[2]);
    assert OnceAt(events, order[3], p[3]) && OnceAt(events, order[4], p[4]) && OnceAt(events, order[5], p[5]);
    assert EvaluatedInOrder(events, k, p[1], p[2], p[3], p[4]);
  }

  /** What the checks together accept. */
  lemma ChecksMean(events: seq<EventType>)
    ensures FrameChecks(events) && OutcomeDecided in events && EvaluationChecks(events) <==> WellOrdered(events)
  {
    hide FrameChecks, EvaluationChecks, Framed, EvaluatedInOrder, FailedInOrder;
    if FrameChecks(events) && OutcomeDecided in events && EvaluationChecks(events) {
      FrameChecksMean(events);
      var c, k :| Framed(events, c, k);
      if EvaluationStarted in events {
        if EvaluationFailed in events {
          FailureChecked(events, c, k);
        } else {
          CheckedIsOrdered(events, c, k);
        }
      }
    }
    if WellOrdered(events) {
      var c, k :|
        && Framed(events, c, k)
        && (EvaluationStarted in events ==>
              if EvaluationFailed in events then exists s, f :: FailedInOrder(events, s, f)
              else exists s, t, q, j :: EvaluatedInOrder(events, k, s, t, q, j));
      FramedIsChecked(events, c, k);
      WellOrderedIsChecked(events, c, k);
    }
  }

  lemma WellOrderedIsChecked(events: seq<EventType>, c: int, k: int)
    requires Framed(events, c, k)
    requires EvaluationStarted in events ==>
              if EvaluationFailed in events then exists s, f :: FailedInOrder(events, s, f)
              else exists s, t, q, j :: EvaluatedInOrder(events, k, s, t, q, j)
    ensures OutcomeDecided in events && EvaluationChecks(events)
  {
    hide EvaluatedInOrder, FailedInOrder;
    OnceIsCounted(events, OutcomeDecided, |events| - 2);
    if EvaluationStarted in events {
      if EvaluationFailed in events {
        FailureChecked(events, c, k);
      } else {
        var s, t, q, j :| EvaluatedInOrder(events, k, s, t, q, j);
        OrderedIsChecked(events, c, k, s, t, q, j);
      }
    }
  }

  // ----- What is reported -----

  datatype Fault =
    | WrongStart | NotOnce(event: EventType) | OutOfOrder | WrongEnd | FailureNotOnce | FailureOutOfOrder
    | StageNotOnce(stage: EventType) | JudgeNotOnce | StagesOutOfOrder | NoDecision

  ghost predicate HappensOnce(events: seq<EventType>, t: EventType) {
    exists i :: OnceAt(events, t, i)
  }

  /** Two of these events happen once each, and the later one of the list happens first. */
  ghost predicate Misordered(events: seq<EventType>, types: seq<EventType>) {
    exists i, j, p, q ::
      0 <= i < j < |types| && OnceAt(events, types[i], p) && OnceAt(events, types[j], q) && q < p
  }

  /** Event `t` happens at some time before `f`. */
  ghost predicate Before(events: seq<EventType>, t: EventType, f: int) {
    exists s :: 0 <= s < f && s < |events| && events[s] == t
  }

  /** An evaluation that failed at `f` does so after its start and before any decision. */
  ghost predicate FailsInTime(events: seq<EventType>, f: int) {
    Before(events, EvaluationStarted, f) && !Before(events, OutcomeDecided, f)
  }

  /** The check cannot place a failure that comes after its start, because there is no decision to compare it with. */
  ghost predicate Breaks(events: seq<EventType>) {
    OutcomeDecided !in events && exists f :: OnceAt(events, EvaluationFailed, f) && Before(events, EvaluationStarted, f)
  }

  /** A lifecycle has this fault. */
  ghost predicate HasFault(events: seq<EventType>, fault: Fault) {
    var failed := EvaluationStarted in events && EvaluationFailed in events;
    var ended := EvaluationStarted in events && EvaluationFailed !in events;
    match fault
    case WrongStart => !([EvaluationRequested, PolicyAdmitted, AgentStarted] <= events)
    case NotOnce(t) => t in REQUIRED && !HappensOnce(events, t)
    case OutOfOrder => (forall t | t in REQUIRED :: HappensOnce(events, t)) && Misordered(events, REQUIRED)
    case WrongEnd => forall front :: events != front + [OutcomeDecided, RunCompleted]
    case FailureNotOnce => failed && !HappensOnce(events, EvaluationFailed)
    case FailureOutOfOrder => failed && exists f :: OnceAt(events, EvaluationFailed, f) && !FailsInTime(events, f)
    case StageNotOnce(t) => ended && t in STAGES && !HappensOnce(events, t)
    case JudgeNotOnce => ended && forall j :: !JudgedAt(events, j)
    case StagesOutOfOrder =>
      && ended && (exists j :: JudgedAt(events, j))
      && (forall t | t in [CleanupCompleted] + STAGES + [OutcomeDecided] :: HappensOnce(events, t))
      && Misordered(events, EvaluationOrder(events))
    case NoDecision => false
  }

  ghost function FaultsOf(events: seq<EventType>): Fault -> bool {
    fault => HasFault(events, fault)
  }

  ghost function EventPlace(t: EventType): nat {
    match t
    case EvaluationRequested => 0
    case PolicyAdmitted => 1
    case AgentStarted => 2
    case AgentCompleted => 3
    case CleanupCompleted => 4
    case OutcomeDecided => 5
    case RunCompleted => 6
    case EvaluationStarted => 0
    case TestsCompleted => 1
    case ScannersCompleted => 2
    case _ => 0
  }

  /** Where a fault stands in the order of the check. */
  ghost function Place(fault: Fault): nat {
    match fault
    case WrongStart => 0
    case NotOnce(t) => 1 + EventPlace(t)
    case OutOfOrder => 8
    case WrongEnd => 9
    case FailureNotOnce => 10
    case FailureOutOfOrder => 11
    case StageNotOnce(t) => 12 + EventPlace(t)
    case JudgeNotOnce => 15
    case StagesOutOfOrder => 16
    case NoDecision => 17
  }

  lemma FaultsStandAlone(events: seq<EventType>, fault: Fault)
    requires HasFault(events, fault) || fault.NotOnce? || fault.StageNotOnce?
    requires fault.NotOnce? ==> fault.event in REQUIRED
    requires fault.StageNotOnce? ==> fault.stage in STAGES
    ensures Alone(FaultsOf(events), Place, fault)
  {
    hide HappensOnce, Misordered, FailsInTime, JudgedAt;
    forall x | HasFault(events, x) && Place(x) == Place(fault) ensures x == fault {
      OnePlace(events, x);
      OneFault(x, fault);
    }
  }

  /** A fault that a lifecycle can have. */
  ghost predicate CanBe(fault: Fault) {
    (fault.NotOnce? ==> fault.event in REQUIRED) && (fault.StageNotOnce? ==> fault.stage in STAGES)
  }

  lemma OnePlace(events: seq<EventType>, fault: Fault)
    requires HasFault(events, fault)
    ensures CanBe(fault)
  {
  }

  lemma OneFault(x: Fault, y: Fault)
    requires CanBe(x) && CanBe(y) && Place(x) == Place(y)
    ensures x == y
  {
    hide EventPlace;
    forall t | t in REQUIRED ensures EventPlace(t) < 7 && REQUIRED[EventPlace(t)] == t {
      RequiredPlace(t);
    }
    forall t | t in STAGES ensures EventPlace(t) < 3 && STAGES[EventPlace(t)] == t {
      StagePlace(t);
    }
  }

  lemma RequiredPlace(t: EventType)
    requires t in REQUIRED
    ensures EventPlace(t) < 7 && REQUIRED[EventPlace(t)] == t
  {
  }

  lemma StagePlace(t: EventType)
    requires t in STAGES
    ensures EventPlace(t) < 3 && STAGES[EventPlace(t)] == t
  {
  }

  lemma CountMeans(events: seq<EventType>, t: EventType)
    ensures Count(events, t) == 1 <==> HappensOnce(events, t)
  {
    hide Count;
    CountedOnce(events, t);
    forall i | OnceAt(events, t, i) ensures Count(events, t) == 1 {
      OnceIsCounted(events, t, i);
    }
  }

  lemma AllOnceMeans(events: seq<EventType>, types: seq<EventType>)
    ensures AllOnce(events, types) <==> forall t | t in types :: HappensOnce(events, t)
  {
    hide Count, HappensOnce;
    forall t ensures Count(events, t) == 1 <==> HappensOnce(events, t) {
      CountMeans(events, t);
    }
  }

  lemma OrderMeans(events: seq<EventType>, types: seq<EventType>)
    requires AllOnce(events, types)
    ensures NonDecreasing(Positions(events, types)) <==> !Misordered(events, types)
  {
    hide Count, OnceAt;
    var positions := Positions(events, types);
    forall i | 0 <= i < |types| ensures OnceAt(events, types[i], positions[i]) {
      OnceIfAllOnce(events, types, i);
    }
    if !NonDecreasing(positions) {
      var i, j :| 0 <= i < j < |positions| && positions[i] > positions[j];
      assert OnceAt(events, types[i], positions[i]) && OnceAt(events, types[j], positions[j]);
    }
    forall i, j, p, q | 0 <= i < j < |types| && OnceAt(events, types[i], p) && OnceAt(events, types[j], q) && q < p
      ensures !NonDecreasing(positions)
    {
      OneTime(events, types[i], p, positions[i]);
      OneTime(events, types[j], q, positions[j]);
    }
  }

  lemma OneTime(events: seq<EventType>, t: EventType, p: int, q: int)
    requires OnceAt(events, t, p) && OnceAt(events, t, q)
    ensures p == q
  {
  }

  lemma BeforeMeans(events: seq<EventType>, t: EventType, f: int)
    ensures Before(events, t, f) <==> t in events && IndexOf(events, t) < f
  {
    hide IndexOf;
    if Before(events, t, f) {
      var s :| 0 <= s < f && s < |events| && events[s] == t;
      NotBeforeFirst(events, t, s);
    }
    FoundThere(events);
  }

  lemma StartMeans(events: seq<EventType>)
    ensures StartsRight(events) <==> [EvaluationRequested, PolicyAdmitted, AgentStarted] <= events
  {
    assert REQUIRED[..3] == [EvaluationRequested, PolicyAdmitted, AgentStarted];
  }

  lemma EndMeans(events: seq<EventType>)
    ensures EndsRight(events) <==> exists front :: events == front + [OutcomeDecided, RunCompleted]
  {
    var n := |events|;
    if EndsRight(events) {
      assert events == events[..n - 2] + events[n - 2..];
    }
    forall front | events == front + [OutcomeDecided, RunCompleted] ensures EndsRight(events) {
      assert events[n - 2..] == [OutcomeDecided, RunCompleted];
    }
  }

  // ----- The check itself -----

  /** The counts and first positions of the required events. */
  method RequiredPositions(events: seq<EventType>) returns (failures: seq<Fault>, positions: seq<nat>)
    ensures Lists(failures, FaultsOf(events), Place, 1, 8)
    ensures if AllOnce(events, REQUIRED) then positions == Positions(events, REQUIRED) else |positions| < |REQUIRED|
  {
    hide Count, Lists, HasFault, Place;
    failures, positions := [], [];
    NothingYet(events, 1);
    for i := 0 to |REQUIRED|
      invariant Lists(failures, FaultsOf(events), Place, 1, 1 + i)
      invariant if AllOnce(events, REQUIRED[..i]) then positions == Positions(events, REQUIRED[..i])
        else |positions| < i
      invariant |positions| <= i
    {
      NextRequired(events, failures, i);
      OneMoreOnce(events, REQUIRED[..i], REQUIRED[i]);
      assert REQUIRED[..i + 1] == REQUIRED[..i] + [REQUIRED[i]];
      if Count(events, REQUIRED[i]) != 1 {
        failures := failures + [NotOnce(REQUIRED[i])];
      } else {
        CountedOnce(events, REQUIRED[i]);
        positions := positions + [IndexOf(events, REQUIRED[i])];
      }
    }
    assert REQUIRED[..|REQUIRED|] == REQUIRED;
  }

  lemma OneMoreOnce(events: seq<EventType>, types: seq<EventType>, t: EventType)
    ensures AllOnce(events, types + [t]) <==> AllOnce(events, types) && Count(events, t) == 1
    ensures AllOnce(events, types + [t]) ==>
      Positions(events, types + [t]) == Positions(events, types) + [IndexOf(events, t)]
  {
    hide Count, IndexOf;
    var more := types + [t];
    assert more[|types|] == t;
    assert forall i | 0 <= i < |types| :: more[i] == types[i];
  }

  lemma NothingYet(events: seq<EventType>, place: nat)
    ensures Lists([], FaultsOf(events), Place, place, place)
  {
  }

  lemma NextRequired(events: seq<EventType>, failures: seq<Fault>, i: nat)
    requires i < |REQUIRED| && Lists(failures, FaultsOf(events), Place, 1, 1 + i)
    ensures var fault := NotOnce(REQUIRED[i]);
      Lists(if Count(events, REQUIRED[i]) != 1 then failures + [fault] else failures, FaultsOf(events), Place, 1, 2 + i)
  {
    hide Count, Lists, Alone;
    var has, fault := FaultsOf(events), NotOnce(REQUIRED[i]);
    CountMeans(events, REQUIRED[i]);
    FaultsStandAlone(events, fault);
    Single(has, Place, fault);
    Join(failures, ItemIf(has(fault), fault), has, Place, 1, 1 + i, 2 + i);
    assert failures + [] == failures;
  }

  lemma NextStage(events: seq<EventType>, failures: seq<Fault>, i: nat)
    requires i < |STAGES| && Lists(failures, FaultsOf(events), Place, 12, 12 + i)
    requires EvaluationStarted in events && EvaluationFailed !in events
    ensures var fault := StageNotOnce(STAGES[i]);
      Lists(if Count(events, STAGES[i]) != 1 then failures + [fault] else failures, FaultsOf(events), Place, 12, 13 + i)
  {
    hide Count, Lists, Alone;
    var has, fault := FaultsOf(events), StageNotOnce(STAGES[i]);
    CountMeans(events, STAGES[i]);
    FaultsStandAlone(events, fault);
    Single(has, Place, fault);
    Join(failures, ItemIf(has(fault), fault), has, Place, 12, 12 + i, 13 + i);
    assert failures + [] == failures;
  }

  /** The checks on a failed evaluation, unless there is no decision to compare its place with. */
  method FailureFaults(events: seq<EventType>) returns (failures: seq<Fault>, readable: bool)
    requires EvaluationStarted in events && EvaluationFailed in events
    ensures readable <==> !Breaks(events)
    ensures readable ==>
      failures == ItemIf(HasFault(events, FailureNotOnce), FailureNotOnce)
        + ItemIf(HasFault(events, FailureOutOfOrder), FailureOutOfOrder)
  {
    hide Count, IndexOf, Before;
    CountMeans(events, EvaluationFailed);
    CountedOnce(events, EvaluationFailed);
    var f := IndexOf(events, EvaluationFailed);
    forall i | OnceAt(events, EvaluationFailed, i) ensures i == f {
      OnceIsCounted(events, EvaluationFailed, i);
    }
    BeforeMeans(events, EvaluationStarted, f);
    BeforeMeans(events, OutcomeDecided, f);
    if Count(events, EvaluationFailed) != 1 {
      return [FailureNotOnce], true;
    }
    assert OnceAt(events, EvaluationFailed, f);
    if IndexOf(events, EvaluationStarted) >= f {
      return [FailureOutOfOrder], true;
    }
    if OutcomeDecided !in events {
      return [], false;
    }
    NotTheSame(events, OutcomeDecided, f);
    if f >= IndexOf(events, OutcomeDecided) {
      return [FailureOutOfOrder], true;
    }
    return [], true;
  }

  lemma NotTheSame(events: seq<EventType>, t: EventType, f: int)
    requires t in events && t != EvaluationFailed && 0 <= f < |events| && events[f] == EvaluationFailed
    ensures IndexOf(events, t) != f
  {
    FoundThere(events);
  }

  /** The checks on an evaluation that ran to its end. */
  method StageFaults(events: seq<EventType>) returns (failures: seq<Fault>)
    requires EvaluationStarted in events && EvaluationFailed !in events
    ensures Lists(failures, FaultsOf(events), Place, 12, 17)
  {
    hide Count, Lists, HasFault, Place, NonDecreasing, Alone, JudgedAt;
    failures := [];
    NothingYet(events, 12);
    for i := 0 to |STAGES|
      invariant Lists(failures, FaultsOf(events), Place, 12, 12 + i)
    {
      NextStage(events, failures, i);
      if Count(events, STAGES[i]) != 1 {
        failures := failures + [StageNotOnce(STAGES[i])];
      }
    }
    ghost var stages := failures;
    JudgeMeans(events);
    if Count(events, JudgeCompleted) + Count(events, JudgeSkipped) != 1 {
      failures := failures + [JudgeNotOnce];
    } else if AllOnce(events, [CleanupCompleted] + STAGES + [OutcomeDecided]) {
      AddedJudgeOnce(events);
      var positions := Positions(events, EvaluationOrder(events));
      if !NonDecreasing(positions) {
        failures := failures + [StagesOutOfOrder];
      }
    }
    ghost var rest := ItemIf(HasFault(events, JudgeNotOnce), JudgeNotOnce)
      + ItemIf(HasFault(events, StagesOutOfOrder), StagesOutOfOrder);
    Join(stages, rest, FaultsOf(events), Place, 12, 15, 17);
    assert failures == stages + rest;
  }

  /** The last two faults of an evaluation that ran to its end, and when they are there. */
  lemma JudgeMeans(events: seq<EventType>)
    requires EvaluationStarted in events && EvaluationFailed !in events
    ensures Count(events, JudgeCompleted) + Count(events, JudgeSkipped) != 1 <==> HasFault(events, JudgeNotOnce)
    ensures HasFault(events, StagesOutOfOrder) <==>
      && Count(events, JudgeCompleted) + Count(events, JudgeSkipped) == 1
      && AllOnce(events, [CleanupCompleted] + STAGES + [OutcomeDecided])
      && AllOnce(events, EvaluationOrder(events)) && !NonDecreasing(Positions(events, EvaluationOrder(events)))
    ensures Lists(ItemIf(HasFault(events, JudgeNotOnce), JudgeNotOnce)
                  + ItemIf(HasFault(events, StagesOutOfOrder), StagesOutOfOrder), FaultsOf(events), Place, 15, 17)
  {
    hide Count, JudgedAt, NonDecreasing, Misordered, Lists, Alone, HappensOnce;
    JudgeCounted(events);
    AllOnceMeans(events, [CleanupCompleted] + STAGES + [OutcomeDecided]);
    if AllOnce(events, EvaluationOrder(events)) {
      OrderMeans(events, EvaluationOrder(events));
    } else if Count(events, JudgeCompleted) + Count(events, JudgeSkipped) == 1
      && AllOnce(events, [CleanupCompleted] + STAGES + [OutcomeDecided]) {
      AddedJudgeOnce(events);
    }
    FaultsAlone(events, JudgeNotOnce);
    FaultsAlone(events, StagesOutOfOrder);
    Pair(FaultsOf(events), Place, JudgeNotOnce, StagesOutOfOrder);
  }

  /** A fault that names no event has its place for itself. */
  lemma FaultsAlone(events: seq<EventType>, fault: Fault)
    requires !fault.NotOnce? && !fault.StageNotOnce?
    ensures Alone(FaultsOf(events), Place, fault)
  {
    forall x | HasFault(events, x) && Place(x) == Place(fault) ensures x == fault {
      OnePlace(events, x);
      OneFault(x, fault);
    }
  }

  lemma AddedJudgeOnce(events: seq<EventType>)
    requires AllOnce(events, [CleanupCompleted] + STAGES + [OutcomeDecided])
    requires Count(events, JudgeCompleted) + Count(events, JudgeSkipped) == 1
    ensures AllOnce(events, EvaluationOrder(events))
  {
    hide Count;
    JudgeCounted(events);
    var known := [CleanupCompleted] + STAGES + [OutcomeDecided];
    assert known == [known[0], known[1], known[2], known[3], known[4]];
    assert [JudgeType(events)][0] == JudgeType(events);
  }

  /** The checks on the evaluation. */
  method EvaluationFaults(events: seq<EventType>) returns (failures: seq<Fault>, readable: bool)
    ensures readable <==> !Breaks(events)
    ensures readable ==> Lists(failures, FaultsOf(events), Place, 10, 17)
  {
    hide Count, Lists, HasFault;
    if EvaluationStarted in events && EvaluationFailed in events {
      failures, readable := FailureFaults(events);
      FailedFaults(events);
    } else {
      failures, readable := [], true;
      if EvaluationStarted in events {
        failures := StageFaults(events);
      }
      EndedFaults(events, failures);
    }
  }

  /** The faults of a failed evaluation are the two at places 10 and 11. */
  lemma FailedFaults(events: seq<EventType>)
    requires EvaluationStarted in events && EvaluationFailed in events
    ensures Lists(ItemIf(HasFault(events, FailureNotOnce), FailureNotOnce)
                  + ItemIf(HasFault(events, FailureOutOfOrder), FailureOutOfOrder), FaultsOf(events), Place, 10, 17)
  {
    hide Lists, Alone, HappensOnce, Misordered;
    FaultsAlone(events, FailureNotOnce);
    FaultsAlone(events, FailureOutOfOrder);
    Pair(FaultsOf(events), Place, FailureNotOnce, FailureOutOfOrder);
    var failures := ItemIf(HasFault(events, FailureNotOnce), FailureNotOnce)
      + ItemIf(HasFault(events, FailureOutOfOrder), FailureOutOfOrder);
    Widen(failures, FaultsOf(events), Place, 10, 12, 10, 17);
  }

  /** Without a failed evaluation there is no fault at these places, and without an evaluation none after them. */
  lemma EndedFaults(events: seq<EventType>, failures: seq<Fault>)
    requires !(EvaluationStarted in events && EvaluationFailed in events)
    requires if EvaluationStarted in events then Lists(failures, FaultsOf(events), Place, 12, 17) else failures == []
    ensures Lists(failures, FaultsOf(events), Place, 10, 17) && !Breaks(events)
  {
    hide HappensOnce, Misordered;
  }

  /** Check the meaning of a lifecycle whose bytes already verified. */
  method AuditLifecycleFailures(events: seq<EventType>) returns (failures: seq<Fault>)
    ensures failures == [] <==> WellOrdered(events)
    ensures if Breaks(events) then failures == [NoDecision] else Lists(failures, FaultsOf(events), Place, 0, 17)
  {
    hide Count, NonDecreasing, HasFault, Place, Lists, StartsRight, EndsRight, AllOnce;
    NoFaultMeans(events);
    failures := [];
    if !StartsRight(events) {
      failures := failures + [WrongStart];
    }
    ghost var start := failures;
    var missing, positions := RequiredPositions(events);
    failures := failures + missing;
    ghost var order: seq<Fault> := [];
    if |positions| == |REQUIRED| && !NonDecreasing(positions) {
      failures := failures + [OutOfOrder];
      order := [OutOfOrder];
    }
    ghost var end: seq<Fault> := [];
    if !EndsRight(events) {
      failures := failures + [WrongEnd];
      end := [WrongEnd];
    }
    var evaluation, readable := EvaluationFaults(events);
    if !readable {
      return [NoDecision];
    }
    assert failures == start + missing + order + end;
    failures := failures + evaluation;
    FramePlaces(events, start, missing, order, end);
    Join(start + missing + order + end, evaluation, FaultsOf(events), Place, 0, 10, 17);
    AllPlaces(events);
    EmptyMeansNone(failures, FaultsOf(events), Place, 0, 17);
  }

  lemma AllPlaces(events: seq<EventType>)
    ensures forall fault | HasFault(events, fault) :: Place(fault) < 17
  {
    hide HappensOnce, Misordered;
  }

  /** The faults of the required events, put together. */
  lemma FramePlaces(events: seq<EventType>, start: seq<Fault>, missing: seq<Fault>, order: seq<Fault>, end: seq<Fault>)
    requires start == ItemIf(!StartsRight(events), WrongStart)
    requires Lists(missing, FaultsOf(events), Place, 1, 8)
    requires order == ItemIf(AllOnce(events, REQUIRED) && !NonDecreasing(Positions(events, REQUIRED)), OutOfOrder)
    requires end == ItemIf(!EndsRight(events), WrongEnd)
    ensures Lists(start + missing + order + end, FaultsOf(events), Place, 0, 10)
  {
    hide Lists, Alone, HappensOnce, Misordered, AllOnce, NonDecreasing, StartsRight, EndsRight;
    var has := FaultsOf(events);
    StartMeans(events);
    EndMeans(events);
    AllOnceMeans(events, REQUIRED);
    if AllOnce(events, REQUIRED) {
      OrderMeans(events, REQUIRED);
    }
    FaultsAlone(events, WrongStart);
    FaultsAlone(events, OutOfOrder);
    FaultsAlone(events, WrongEnd);
    Single(has, Place, WrongStart);
    Single(has, Place, OutOfOrder);
    Single(has, Place, WrongEnd);
    Join(start, missing, has, Place, 0, 1, 8);
    Join(start + missing, order, has, Place, 0, 8, 9);
    Join(start + missing + order, end, has, Place, 0, 9, 10);
  }

  /** A lifecycle that can be read has no fault exactly when it is well ordered. */
  lemma NoFaultMeans(events: seq<EventType>)
    ensures !Breaks(events) && (forall fault :: !HasFault(events, fault)) <==> WellOrdered(events)
  {
    hide Count, NonDecreasing, StartsRight, EndsRight, AllOnce, Misordered, WellOrdered, EvaluationChecks, HasFault;
    ChecksMean(events);
    FrameFaultsMean(events);
    EveryFault(events);
    if FrameChecks(events) {
      DecidedOnce(events);
      EvaluationFaultsMean(events);
    }
  }

  ghost predicate FrameFaulty(events: seq<EventType>) {
    || HasFault(events, WrongStart) || HasFault(events, OutOfOrder) || HasFault(events, WrongEnd)
    || exists t :: HasFault(events, NotOnce(t))
  }

  ghost predicate EvaluationFaulty(events: seq<EventType>) {
    || HasFault(events, FailureNotOnce) || HasFault(events, FailureOutOfOrder) || HasFault(events, JudgeNotOnce)
    || HasFault(events, StagesOutOfOrder) || exists t :: HasFault(events, StageNotOnce(t))
  }

  lemma EveryFault(events: seq<EventType>)
    ensures (exists fault :: HasFault(events, fault)) <==> FrameFaulty(events) || EvaluationFaulty(events)
  {
    hide HappensOnce, Misordered, FailsInTime, JudgedAt;
    forall fault | HasFault(events, fault) ensures FrameFaulty(events) || EvaluationFaulty(events) {
      match fault {
        case NotOnce(t) => assert HasFault(events, NotOnce(t));
        case StageNotOnce(t) => assert HasFault(events, StageNotOnce(t));
        case WrongStart =>
        case OutOfOrder =>
        case WrongEnd =>
        case FailureNotOnce =>
        case FailureOutOfOrder =>
        case JudgeNotOnce =>
        case StagesOutOfOrder =>
      }
    }
  }

  lemma DecidedOnce(events: seq<EventType>)
    requires AllOnce(events, REQUIRED)
    ensures OutcomeDecided in events
  {
    assert REQUIRED[5] == OutcomeDecided;
  }

  lemma FrameFaultsMean(events: seq<EventType>)
    ensures FrameChecks(events) <==> !FrameFaulty(events)
  {
    hide Misordered, AllOnce, NonDecreasing, StartsRight, EndsRight, HappensOnce;
    StartMeans(events);
    EndMeans(events);
    AllOnceMeans(events, REQUIRED);
    if AllOnce(events, REQUIRED) {
      OrderMeans(events, REQUIRED);
    } else {
      var t :| t in REQUIRED && !HappensOnce(events, t);
      assert HasFault(events, NotOnce(t));
    }
  }

  lemma EvaluationFaultsMean(events: seq<EventType>)
    requires OutcomeDecided in events && AllOnce(events, REQUIRED)
    ensures EvaluationChecks(events) <==> !EvaluationFaulty(events)
  {
    hide Count, Misordered, NonDecreasing, HappensOnce, JudgedAt;
    if EvaluationStarted in events {
      if EvaluationFailed in events {
        FailureMeans(events);
      } else {
        JudgeMeans(events);
        AllOnceMeans(events, STAGES);
        if t :| t in STAGES && !HappensOnce(events, t) {
          assert HasFault(events, StageNotOnce(t));
        } else {
          JudgedIsChecked(events);
        }
      }
    }
  }

  lemma JudgedIsChecked(events: seq<EventType>)
    requires OutcomeDecided in events && AllOnce(events, REQUIRED)
    requires EvaluationStarted in events && EvaluationFailed !in events
    requires forall t | t in STAGES :: HappensOnce(events, t)
    ensures EvaluationChecks(events) <==> !EvaluationFaulty(events)
  {
    hide Count, Misordered, NonDecreasing, HappensOnce, JudgedAt, AllOnce;
    JudgeMeans(events);
    AllOnceMeans(events, STAGES);
    assert !exists t :: HasFault(events, StageNotOnce(t));
    KnownOnce(events);
    if Count(events, JudgeCompleted) + Count(events, JudgeSkipped) == 1 {
      AddedJudgeOnce(events);
    }
  }

  lemma KnownOnce(events: seq<EventType>)
    requires AllOnce(events, REQUIRED) && forall t | t in STAGES :: HappensOnce(events, t)
    ensures AllOnce(events, [CleanupCompleted] + STAGES + [OutcomeDecided])
  {
    hide HappensOnce;
    AllOnceMeans(events, REQUIRED);
    assert REQUIRED[4] == CleanupCompleted && REQUIRED[5] == OutcomeDecided;
    AllOnceMeans(events, [CleanupCompleted] + STAGES + [OutcomeDecided]);
  }

  lemma FailureMeans(events: seq<EventType>)
    requires EvaluationStarted in events && EvaluationFailed in events && OutcomeDecided in events
    ensures EvaluationChecks(events)
      <==> !HasFault(events, FailureNotOnce) && !HasFault(events, FailureOutOfOrder)
  {
    hide Count, IndexOf, Before;
    CountMeans(events, EvaluationFailed);
    CountedOnce(events, EvaluationFailed);
    var f := IndexOf(events, EvaluationFailed);
    forall i | OnceAt(events, EvaluationFailed, i) ensures i == f {
      OnceIsCounted(events, EvaluationFailed, i);
    }
    BeforeMeans(events, EvaluationStarted, f);
    BeforeMeans(events, OutcomeDecided, f);
    NotTheSame(events, OutcomeDecided, f);
  }
}
