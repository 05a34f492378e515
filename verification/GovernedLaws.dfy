/** What a returned governed trial guarantees: a verifiable lifecycle, and for an accepted one every admitted limit. */
module GovernedLaws {
  import opened Wrappers
  import opened AuditChain
  import opened Outcome
  import opened RunRecord
  import opened GovernedRun
  import Admission
  import Lifecycle

  // ----- Every trace passes the lifecycle check -----

  const SCANNED_STAGES: seq<EventType> := [EvaluationStarted, TestsCompleted, ScannersCompleted]

  /** The events of an evaluation that ran to its end or failed on the way. */
  ghost predicate IsListed(middle: seq<EventType>) {
    || middle == [] || middle == [EvaluationFailed]
    || middle == SCANNED_STAGES + [JudgeCompleted] || middle == SCANNED_STAGES + [JudgeSkipped]
    || middle == [EvaluationStarted, EvaluationFailed]
    || middle == [EvaluationStarted, TestsCompleted, EvaluationFailed]
    || middle == SCANNED_STAGES + [EvaluationFailed]
    || middle == SCANNED_STAGES + [JudgeCompleted, EvaluationFailed]
    || middle == SCANNED_STAGES + [JudgeSkipped, EvaluationFailed]
  }

  lemma MiddleIsListed(middle: seq<EventType>)
    requires IsMiddle(middle)
    ensures IsListed(middle)
  {
  }

  /** Where an event may stand among those of an evaluation. */
  function Rank(t: EventType): int {
    match t
    case EvaluationStarted => 0
    case TestsCompleted => 1
    case ScannersCompleted => 2
    case JudgeCompleted => 3
    case JudgeSkipped => 3
    case EvaluationFailed => 4
    case _ => -1
  }

  lemma MiddleRises(middle: seq<EventType>)
    requires IsListed(middle)
    ensures forall i, j | 0 <= i < j < |middle| :: Rank(middle[i]) < Rank(middle[j])
    ensures forall i | 0 <= i < |middle| :: Rank(middle[i]) >= 0
  {
  }

  lemma MiddleEnds(middle: seq<EventType>)
    requires IsListed(middle)
    ensures |middle| <= 5
    ensures EvaluationStarted in middle ==> middle[0] == EvaluationStarted
    ensures EvaluationFailed in middle ==> middle[|middle| - 1] == EvaluationFailed
    ensures EvaluationStarted in middle && EvaluationFailed !in middle ==>
      middle == SCANNED_STAGES + [JudgeCompleted] || middle == SCANNED_STAGES + [JudgeSkipped]
  {
  }

  lemma MiddleIsShort(middle: seq<EventType>)
    requires IsMiddle(middle)
    ensures |middle| <= 5
    ensures forall t | t in middle :: t !in AGENT_EVENTS && t != OutcomeDecided && t != RunCompleted
    ensures forall i, j | 0 <= i < j < |middle| :: middle[i] != middle[j]
    ensures EvaluationStarted in middle ==> middle[0] == EvaluationStarted
    ensures EvaluationFailed in middle ==> middle[|middle| - 1] == EvaluationFailed
    ensures EvaluationStarted in middle && EvaluationFailed !in middle ==>
      middle == [EvaluationStarted, TestsCompleted, ScannersCompleted, JudgeCompleted]
      || middle == [EvaluationStarted, TestsCompleted, ScannersCompleted, JudgeSkipped]
  {
    hide IsMiddle, IsListed, Rank;
    MiddleIsListed(middle);
    MiddleEnds(middle);
    MiddleRises(middle);
    forall t | t in middle ensures t !in AGENT_EVENTS && t != OutcomeDecided && t != RunCompleted {
      RankedIsNotOfAgent(t);
    }
    forall i, j | 0 <= i < j < |middle| ensures middle[i] != middle[j] {
      assert Rank(middle[i]) < Rank(middle[j]);
    }
  }

  lemma RankedIsNotOfAgent(t: EventType)
    requires Rank(t) >= 0
    ensures t !in AGENT_EVENTS && t != OutcomeDecided && t != RunCompleted
  {
  }

  /** No event of a trace happens twice. */
  lemma TraceIsDistinct(events: seq<EventType>, middle: seq<EventType>)
    requires IsMiddle(middle) && events == AGENT_EVENTS + middle + [OutcomeDecided, RunCompleted]
    ensures forall i | 0 <= i < |events| :: Lifecycle.OnceAt(events, events[i], i)
  {
    hide IsMiddle;
    MiddleIsShort(middle);
    assert forall i | 0 <= i < 5 :: events[i] == AGENT_EVENTS[i];
    assert forall i | 5 <= i < 5 + |middle| :: events[i] == middle[i - 5];
    assert events[5 + |middle|] == OutcomeDecided && events[6 + |middle|] == RunCompleted;
    forall i, j | 0 <= i < j < |events| ensures events[i] != events[j] {
      if 5 <= j < 5 + |middle| && i < 5 {
        assert AGENT_EVENTS[i] in AGENT_EVENTS && middle[j - 5] in middle;
      }
      if 5 <= i < 5 + |middle| && j >= 5 + |middle| {
        assert middle[i - 5] in middle;
      }
    }
  }

  lemma OnceInMiddle(events: seq<EventType>, middle: seq<EventType>, i: nat)
    requires IsMiddle(middle) && events == AGENT_EVENTS + middle + [OutcomeDecided, RunCompleted] && i < |middle|
    ensures Lifecycle.OnceAt(events, middle[i], 5 + i)
  {
    hide IsMiddle, Lifecycle.OnceAt;
    TraceIsDistinct(events, middle);
    assert events[5 + i] == middle[i];
  }

  lemma TraceIsFramed(events: seq<EventType>, middle: seq<EventType>)
    requires IsMiddle(middle) && events == AGENT_EVENTS + middle + [OutcomeDecided, RunCompleted]
    ensures Lifecycle.Framed(events, 3, 4)
    ensures forall t | t in events && t !in middle :: t in AGENT_EVENTS || t == OutcomeDecided || t == RunCompleted
  {
    hide IsMiddle, Lifecycle.OnceAt;
    TraceIsDistinct(events, middle);
    var n := |events|;
    assert events[..5] == AGENT_EVENTS;
    assert events[0] == AGENT_EVENTS[0] && events[1] == AGENT_EVENTS[1] && events[2] == AGENT_EVENTS[2];
    assert events[3] == AGENT_EVENTS[3] && events[4] == AGENT_EVENTS[4];
    assert events[n - 2] == OutcomeDecided && events[n - 1] == RunCompleted;
  }

  /** Main result: every trace that a governed trial can leave is well ordered. */
  lemma GovernedTraceIsWellOrdered(events: seq<EventType>)
    requires IsGovernedTrace(events)
    ensures Lifecycle.WellOrdered(events)
  {
    hide IsMiddle, Lifecycle.OnceAt, Lifecycle.Framed, Lifecycle.FailedInOrder, Lifecycle.EvaluatedInOrder;
    var middle :| IsMiddle(middle) && events == AGENT_EVENTS + middle + [OutcomeDecided, RunCompleted];
    TraceIsFramed(events, middle);
    if EvaluationStarted in events {
      assert EvaluationStarted in middle;
      if EvaluationFailed in events {
        assert EvaluationFailed in middle;
        FailedEvaluationIsOrdered(events, middle);
      } else {
        assert EvaluationFailed !in middle;
        WholeEvaluationIsOrdered(events, middle);
      }
    }
  }

  lemma FailedEvaluationIsOrdered(events: seq<EventType>, middle: seq<EventType>)
    requires IsMiddle(middle) && events == AGENT_EVENTS + middle + [OutcomeDecided, RunCompleted]
    requires EvaluationStarted in middle && EvaluationFailed in middle
    ensures Lifecycle.FailedInOrder(events, 5, 4 + |middle|)
  {
    hide IsMiddle, Lifecycle.OnceAt;
    MiddleIsShort(middle);
    assert events[5] == middle[0];
    OnceInMiddle(events, middle, |middle| - 1);
  }

  lemma WholeEvaluationIsOrdered(events: seq<EventType>, middle: seq<EventType>)
    requires IsMiddle(middle) && events == AGENT_EVENTS + middle + [OutcomeDecided, RunCompleted]
    requires EvaluationStarted in middle && EvaluationFailed !in middle
    ensures Lifecycle.EvaluatedInOrder(events, 4, 5, 6, 7, 8)
  {
    hide IsMiddle, Lifecycle.OnceAt;
    MiddleIsShort(middle);
    OnceInMiddle(events, middle, 0);
    OnceInMiddle(events, middle, 1);
    OnceInMiddle(events, middle, 2);
    JudgedOnce(events, middle);
  }

  lemma JudgedOnce(events: seq<EventType>, middle: seq<EventType>)
    requires IsMiddle(middle) && events == AGENT_EVENTS + middle + [OutcomeDecided, RunCompleted]
    requires |middle| == 4 && middle[..3] == [EvaluationStarted, TestsCompleted, ScannersCompleted]
    requires middle[3] == JudgeCompleted || middle[3] == JudgeSkipped
    ensures Lifecycle.JudgedAt(events, 8)
  {
    hide IsMiddle;
    OnceInMiddle(events, middle, 3);
    assert middle[0] == middle[..3][0] && middle[1] == middle[..3][1] && middle[2] == middle[..3][2];
  }

  /**
   * Main result: a trial that returns without an audit error leaves a file that verifies against what the record says,
   * with a lifecycle in which the audit check finds no failure.
   */
  lemma UnbrokenAuditVerifies(t: Trial, start: Record, env: TrialEnvironment)
    requires t.Valid() && t.Sound(start, env) && t.AuditOk() && Injective(t.audit.codec.digest)
    ensures Accepts(t.audit.codec, t.audit.file, t.record.provenance.finalHash, Some(t.audit.runId))
    ensures t.record.provenance.eventCount == |t.audit.file|
    ensures Lifecycle.WellOrdered(t.Emitted())
  {
    hide Acceptable, EvidenceMatches, Trial.Vouched;
    GovernedTraceIsWellOrdered(t.Emitted());
    var a := t.audit;
    RecordedChainVerifies(a.codec, a.file, a.finalHash, a.eventCount, a.runId, a.traceId);
  }

  // ----- What acceptance means -----

  /** The agent's command ended by itself with exit code 0, and nothing around it was interrupted. */
  ghost predicate EndedWell(env: AgentRun) {
    && env.setup == Uninterrupted && env.execution == Uninterrupted && env.end == Exited(0, None)
    && env.quiescence == None && env.snapshot == Promoted
    && env.proxyLogError == None && env.podError == None && env.proxyError == None && env.secretError == None
  }

  /** The workspace was safe, its difference is known, and the record shows the grades that were given. */
  ghost predicate GradedAsSeen(t: Trial, env: GovernedRun.Evaluation)
    reads t
  {
    && env.integrityError == None && env.diffError == None
    && t.record.correctness == env.tests && (env.runScans ==> t.record.scans == env.scans)
    && (t.task.hasChallenges ==> t.record.challengesPassed == Some(env.challengesPassed))
    && (t.governance.runJudge ==> t.record.judge.weightedScore.Some?)
  }

  /**
   * Main result: an accepted trial lost no audit event. Its agent ended well and was cleaned up after, ran the admitted
   * image and model, and was graded by the admitted scanners and judge on an unchanged task. Its record shows these
   * grades and was attested as it stands, and its usage stayed within every limit.
   */
  lemma AcceptedTrialIsJustified(
      t: Trial, start: Record, env: TrialEnvironment, own: Task, req: Admission.Request, rules: Admission.Rules,
      model: Option<Admission.ModelEntry>, tokens: int, cost: real)
    requires t.Valid() && t.Sound(start, env) && t.record.IsAccepted()
    requires t.task == GovernedTask(own, t.governance.limits)
    requires Admission.IsEffective(req, rules, model, t.governance.limits)
    requires Admission.TokenCap(req, rules, model, tokens) && Admission.CostCap(req, rules, model, cost)
    ensures t.AuditOk() && t.audit.eventCount == |t.audit.file| && EndedWell(env.agent)
    ensures env.agent.runtimeDigest == Some(t.governance.imageDigest)
    ensures env.agent.metrics.model.Some? && env.agent.metrics.model == t.governance.matchedModel
    ensures GradedAsSeen(t, env.evaluation)
    ensures JudgeMatches(t.record, t.governance) && ScannersMatch(t.record, t.governance)
    ensures env.evaluation.completion.taskTree == Some(t.governance.taskTree)
    ensures t.attested == Some(t.record) && t.saved == Some(t.record) && t.record.provenance.attestationError.None?
    ensures Acceptable(t.record.Observed(), own.acceptance)
    ensures UsageWithin(t.record.efficiency, tokens, cost)
  {
    hide UsageWithin, Measured, TotalTokens, Admission.IsEffective, GradedAsSeen, IsOutcome, IsGovernedTrace;
    AcceptedEndedWell(t, start, env);
    AcceptedIsGraded(t, start, env);
    hide Acceptable, ImagesMatch;
    GovernedTaskMeansBoth(own, t.governance.limits, t.record.Observed());
    WithinEveryCap(req, rules, model, t.governance.limits, t.record.efficiency, tokens, cost);
  }

  lemma AcceptedEndedWell(t: Trial, start: Record, env: TrialEnvironment)
    requires t.Valid() && t.Sound(start, env) && t.record.IsAccepted()
    ensures EndedWell(env.agent) && env.agent.runtimeDigest == Some(t.governance.imageDigest)
  {
    hide IsOutcome, IsGovernedTrace, Keeps, GradesMeet, FindingsMeet, UsageMeets, Attests;
    var seen := t.Seen(start, env);
    assert seen.efficiency == MetricsOf(env.agent);
    assert Acceptable(seen.Observed(), t.task.acceptance);
  }

  lemma AcceptedIsGraded(t: Trial, start: Record, env: TrialEnvironment)
    requires t.Valid() && t.Sound(start, env) && t.record.IsAccepted()
    ensures GradedAsSeen(t, env.evaluation)
  {
    hide IsOutcome, IsGovernedTrace, GradesMeet, FindingsMeet, UsageMeets;
    var seen := t.Seen(start, env);
    assert Acceptable(seen.Observed(), t.task.acceptance);
  }

  // ----- Acceptance is possible -----

  /** What a policy asks for can be met: nothing negative is asked of a count, and a judge or challenges are there. */
  ghost predicate Attainable(t: Trial) {
    var p, g := t.task.acceptance, t.governance;
    && g.imageRef != "" && g.imageDigest != "" && g.matchedModel.Some? && (g.runScans ==> g.scannerIdentity.Some?)
    && (g.runJudge || p.minJudgeScore.Some? ==> t.task.judgeEnabled) && (p.requireChallenges ==> t.task.hasChallenges)
    && (p.maxSecrets.Some? ==> p.maxSecrets.value >= 0) && (p.maxWallTime.Some? ==> p.maxWallTime.value >= 0.0)
    && (p.maxTotalTokens.Some? ==> p.maxTotalTokens.value >= 0) && (p.maxCost.Some? ==> p.maxCost.value >= 0.0)
  }

  /** An agent that ends well and uses nothing. */
  ghost function GoodAgent(t: Trial): AgentRun
    requires t.governance.matchedModel.Some?
  {
    var zero := Some(Integer(0));
    var digest := Some(t.governance.imageDigest);
    AgentRun(Uninterrupted, Uninterrupted, None,
             AgentMetrics(zero, zero, zero, zero, zero, zero, t.governance.matchedModel, Some(0), None, digest),
             digest, Exited(0, None), Integer(0), None, Promoted, "model mismatch", None, None, None, None)
  }

  /** Scans that find as little as the policy allows, and no secret. */
  ghost function GoodScans(t: Trial): ScanResults {
    var p, g := t.task.acceptance, t.governance;
    var status := map s | s in p.requiredScanners + ["gitleaks"] :: "ok";
    var assurance :=
      if g.runScans && g.scannerIdentity.Some? then Some(ScannerAssurance(g.scannerIdentity.value, true)) else None;
    ScanResults(status, p.maxLintErrors, p.maxHighFindings, Some(0), p.maxVulnerabilities, assurance)
  }

  /** An evaluation in which all tests pass. */
  ghost function GoodEvaluation(t: Trial): GovernedRun.Evaluation {
    var p, g := t.task.acceptance, t.governance;
    var digest := Some(g.imageDigest);
    var tests := TestResults(IsolatedBlackBox, 1, 1, 0, 0, p.minCoverage, Some(0), None, None, digest, digest);
    var score := if p.minJudgeScore.Some? then p.minJudgeScore else Some(0.0);
    var judge := JudgeResult(score, g.judgeBackend, g.judgeModel);
    var completion := Completion({}, true, Some(g.taskTree), None, None, None, None);
    GovernedRun.Evaluation.Evaluation(
      {}, IsolatedBlackBox, None, Some(GitState("sha", false, "worktree")), tests, None, true, GoodScans(t), true, None,
      judge, true, completion)
  }

  ghost function GoodEnvironment(t: Trial): TrialEnvironment
    requires t.governance.matchedModel.Some?
  {
    var evaluation := GoodEvaluation(t);
    TrialEnvironment(GoodAgent(t), evaluation, evaluation.completion, None, false, "no snapshot", "failed")
  }

  lemma GoodTrialShows(t: Trial, r: Record)
    requires Attainable(t)
    ensures var env := GoodEnvironment(t); var seen := t.Seen(r, env);
      && seen.correctness == env.evaluation.tests && seen.scans == GoodScans(t)
      && seen.efficiency == GoodAgent(t).metrics && GoodAgent(t).metrics == MetricsOf(GoodAgent(t))
      && (t.task.judgeEnabled ==> seen.judge == env.evaluation.judge)
      && (t.task.hasChallenges ==> seen.challengesPassed == Some(true))
      && seen.provenance == t.Captured(r.provenance, env.evaluation.git)
  {
    assert "gitleaks" in t.task.acceptance.requiredScanners + ["gitleaks"];
  }

  lemma GoodTrialIsAcceptable(t: Trial, seen: Record)
    requires Attainable(t)
    requires seen.correctness == GoodEvaluation(t).tests && seen.scans == GoodScans(t)
    requires seen.efficiency == GoodAgent(t).metrics
    requires t.task.judgeEnabled ==> seen.judge == GoodEvaluation(t).judge
    requires t.task.hasChallenges ==> seen.challengesPassed == Some(true)
    ensures Acceptable(seen.Observed(), t.task.acceptance)
  {
    var status, required := seen.scans.status, t.task.acceptance.requiredScanners;
    assert forall s | s in required + ["gitleaks"] :: s in status && status[s] == "ok";
    assert forall s | s in required :: s in required + ["gitleaks"];
    assert TotalTokens(seen.efficiency) == Some(0);
  }

  /** Where the policy can be met and events can be written, some trial runs through and deserves to be accepted. */
  lemma SomeTrialIsAccepted(t: Trial, r: Record)
    requires Attainable(t) && t.WritesSucceed()
    ensures var env := GoodEnvironment(t);
      t.RunsThrough(r, env) && t.Deserves(t.Seen(r, env), env.evaluation.completion)
  {
    hide Trial.WritesSucceed, Acceptable, Trial.Seen, GoodScans;
    var env := GoodEnvironment(t);
    GoodTrialShows(t, r);
    GoodTrialIsAcceptable(t, t.Seen(r, env));
    GoodScansMatch(t);
  }

  lemma GoodScansMatch(t: Trial)
    requires Attainable(t)
    ensures var g, assurance := t.governance, GoodScans(t).assurance;
      if g.runScans then
        assurance.Some? && assurance.value.promotionReady && g.scannerIdentity == Some(assurance.value.identity)
      else assurance.None?
  {
  }
}
