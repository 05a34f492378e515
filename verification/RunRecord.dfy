/** The record of a governed run: what it holds, what governance admitted, and which evidence must match. */
module RunRecord {
  import opened Wrappers
  import opened Outcome
  import opened ItemLists
  import Admission

  /** The text of an error, which is never empty. */
  type Message = s: string | |s| > 0 witness "error"

  /** What the execution decision admitted. */
  datatype Governance = Governance(
    imageRef: string, imageDigest: string, runScans: bool, scannerIdentity: Option<string>,
    runJudge: bool, judgeBackend: Option<string>, judgeModel: Option<string>,
    taskTree: string, matchedModel: Option<string>, limits: Admission.Limits)

  datatype Provenance = Provenance(
    imageTag: Option<string>, imageDigest: Option<string>,
    harnessCommit: Option<string>, harnessDirty: Option<bool>, harnessWorktree: Option<string>,
    finalHash: Option<Digest>, eventCount: nat, auditError: Option<string>, attestationError: Option<string>)

  datatype Record = Record(
    correctness: TestResults, efficiency: AgentMetrics, diffComplete: bool, scans: ScanResults, judge: JudgeResult,
    challengesPassed: Option<bool>, provenance: Provenance, outcome: Option<RunOutcome>)
  {
    function Observed(): Evidence {
      Evidence(correctness, efficiency, scans, judge, challengesPassed)
    }

    predicate IsAccepted() {
      outcome.Some? && outcome.value.status == Accepted
    }

    function WithInfraError(error: Option<string>): Record {
      this.(efficiency := efficiency.(infraError := error))
    }
  }

  const NO_RESULTS: TestResults := TestResults(Cooperative, 0, 0, 0, 0, None, None, None, None, None, None)

  predicate PartAt(text: string, part: string, i: int) {
    0 <= i <= |text| - |part| && text[i..i + |part|] == part
  }

  predicate Contains(text: string, part: string)
    ensures Contains(text, part) <==> exists before, after :: text == before + part + after
  {
    ContainedBetween(text, part);
    exists i | 0 <= i <= |text| :: PartAt(text, part, i)
  }

  lemma ContainedBetween(text: string, part: string)
    ensures (exists i | 0 <= i <= |text| :: PartAt(text, part, i))
      <==> exists before, after :: text == before + part + after
  {
    if i :| 0 <= i <= |text| && PartAt(text, part, i) {
      assert text == text[..i] + part + text[i + |part|..];
    }
    if before, after :| text == before + part + after {
      assert text[|before|..|before| + |part|] == part;
      assert PartAt(text, part, |before|);
    }
  }

  /** An error list with one more entry, unless it is already there. */
  function Joined(errors: Option<string>, error: Message): (r: Option<string>)
    ensures Reported(r) && Contains(r.value, error) && (IsError(errors) ==> errors.value <= r.value)
    ensures r == errors <==> IsError(errors) && Contains(errors.value, error)
  {
    if !Reported(errors) then OneEntry(error); Some(error)
    else if Contains(errors.value, error) then errors
    else LastEntry(errors.value, error); Some(errors.value + "; " + error)
  }

  /** An error list with one more entry. */
  function Extended(errors: Option<string>, error: Message): (r: Option<string>)
    ensures Reported(r) && r != errors && Contains(r.value, error) && (IsError(errors) ==> errors.value <= r.value)
  {
    if Reported(errors) then LastEntry(errors.value, error); Some(errors.value + "; " + error)
    else OneEntry(error); Some(error)
  }

  /** An error list is the same as before, or has something, and still begins with what it had. */
  ghost predicate Grows(before: Option<string>, after: Option<string>) {
    after == before || (IsError(after) && (IsError(before) ==> before.value <= after.value))
  }

  lemma ContainsMore(text: string, longer: string, part: string)
    requires text <= longer && Contains(text, part)
    ensures Contains(longer, part)
  {
    var before, after :| text == before + part + after;
    assert longer == before + part + (after + longer[|text|..]);
  }

  lemma NotEmpty(text: string, part: string)
    requires Contains(text, part) && part != ""
    ensures text != ""
  {
  }

  lemma OneEntry(error: string)
    ensures Contains(error, error)
  {
    assert error == [] + error + [];
  }

  lemma LastEntry(errors: string, error: string)
    ensures Contains(errors + "; " + error, error)
  {
    assert errors + "; " + error == (errors + "; ") + error + [];
  }

  // ----- The evidence that governance asks for -----

  /** Tests were run to an end and said something. */
  ghost predicate WasEvaluated(c: TestResults) {
    c.infraError == None && c.integrityError == None && (c.commandExitCode != None || c.total >= 1)
  }

  /** Every image that was seen is the admitted one, and the images that had to be seen were seen. */
  ghost predicate ImagesMatch(r: Record, g: Governance) {
    && r.correctness.evaluationMode == IsolatedBlackBox && r.provenance.imageTag == Some(g.imageRef)
    && !Differs(r.provenance.imageDigest, g.imageDigest) && !Differs(r.efficiency.runtimeImageDigest, g.imageDigest)
    && !Differs(r.correctness.runtimeImageDigest, g.imageDigest)
    && !Differs(r.correctness.submissionRuntimeImageDigest, g.imageDigest)
    && (r.efficiency.infraError.None? ==> r.efficiency.runtimeImageDigest.Some?)
    && (WasEvaluated(r.correctness) ==>
          r.correctness.runtimeImageDigest.Some? && r.correctness.submissionRuntimeImageDigest.Some?)
  }

  ghost predicate JudgeMatches(r: Record, g: Governance) {
    g.runJudge ==> r.judge.weightedScore.Some? && r.judge.backend == g.judgeBackend && r.judge.model == g.judgeModel
  }

  ghost predicate ScannersMatch(r: Record, g: Governance) {
    if g.runScans then
      && r.scans.assurance.Some? && r.scans.assurance.value.promotionReady
      && g.scannerIdentity == Some(r.scans.assurance.value.identity)
    else r.scans.assurance.None?
  }

  /** The evidence of a record matches governance, with `tree` the digest of the task when the record was completed. */
  ghost predicate EvidenceMatches(r: Record, g: Governance, tree: Option<string>) {
    ImagesMatch(r, g) && JudgeMatches(r, g) && ScannersMatch(r, g) && tree == Some(g.taskTree)
  }

  /** The mismatches that completing a governed record reports, in their order. */
  datatype Fault =
    | EvaluationNotIsolated | ImageReferenceDiffers | ImageDigestDiffers | AgentImageDiffers | EvaluatorImageDiffers
    | SubmissionImageDiffers | AgentImageMissing | EvaluatorImageMissing | SubmissionImageMissing
    | JudgeMissing | JudgeDiffers | ScannersInconsistent | ScannersUnexpected | ScannersMissing | ScannersNotReady
    | ScannersDiffer | TaskChanged | TaskUnverified | AttestationIncomplete

  /** A record has this fault. */
  ghost predicate HasFault(r: Record, g: Governance, consistent: bool, tree: Option<string>, fault: Fault) {
    var scanned := r.scans.assurance;
    match fault
    case EvaluationNotIsolated => r.correctness.evaluationMode == Cooperative
    case ImageReferenceDiffers => r.provenance.imageTag != Some(g.imageRef)
    case ImageDigestDiffers => Differs(r.provenance.imageDigest, g.imageDigest)
    case AgentImageDiffers => Differs(r.efficiency.runtimeImageDigest, g.imageDigest)
    case EvaluatorImageDiffers => Differs(r.correctness.runtimeImageDigest, g.imageDigest)
    case SubmissionImageDiffers => Differs(r.correctness.submissionRuntimeImageDigest, g.imageDigest)
    case AgentImageMissing => r.efficiency.infraError == None && r.efficiency.runtimeImageDigest == None
    case EvaluatorImageMissing => WasEvaluated(r.correctness) && r.correctness.runtimeImageDigest == None
    case SubmissionImageMissing =>
      && WasEvaluated(r.correctness) && r.correctness.evaluationMode == IsolatedBlackBox
      && r.correctness.submissionRuntimeImageDigest == None
    case JudgeMissing => g.runJudge && r.judge.weightedScore == None
    case JudgeDiffers => g.runJudge && !(r.judge.backend == g.judgeBackend && r.judge.model == g.judgeModel)
    case ScannersInconsistent => !consistent
    case ScannersUnexpected => consistent && !g.runScans && scanned != None
    case ScannersMissing => consistent && g.runScans && scanned == None
    case ScannersNotReady => consistent && g.runScans && scanned != None && !scanned.value.promotionReady
    case ScannersDiffer =>
      && consistent && g.runScans && scanned != None && scanned.value.promotionReady
      && g.scannerIdentity != Some(scanned.value.identity)
    case TaskChanged => tree != None && tree != Some(g.taskTree)
    case TaskUnverified => tree == None
    case AttestationIncomplete => false
  }

  ghost predicate Differs(found: Option<string>, expected: string) {
    found != None && found != Some(expected)
  }

  /** Where a fault stands among those that are reported. */
  ghost function Place(fault: Fault): nat {
    match fault
    case EvaluationNotIsolated => 0
    case ImageReferenceDiffers => 1
    case ImageDigestDiffers => 2
    case AgentImageDiffers => 3
    case EvaluatorImageDiffers => 4
    case SubmissionImageDiffers => 5
    case AgentImageMissing => 6
    case EvaluatorImageMissing => 7
    case SubmissionImageMissing => 8
    case JudgeMissing => 9
    case JudgeDiffers => 10
    case ScannersInconsistent => 11
    case ScannersUnexpected => 12
    case ScannersMissing => 13
    case ScannersNotReady => 14
    case ScannersDiffer => 15
    case TaskChanged => 16
    case TaskUnverified => 17
    case AttestationIncomplete => 18
  }

  ghost function FaultsOf(r: Record, g: Governance, consistent: bool, tree: Option<string>): Fault -> bool {
    fault => HasFault(r, g, consistent, tree, fault)
  }

  predicate NoneOr(found: Option<string>, expected: string) {
    found.Some? ==> found.value == expected
  }

  predicate EvaluationCompleted(c: TestResults) {
    c.infraError.None? && c.integrityError.None? && (c.commandExitCode.Some? || c.total > 0)
  }

  /** The faults of how and on which image the run was made. */
  function RunFaults(r: Record, g: Governance): seq<Fault> {
    ItemIf(r.correctness.evaluationMode != IsolatedBlackBox, EvaluationNotIsolated)
    + ItemIf(r.provenance.imageTag != Some(g.imageRef), ImageReferenceDiffers)
    + ItemIf(!NoneOr(r.provenance.imageDigest, g.imageDigest), ImageDigestDiffers)
  }

  /** The faults of the images that were seen in pods. */
  function PodFaults(r: Record, g: Governance): seq<Fault> {
    ItemIf(!NoneOr(r.efficiency.runtimeImageDigest, g.imageDigest), AgentImageDiffers)
    + ItemIf(!NoneOr(r.correctness.runtimeImageDigest, g.imageDigest), EvaluatorImageDiffers)
    + ItemIf(!NoneOr(r.correctness.submissionRuntimeImageDigest, g.imageDigest), SubmissionImageDiffers)
  }

  /** The images that had to be seen and were not. */
  function MissingFaults(r: Record): seq<Fault> {
    var evaluated := EvaluationCompleted(r.correctness);
    ItemIf(r.efficiency.infraError.None? && r.efficiency.runtimeImageDigest.None?, AgentImageMissing)
    + ItemIf(evaluated && r.correctness.runtimeImageDigest.None?, EvaluatorImageMissing)
    + ItemIf(evaluated && r.correctness.evaluationMode == IsolatedBlackBox
              && r.correctness.submissionRuntimeImageDigest.None?, SubmissionImageMissing)
  }

  function JudgeFaults(r: Record, g: Governance): seq<Fault> {
    ItemIf(g.runJudge && r.judge.weightedScore.None?, JudgeMissing)
    + ItemIf(g.runJudge && (r.judge.backend != g.judgeBackend || r.judge.model != g.judgeModel), JudgeDiffers)
  }

  /** The fault of the scanner evidence, where `consistent` says that the evidence agrees with itself. */
  function ScannerFaults(r: Record, g: Governance, consistent: bool): seq<Fault> {
    var observed := r.scans.assurance;
    if !consistent then [ScannersInconsistent]
    else if !g.runScans then ItemIf(observed.Some?, ScannersUnexpected)
    else if observed.None? then [ScannersMissing]
    else if !observed.value.promotionReady then [ScannersNotReady]
    else ItemIf(Some(observed.value.identity) != g.scannerIdentity, ScannersDiffer)
  }

  /** The fault of the task, whose tree has no digest when it cannot be read. */
  function TaskFaults(g: Governance, tree: Option<string>): seq<Fault> {
    if tree.None? then [TaskUnverified] else ItemIf(tree.value != g.taskTree, TaskChanged)
  }

  /** All faults of a record. */
  function EvidenceFaults(r: Record, g: Governance, consistent: bool, tree: Option<string>): seq<Fault> {
    RunFaults(r, g) + PodFaults(r, g) + MissingFaults(r)
    + JudgeFaults(r, g) + ScannerFaults(r, g, consistent) + TaskFaults(g, tree)
  }

  lemma RunFaultsMean(r: Record, g: Governance, consistent: bool, tree: Option<string>)
    ensures Lists(RunFaults(r, g), FaultsOf(r, g, consistent, tree), Place, 0, 3)
  {
    var has := FaultsOf(r, g, consistent, tree);
    hide Lists, ItemIf;
    Triple(has, Place, EvaluationNotIsolated, ImageReferenceDiffers, ImageDigestDiffers);
    assert RunFaults(r, g)
      == Of(has, EvaluationNotIsolated)
        + Of(has, ImageReferenceDiffers)
        + Of(has, ImageDigestDiffers);
  }

  lemma PodFaultsMean(r: Record, g: Governance, consistent: bool, tree: Option<string>)
    ensures Lists(PodFaults(r, g), FaultsOf(r, g, consistent, tree), Place, 3, 6)
  {
    var has := FaultsOf(r, g, consistent, tree);
    hide Lists, ItemIf;
    Triple(has, Place, AgentImageDiffers, EvaluatorImageDiffers, SubmissionImageDiffers);
    assert PodFaults(r, g)
      == Of(has, AgentImageDiffers) + Of(has, EvaluatorImageDiffers)
        + Of(has, SubmissionImageDiffers);
  }

  lemma MissingFaultsMean(r: Record, g: Governance, consistent: bool, tree: Option<string>)
    ensures Lists(MissingFaults(r), FaultsOf(r, g, consistent, tree), Place, 6, 9)
  {
    var has := FaultsOf(r, g, consistent, tree);
    hide Lists, ItemIf;
    Triple(has, Place, AgentImageMissing, EvaluatorImageMissing, SubmissionImageMissing);
    assert MissingFaults(r)
      == Of(has, AgentImageMissing) + Of(has, EvaluatorImageMissing)
        + Of(has, SubmissionImageMissing);
  }

  lemma JudgeFaultsMean(r: Record, g: Governance, consistent: bool, tree: Option<string>)
    ensures Lists(JudgeFaults(r, g), FaultsOf(r, g, consistent, tree), Place, 9, 11)
  {
    var has := FaultsOf(r, g, consistent, tree);
    hide Lists, ItemIf;
    Pair(has, Place, JudgeMissing, JudgeDiffers);
    assert JudgeFaults(r, g)
      == Of(has, JudgeMissing) + Of(has, JudgeDiffers);
  }

  lemma ScannerFaultsAre(r: Record, g: Governance, consistent: bool, tree: Option<string>)
    ensures var has := FaultsOf(r, g, consistent, tree);
      ScannerFaults(r, g, consistent)
      == (Of(has, ScannersInconsistent) + Of(has, ScannersUnexpected)
          + Of(has, ScannersMissing))
         + (Of(has, ScannersNotReady) + Of(has, ScannersDiffer))
  {
  }

  lemma ScannerFaultsMean(r: Record, g: Governance, consistent: bool, tree: Option<string>)
    ensures Lists(ScannerFaults(r, g, consistent), FaultsOf(r, g, consistent, tree), Place, 11, 16)
  {
    var has := FaultsOf(r, g, consistent, tree);
    hide Lists, Of, ScannerFaults, HasFault;
    Triple(has, Place, ScannersInconsistent, ScannersUnexpected, ScannersMissing);
    Pair(has, Place, ScannersNotReady, ScannersDiffer);
    var start :=
      Of(has, ScannersInconsistent) + Of(has, ScannersUnexpected)
        + Of(has, ScannersMissing);
    var rest := Of(has, ScannersNotReady) + Of(has, ScannersDiffer);
    Join(start, rest, has, Place, 11, 14, 16);
    ScannerFaultsAre(r, g, consistent, tree);
  }

  lemma TaskFaultsMean(r: Record, g: Governance, consistent: bool, tree: Option<string>)
    ensures Lists(TaskFaults(g, tree), FaultsOf(r, g, consistent, tree), Place, 16, 18)
  {
    var has := FaultsOf(r, g, consistent, tree);
    hide Lists;
    Pair(has, Place, TaskChanged, TaskUnverified);
    assert TaskFaults(g, tree)
      == Of(has, TaskChanged) + Of(has, TaskUnverified);
  }

  /** Main result: exactly the faults that a record has are reported, each once and in their order. */
  lemma FaultsMean(r: Record, g: Governance, consistent: bool, tree: Option<string>)
    ensures Lists(EvidenceFaults(r, g, consistent, tree), FaultsOf(r, g, consistent, tree), Place, 0, 18)
  {
    hide Lists, RunFaults, PodFaults, MissingFaults, JudgeFaults, ScannerFaults, TaskFaults;
    var run, pods, missing := RunFaults(r, g), PodFaults(r, g), MissingFaults(r);
    var judge, scanner, task := JudgeFaults(r, g), ScannerFaults(r, g, consistent), TaskFaults(g, tree);
    var has := FaultsOf(r, g, consistent, tree);
    RunFaultsMean(r, g, consistent, tree);
    PodFaultsMean(r, g, consistent, tree);
    MissingFaultsMean(r, g, consistent, tree);
    JudgeFaultsMean(r, g, consistent, tree);
    ScannerFaultsMean(r, g, consistent, tree);
    TaskFaultsMean(r, g, consistent, tree);
    Join(run, pods, has, Place, 0, 3, 6);
    Join(run + pods, missing, has, Place, 0, 6, 9);
    Join(run + pods + missing, judge, has, Place, 0, 9, 11);
    Join(run + pods + missing + judge, scanner, has, Place, 0, 11, 16);
    Join(run + pods + missing + judge + scanner, task, has, Place, 0, 16, 18);
  }

  lemma NoImageFaults(r: Record, g: Governance)
    ensures RunFaults(r, g) == [] && PodFaults(r, g) == [] && MissingFaults(r) == [] <==> ImagesMatch(r, g)
  {
    assert RunFaults(r, g) == [] <==>
      && r.correctness.evaluationMode == IsolatedBlackBox && r.provenance.imageTag == Some(g.imageRef)
      && NoneOr(r.provenance.imageDigest, g.imageDigest);
    assert PodFaults(r, g) == [] <==>
      && NoneOr(r.efficiency.runtimeImageDigest, g.imageDigest)
      && NoneOr(r.correctness.runtimeImageDigest, g.imageDigest)
      && NoneOr(r.correctness.submissionRuntimeImageDigest, g.imageDigest);
  }

  /** No fault is reported exactly when the evidence is consistent and matches governance. */
  lemma NoFaultsMatch(r: Record, g: Governance, consistent: bool, tree: Option<string>)
    ensures EvidenceFaults(r, g, consistent, tree) == [] <==> consistent && EvidenceMatches(r, g, tree)
  {
    hide RunFaults, PodFaults, MissingFaults, ImagesMatch;
    NoImageFaults(r, g);
    assert JudgeFaults(r, g) == [] <==> JudgeMatches(r, g);
    assert ScannerFaults(r, g, consistent) == [] <==> consistent && ScannersMatch(r, g);
  }

  // ----- The governed task -----

  datatype Task = Task(agentSeconds: int, evalSeconds: int, acceptance: Policy, judgeEnabled: bool, hasChallenges: bool)

  function Min(a: int, b: int): int {
    if a <= b then a else b
  }

  function MinCost(a: real, b: real): real {
    if a <= b then a else b
  }

  /** Apply the admitted time limits and usage thresholds to a task. */
  function GovernedTask(task: Task, limits: Admission.Limits): Task {
    var p := task.acceptance;
    var tokens := Min(limits.maxTokens, if p.maxTotalTokens.Some? then p.maxTotalTokens.value else limits.maxTokens);
    var cost := MinCost(limits.maxCost, if p.maxCost.Some? then p.maxCost.value else limits.maxCost);
    task.(agentSeconds := Min(task.agentSeconds, limits.maxAgentSeconds),
          evalSeconds := Min(task.evalSeconds, limits.maxEvalSeconds),
          acceptance := p.(maxTotalTokens := Some(tokens), maxCost := Some(cost)))
  }

  /** Observed usage is known and within a pair of thresholds. */
  ghost predicate UsageWithin(m: AgentMetrics, tokens: int, cost: real) {
    && TotalTokens(m).Some? && TotalTokens(m).value <= tokens
    && Measured(m.cost, false).Some? && Measured(m.cost, false).value <= cost
  }

  /** The smaller of two numbers. */
  ghost predicate IsLeast(least: int, a: int, b: int) {
    least <= a && least <= b && (least == a || least == b)
  }

  /**
   * The governed task accepts exactly what the task itself accepts with known usage inside the limits; it has the
   * shorter times, and keeps its judge and its challenges.
   */
  lemma GovernedTaskMeansBoth(task: Task, limits: Admission.Limits, e: Evidence)
    ensures var governed := GovernedTask(task, limits);
      && Acceptable(e, governed.acceptance)
         == (Acceptable(e, task.acceptance) && UsageWithin(e.efficiency, limits.maxTokens, limits.maxCost))
      && IsLeast(governed.agentSeconds, task.agentSeconds, limits.maxAgentSeconds)
      && IsLeast(governed.evalSeconds, task.evalSeconds, limits.maxEvalSeconds)
      && governed.judgeEnabled == task.judgeEnabled && governed.hasChallenges == task.hasChallenges
  {
    hide Measured, TotalTokens, RanCleanly, FindingsMeet, NoInfraError;
    var own, governed := task.acceptance, GovernedTask(task, limits).acceptance;
    assert FindingsMeet(e, governed) == FindingsMeet(e, own) by { SameFindings(e, governed, own); }
  }

  lemma SameFindings(e: Evidence, p: Policy, q: Policy)
    requires p == q.(maxTotalTokens := p.maxTotalTokens, maxCost := p.maxCost)
    ensures FindingsMeet(e, p) == FindingsMeet(e, q)
  {
  }

  /** Usage within the effective limits is within every cap of the policy, the request and the model. */
  lemma WithinEveryCap(req: Admission.Request, r: Admission.Rules, model: Option<Admission.ModelEntry>,
                       limits: Admission.Limits, m: AgentMetrics, tokens: int, cost: real)
    requires Admission.IsEffective(req, r, model, limits) && UsageWithin(m, limits.maxTokens, limits.maxCost)
    requires Admission.TokenCap(req, r, model, tokens) && Admission.CostCap(req, r, model, cost)
    ensures UsageWithin(m, tokens, cost)
  {
    assert limits.maxTokens <= tokens;
  }
}
