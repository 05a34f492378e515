/** Acceptance outcomes: what evidence a trial needs before it is accepted. */
module Outcome {
  import opened Wrappers

  /** Usage evidence as it may arrive: malformed stands for NaN, an infinity, a boolean or a non-number. */
  datatype Amount = Integer(int) | Fraction(real) | Malformed

  datatype AgentMetrics = AgentMetrics(
    wallTime: Option<Amount>, tokensIn: Option<Amount>, tokensOut: Option<Amount>, cost: Option<Amount>,
    turns: Option<Amount>, toolCalls: Option<Amount>, model: Option<string>, exitCode: Option<int>,
    infraError: Option<string>, runtimeImageDigest: Option<string>)

  datatype EvaluationMode = Cooperative | IsolatedBlackBox

  datatype TestResults = TestResults(
    evaluationMode: EvaluationMode, total: int, passed: int, failed: int, errors: int, coverage: Option<real>,
    commandExitCode: Option<int>, integrityError: Option<string>, infraError: Option<string>,
    runtimeImageDigest: Option<string>, submissionRuntimeImageDigest: Option<string>)
  {
    /** The test command succeeded, and its report holds nothing but passed tests. */
    predicate Resolved()
      ensures Resolved() <==> Solves(this)
    {
      infraError.None? && integrityError.None? && commandExitCode == Some(0) && total > 0 && passed > 0 && failed == 0
        && errors == 0
    }
  }

  datatype ScannerAssurance = ScannerAssurance(identity: string, promotionReady: bool)

  datatype ScanResults = ScanResults(
    status: map<string, string>, lintErrors: Option<int>, highFindings: Option<int>, secrets: Option<int>,
    vulnerabilities: Option<int>, assurance: Option<ScannerAssurance>)

  datatype JudgeResult = JudgeResult(weightedScore: Option<real>, backend: Option<string>, model: Option<string>)

  datatype Evidence = Evidence(
    correctness: TestResults, efficiency: AgentMetrics, scans: ScanResults, judge: JudgeResult,
    challengesPassed: Option<bool>)

  datatype Policy = Policy(
    requireResolved: bool, minCoverage: Option<real>, minJudgeScore: Option<real>, requiredScanners: seq<string>,
    maxLintErrors: Option<int>, maxHighFindings: Option<int>, maxSecrets: Option<int>, maxVulnerabilities: Option<int>,
    maxWallTime: Option<real>, maxTotalTokens: Option<int>, maxCost: Option<real>, requireChallenges: bool)

  datatype Status = Accepted | Rejected | InfraError

  datatype Check = Check(name: string, passed: bool)

  datatype RunOutcome = RunOutcome(status: Status, reasons: seq<string>, checks: seq<Check>)

  /** An error is present when its text is not empty. */
  predicate Reported(error: Option<string>)
    ensures Reported(error) <==> error != None && error != Some("")
  {
    error.Some? && |error.value| > 0
  }

  function ValueOf(a: Amount): real
    requires !a.Malformed?
  {
    match a
    case Integer(n) => n as real
    case Fraction(x) => x
  }

  predicate ValidAccounting(a: Amount, integer: bool)
    ensures ValidAccounting(a, integer) <==> IsUsable(Some(a), integer)
  {
    if integer then a.Integer? && ValueOf(a) >= 0.0 else !a.Malformed? && ValueOf(a) >= 0.0
  }

  /** A field of the accounting as far as thresholds may use it. */
  function Accounted(a: Option<Amount>, integer: bool): (r: Option<real>)
    ensures r == Measured(a, integer)
  {
    if a.Some? && ValidAccounting(a.value, integer) then Some(ValueOf(a.value)) else None
  }

  /** A count as a number that may be compared with a threshold. */
  function AsReal(n: Option<int>): Option<real> {
    if n.Some? then Some(n.value as real) else None
  }

  // ----- What acceptance means -----

  /** A gate is met when it is not set, or when the evidence is there and reaches it. */
  ghost predicate AtLeast(value: Option<real>, threshold: Option<real>) {
    threshold.Some? ==> value.Some? && value.value >= threshold.value
  }

  ghost predicate AtMost(value: Option<real>, threshold: Option<real>) {
    threshold.Some? ==> value.Some? && value.value <= threshold.value
  }

  ghost predicate CountAtMost(value: Option<int>, threshold: Option<int>) {
    threshold.Some? ==> value.Some? && value.value <= threshold.value
  }

  /** Accounting is usable when it is missing, or a number of the right kind that is not negative. */
  ghost predicate IsUsable(a: Option<Amount>, integer: bool) {
    match a
    case None => true
    case Some(Integer(n)) => n >= 0
    case Some(Fraction(x)) => !integer && x >= 0.0
    case Some(Malformed) => false
  }

  /** What is known of a field: its value, unless that is missing or unusable. */
  ghost function Measured(a: Option<Amount>, integer: bool): Option<real> {
    match a
    case Some(Integer(n)) => if n >= 0 then Some(n as real) else None
    case Some(Fraction(x)) => if !integer && x >= 0.0 then Some(x) else None
    case _ => None
  }

  /** Input and output tokens together, where both are known. */
  ghost function TotalTokens(m: AgentMetrics): Option<int> {
    match (m.tokensIn, m.tokensOut)
    case (Some(Integer(i)), Some(Integer(o))) => if i >= 0 && o >= 0 then Some(i + o) else None
    case _ => None
  }

  ghost predicate AccountingUsable(m: AgentMetrics) {
    && IsUsable(m.wallTime, false) && IsUsable(m.tokensIn, true) && IsUsable(m.tokensOut, true)
    && IsUsable(m.cost, false) && IsUsable(m.turns, true) && IsUsable(m.toolCalls, true)
  }

  /** All tests passed, there were some, and nothing went wrong. */
  ghost predicate Solves(c: TestResults) {
    && c.commandExitCode == Some(0) && c.total >= 1 && c.passed >= 1 && c.failed == 0 && c.errors == 0
    && c.integrityError == None && c.infraError == None
  }

  ghost predicate IsError(error: Option<string>) {
    error != None && error != Some("")
  }

  ghost predicate NoInfraError(e: Evidence) {
    !IsError(e.correctness.infraError) && !IsError(e.efficiency.infraError)
  }

  /** Sound execution: usable accounting, a clean agent exit if one was seen, and no integrity error. */
  ghost predicate RanCleanly(e: Evidence) {
    && AccountingUsable(e.efficiency)
    && (e.efficiency.exitCode.Some? ==> e.efficiency.exitCode.value == 0)
    && !IsError(e.correctness.integrityError)
  }

  ghost predicate ScoresMeet(e: Evidence, p: Policy) {
    && (p.requireResolved ==> Solves(e.correctness))
    && AtLeast(e.correctness.coverage, p.minCoverage)
    && AtLeast(e.judge.weightedScore, p.minJudgeScore)
  }

  ghost predicate GradesMeet(e: Evidence, p: Policy) {
    && ScoresMeet(e, p)
    && (forall s | s in p.requiredScanners :: s in e.scans.status && e.scans.status[s] == "ok")
    && (p.requireChallenges ==> e.challengesPassed == Some(true))
  }

  ghost predicate FindingsMeet(e: Evidence, p: Policy) {
    && CountAtMost(e.scans.lintErrors, p.maxLintErrors)
    && CountAtMost(e.scans.highFindings, p.maxHighFindings)
    && CountAtMost(e.scans.secrets, p.maxSecrets)
    && CountAtMost(e.scans.vulnerabilities, p.maxVulnerabilities)
  }

  ghost predicate UsageMeets(e: Evidence, p: Policy) {
    && AtMost(Measured(e.efficiency.wallTime, false), p.maxWallTime)
    && CountAtMost(TotalTokens(e.efficiency), p.maxTotalTokens)
    && AtMost(Measured(e.efficiency.cost, false), p.maxCost)
  }

  ghost predicate Acceptable(e: Evidence, p: Policy) {
    NoInfraError(e) && RanCleanly(e) && GradesMeet(e, p) && FindingsMeet(e, p) && UsageMeets(e, p)
  }

  // ----- The evaluation -----

  /** The reasons are the names of the checks that failed, in order. */
  ghost function FailedNames(checks: seq<Check>): seq<string> {
    if checks == [] then []
    else
      var last := checks[|checks| - 1];
      FailedNames(checks[..|checks| - 1]) + (if last.passed then [] else [last.name])
  }

  ghost predicate AllPassed(checks: seq<Check>) {
    forall i | 0 <= i < |checks| :: checks[i].passed
  }

  lemma {:induction false} NoReasonsMeansAllPassed(checks: seq<Check>)
    ensures FailedNames(checks) == [] <==> AllPassed(checks)
  {
    if checks != [] {
      NoReasonsMeansAllPassed(checks[..|checks| - 1]);
      assert forall i | 0 <= i < |checks| - 1 :: checks[i] == checks[..|checks| - 1][i];
    }
  }

  // ----- The checks that are listed -----

  /** A gate is checked only when it is set. */
  ghost function Gate(name: string, isSet: bool, passed: bool): seq<Check> {
    if isSet then [Check(name, passed)] else []
  }

  /** Accounting is listed only when it is unusable. */
  ghost function AccountingChecks(m: AgentMetrics): seq<Check> {
    Gate("wall time accounting", !IsUsable(m.wallTime, false), false)
    + Gate("input token accounting", !IsUsable(m.tokensIn, true), false)
    + Gate("output token accounting", !IsUsable(m.tokensOut, true), false)
    + Gate("cost accounting", !IsUsable(m.cost, false), false)
    + Gate("turn accounting", !IsUsable(m.turns, true), false)
    + Gate("tool-call accounting", !IsUsable(m.toolCalls, true), false)
  }

  ghost function ExecutionChecks(e: Evidence): seq<Check> {
    AccountingChecks(e.efficiency)
    + Gate("agent command", e.efficiency.exitCode.Some?, e.efficiency.exitCode == Some(0))
    + Gate("evaluation integrity", IsError(e.correctness.integrityError), false)
  }

  ghost function ScannerChecks(status: map<string, string>, required: seq<string>): seq<Check> {
    seq(|required|, i requires 0 <= i < |required| =>
      Check("scanner " + required[i], required[i] in status && status[required[i]] == "ok"))
  }

  ghost function GradeChecks(e: Evidence, p: Policy): seq<Check> {
    Gate("hidden tests", p.requireResolved, Solves(e.correctness))
    + Gate("coverage percent", p.minCoverage.Some?, AtLeast(e.correctness.coverage, p.minCoverage))
    + Gate("judge score", p.minJudgeScore.Some?, AtLeast(e.judge.weightedScore, p.minJudgeScore))
  }

  ghost function FindingChecks(e: Evidence, p: Policy): seq<Check> {
    Gate("lint errors", p.maxLintErrors.Some?, CountAtMost(e.scans.lintErrors, p.maxLintErrors))
    + Gate("high security findings", p.maxHighFindings.Some?, CountAtMost(e.scans.highFindings, p.maxHighFindings))
    + Gate("secrets", p.maxSecrets.Some?, CountAtMost(e.scans.secrets, p.maxSecrets))
    + Gate("vulnerabilities", p.maxVulnerabilities.Some?, CountAtMost(e.scans.vulnerabilities, p.maxVulnerabilities))
  }

  ghost function UsageChecks(e: Evidence, p: Policy): seq<Check> {
    Gate("wall time seconds", p.maxWallTime.Some?, AtMost(Measured(e.efficiency.wallTime, false), p.maxWallTime))
    + Gate("total tokens", p.maxTotalTokens.Some?, CountAtMost(TotalTokens(e.efficiency), p.maxTotalTokens))
    + Gate("cost USD", p.maxCost.Some?, AtMost(Measured(e.efficiency.cost, false), p.maxCost))
  }

  /** Everything that an evaluation lists, in order. */
  ghost function OutcomeChecks(e: Evidence, p: Policy): seq<Check> {
    ExecutionChecks(e) + GradeChecks(e, p) + ScannerChecks(e.scans.status, p.requiredScanners)
    + FindingChecks(e, p) + UsageChecks(e, p)
    + Gate("adversarial challenges", p.requireChallenges, e.challengesPassed == Some(true))
  }

  /**
   * The outcome of evidence under a policy: a reported error and nothing else, or acceptance or rejection with all
   * checks in order and the names of those that failed.
   */
  ghost predicate IsOutcome(o: RunOutcome, e: Evidence, p: Policy) {
    if IsError(e.correctness.infraError) then o == RunOutcome(InfraError, [e.correctness.infraError.value], [])
    else if IsError(e.efficiency.infraError) then o == RunOutcome(InfraError, [e.efficiency.infraError.value], [])
    else
      && o.status == (if Acceptable(e, p) then Accepted else Rejected)
      && o.checks == OutcomeChecks(e, p) && o.reasons == FailedNames(o.checks)
  }

  /** A field of the accounting: its name, its value, and whether that must be an integer. */
  type Field = (string, Option<Amount>, bool)

  /** The checks of a list of fields. */
  ghost function Unusable(fields: seq<Field>): seq<Check> {
    if fields == [] then []
    else
      var last := fields[|fields| - 1];
      Unusable(fields[..|fields| - 1]) + Gate(last.0, !IsUsable(last.1, last.2), false)
  }

  lemma OneMoreField(fields: seq<Field>, field: Field)
    ensures Unusable(fields + [field]) == Unusable(fields) + Gate(field.0, !IsUsable(field.1, field.2), false)
  {
    assert (fields + [field])[..|fields|] == fields;
  }

  lemma ThreeMoreFields(fields: seq<Field>, a: Field, b: Field, c: Field)
    ensures Unusable(fields + [a, b, c])
      == Unusable(fields) + Gate(a.0, !IsUsable(a.1, a.2), false) + Gate(b.0, !IsUsable(b.1, b.2), false)
         + Gate(c.0, !IsUsable(c.1, c.2), false)
  {
    hide IsUsable, Gate, Unusable;
    OneMoreField(fields, a);
    OneMoreField(fields + [a], b);
    OneMoreField(fields + [a] + [b], c);
    assert fields + [a, b, c] == fields + [a] + [b] + [c];
  }

  lemma SixFields(a: Field, b: Field, c: Field, d: Field, e: Field, f: Field)
    ensures Unusable([a, b, c, d, e, f])
      == Gate(a.0, !IsUsable(a.1, a.2), false) + Gate(b.0, !IsUsable(b.1, b.2), false)
         + Gate(c.0, !IsUsable(c.1, c.2), false) + Gate(d.0, !IsUsable(d.1, d.2), false)
         + Gate(e.0, !IsUsable(e.1, e.2), false) + Gate(f.0, !IsUsable(f.1, f.2), false)
  {
    hide IsUsable, Gate;
    assert Unusable([]) == [];
    hide Unusable;
    ThreeMoreFields([], a, b, c);
    ThreeMoreFields([a, b, c], d, e, f);
    assert [] + [a, b, c] == [a, b, c] && [a, b, c] + [d, e, f] == [a, b, c, d, e, f];
  }

  lemma NothingIsUsable(integer: bool)
    ensures IsUsable(None, integer)
  {
  }

  lemma OneMoreCheck(checks: seq<Check>, check: Check)
    ensures FailedNames(checks + [check]) == FailedNames(checks) + if check.passed then [] else [check.name]
    ensures AllPassed(checks + [check]) <==> AllPassed(checks) && check.passed
  {
    var more := checks + [check];
    assert more[..|more| - 1] == checks;
    assert forall i | 0 <= i < |checks| :: more[i] == checks[i];
    assert more[|checks|] == check;
  }

  /** The lists that an evaluation appends to. */
  class Evaluation {
    var checks: seq<Check>
    var reasons: seq<string>

    ghost predicate Valid()
      reads this
    {
      reasons == FailedNames(checks)
    }

    /** Whether everything checked so far has passed. */
    ghost predicate Clear()
      reads this
    {
      AllPassed(checks)
    }

    constructor ()
      ensures Valid() && Clear() && checks == []
    {
      checks, reasons := [], [];
    }

    method AddCheck(name: string, passed: bool)
      requires Valid()
      modifies this
      ensures Valid() && checks == old(checks) + [Check(name, passed)]
      ensures Clear() <==> old(Clear()) && passed
    {
      hide FailedNames, AllPassed;
      OneMoreCheck(checks, Check(name, passed));
      checks := checks + [Check(name, passed)];
      if !passed {
        reasons := reasons + [name];
      }
    }

    /** A gate is checked only when its threshold is set, and missing evidence fails it. */
    method Minimum(name: string, value: Option<real>, threshold: Option<real>)
      requires Valid()
      modifies this
      ensures Valid() && checks == old(checks) + Gate(name, threshold.Some?, AtLeast(value, threshold))
      ensures Clear() <==> old(Clear()) && AtLeast(value, threshold)
    {
      if threshold.Some? {
        AddCheck(name, value.Some? && value.value >= threshold.value);
      }
    }

    method Maximum(name: string, value: Option<real>, threshold: Option<real>)
      requires Valid()
      modifies this
      ensures Valid() && checks == old(checks) + Gate(name, threshold.Some?, AtMost(value, threshold))
      ensures Clear() <==> old(Clear()) && AtMost(value, threshold)
    {
      if threshold.Some? {
        AddCheck(name, value.Some? && value.value <= threshold.value);
      }
    }

    /** Note a field of the accounting that cannot be used. */
    method CheckField(name: string, value: Option<Amount>, integer: bool)
      requires Valid()
      modifies this
      ensures Valid() && checks == old(checks) + Gate(name, !IsUsable(value, integer), false)
      ensures Clear() <==> old(Clear()) && IsUsable(value, integer)
    {
      hide IsUsable, AllPassed, FailedNames;
      NothingIsUsable(integer);
      var valid := value.None? || ValidAccounting(value.value, integer);
      if !valid {
        AddCheck(name, false);
      }
    }

    method CheckAccounting(m: AgentMetrics)
      requires Valid()
      modifies this
      ensures Valid() && (Clear() <==> old(Clear()) && AccountingUsable(m))
      ensures checks == old(checks) + AccountingChecks(m)
    {
      hide IsUsable, Gate, Evaluation.Clear, Evaluation.Valid;
      var fields := [
        ("wall time accounting", m.wallTime, false), ("input token accounting", m.tokensIn, true),
        ("output token accounting", m.tokensOut, true), ("cost accounting", m.cost, false),
        ("turn accounting", m.turns, true), ("tool-call accounting", m.toolCalls, true)];
      for i := 0 to |fields|
        invariant Valid() && checks == old(checks) + Unusable(fields[..i])
        invariant Clear() <==> old(Clear()) && forall j | 0 <= j < i :: IsUsable(fields[j].1, fields[j].2)
      {
        CheckField(fields[i].0, fields[i].1, fields[i].2);
        assert fields[..i + 1][..i] == fields[..i];
      }
      assert fields[..|fields|] == fields;
      SixFields(fields[0], fields[1], fields[2], fields[3], fields[4], fields[5]);
    }

    method CheckScanners(status: map<string, string>, required: seq<string>)
      requires Valid()
      modifies this
      ensures Valid() && checks == old(checks) + ScannerChecks(status, required)
      ensures Clear() <==> old(Clear()) && forall s | s in required :: s in status && status[s] == "ok"
    {
      hide AllPassed, FailedNames;
      for i := 0 to |required|
        invariant Valid() && checks == old(checks) + ScannerChecks(status, required)[..i]
        invariant Clear() <==>
          old(Clear()) && forall j | 0 <= j < i :: required[j] in status && status[required[j]] == "ok"
      {
        AddCheck("scanner " + required[i], required[i] in status && status[required[i]] == "ok");
      }
    }

    method CheckExecution(e: Evidence)
      requires Valid()
      modifies this
      ensures Valid() && (Clear() <==> old(Clear()) && RanCleanly(e))
      ensures checks == old(checks) + ExecutionChecks(e)
    {
      hide AccountingUsable, AccountingChecks, Evaluation.Clear, Evaluation.Valid;
      CheckAccounting(e.efficiency);
      if e.efficiency.exitCode.Some? {
        AddCheck("agent command", e.efficiency.exitCode.value == 0);
      }
      if Reported(e.correctness.integrityError) {
        AddCheck("evaluation integrity", false);
      }
    }

    method CheckGrades(e: Evidence, policy: Policy)
      requires Valid()
      modifies this
      ensures Valid() && checks == old(checks) + GradeChecks(e, policy)
      ensures Clear() <==> old(Clear()) && ScoresMeet(e, policy)
    {
      hide AtLeast, Evaluation.Clear, Evaluation.Valid;
      if policy.requireResolved {
        AddCheck("hidden tests", e.correctness.Resolved());
      }
      Minimum("coverage percent", e.correctness.coverage, policy.minCoverage);
      Minimum("judge score", e.judge.weightedScore, policy.minJudgeScore);
    }

    method MaximumCount(name: string, value: Option<int>, threshold: Option<int>)
      requires Valid()
      modifies this
      ensures Valid() && checks == old(checks) + Gate(name, threshold.Some?, CountAtMost(value, threshold))
      ensures Clear() <==> old(Clear()) && CountAtMost(value, threshold)
    {
      Maximum(name, AsReal(value), AsReal(threshold));
    }

    method CheckFindings(e: Evidence, policy: Policy)
      requires Valid()
      modifies this
      ensures Valid() && (Clear() <==> old(Clear()) && FindingsMeet(e, policy))
      ensures checks == old(checks) + FindingChecks(e, policy)
    {
      hide CountAtMost, Gate, Evaluation.Clear, Evaluation.Valid;
      MaximumCount("lint errors", e.scans.lintErrors, policy.maxLintErrors);
      MaximumCount("high security findings", e.scans.highFindings, policy.maxHighFindings);
      MaximumCount("secrets", e.scans.secrets, policy.maxSecrets);
      MaximumCount("vulnerabilities", e.scans.vulnerabilities, policy.maxVulnerabilities);
    }

    method CheckTokens(e: Evidence, threshold: Option<int>)
      requires Valid()
      modifies this
      ensures Valid()
      ensures checks
        == old(checks) + Gate("total tokens", threshold.Some?, CountAtMost(TotalTokens(e.efficiency), threshold))
      ensures Clear() <==> old(Clear()) && CountAtMost(TotalTokens(e.efficiency), threshold)
    {
      hide Gate, Evaluation.Clear, Evaluation.Valid;
      var tokensIn, tokensOut := Accounted(e.efficiency.tokensIn, true), Accounted(e.efficiency.tokensOut, true);
      var total :=
        if tokensIn.Some? && tokensOut.Some? then Some(tokensIn.value + tokensOut.value) else None;
      Maximum("total tokens", total, AsReal(threshold));
    }

    method CheckUsage(e: Evidence, policy: Policy)
      requires Valid()
      modifies this
      ensures Valid() && (Clear() <==> old(Clear()) && UsageMeets(e, policy))
      ensures checks == old(checks) + UsageChecks(e, policy)
    {
      hide AtMost, CountAtMost, Measured, TotalTokens, Gate, Evaluation.Clear, Evaluation.Valid;
      Maximum("wall time seconds", Accounted(e.efficiency.wallTime, false), policy.maxWallTime);
      CheckTokens(e, policy.maxTotalTokens);
      Maximum("cost USD", Accounted(e.efficiency.cost, false), policy.maxCost);
    }
  }

  /** Decide a trial: it is accepted exactly when the evidence is acceptable, and otherwise says why. */
  method EvaluateOutcome(e: Evidence, policy: Policy) returns (outcome: RunOutcome)
    ensures IsOutcome(outcome, e, policy)
    ensures outcome.status == Accepted <==> Acceptable(e, policy)
    ensures outcome.status == InfraError <==> !NoInfraError(e)
  {
    hide AtLeast, RanCleanly, FindingsMeet, UsageMeets, AllPassed, ExecutionChecks, GradeChecks, ScannerChecks,
         FindingChecks, UsageChecks, FailedNames;
    if Reported(e.correctness.infraError) {
      return RunOutcome(InfraError, [e.correctness.infraError.value], []);
    }
    if Reported(e.efficiency.infraError) {
      return RunOutcome(InfraError, [e.efficiency.infraError.value], []);
    }
    var evaluation := new Evaluation();
    evaluation.CheckExecution(e);
    evaluation.CheckGrades(e, policy);
    evaluation.CheckScanners(e.scans.status, policy.requiredScanners);
    evaluation.CheckFindings(e, policy);
    evaluation.CheckUsage(e, policy);
    if policy.requireChallenges {
      evaluation.AddCheck("adversarial challenges", e.challengesPassed == Some(true));
    }
    NoReasonsMeansAllPassed(evaluation.checks);
    outcome := RunOutcome(if evaluation.reasons == [] then Accepted else Rejected, evaluation.reasons,
      evaluation.checks);
  }

  // ----- What the lists say -----

  /** A check of the agent's run is called for: unusable accounting, an exit code, or an integrity error. */
  ghost predicate ExecutionCalledFor(e: Evidence, name: string, passed: bool) {
    var m := e.efficiency;
    || (name == "wall time accounting" && !passed && !IsUsable(m.wallTime, false))
    || (name == "input token accounting" && !passed && !IsUsable(m.tokensIn, true))
    || (name == "output token accounting" && !passed && !IsUsable(m.tokensOut, true))
    || (name == "cost accounting" && !passed && !IsUsable(m.cost, false))
    || (name == "turn accounting" && !passed && !IsUsable(m.turns, true))
    || (name == "tool-call accounting" && !passed && !IsUsable(m.toolCalls, true))
    || (name == "agent command" && m.exitCode.Some? && (passed <==> m.exitCode.value == 0))
    || (name == "evaluation integrity" && !passed && IsError(e.correctness.integrityError))
  }

  ghost predicate GradeCalledFor(e: Evidence, p: Policy, name: string, passed: bool) {
    || (name == "hidden tests" && p.requireResolved && (passed <==> Solves(e.correctness)))
    || (name == "coverage percent" && p.minCoverage.Some?
          && (passed <==> AtLeast(e.correctness.coverage, p.minCoverage)))
    || (name == "judge score" && p.minJudgeScore.Some?
          && (passed <==> AtLeast(e.judge.weightedScore, p.minJudgeScore)))
    || (exists s | s in p.requiredScanners ::
          name == "scanner " + s && (passed <==> s in e.scans.status && e.scans.status[s] == "ok"))
    || (name == "adversarial challenges" && p.requireChallenges && (passed <==> e.challengesPassed == Some(true)))
  }

  ghost predicate MaximumCalledFor(e: Evidence, p: Policy, name: string, passed: bool) {
    var m := e.efficiency;
    || (name == "lint errors" && p.maxLintErrors.Some?
          && (passed <==> CountAtMost(e.scans.lintErrors, p.maxLintErrors)))
    || (name == "high security findings" && p.maxHighFindings.Some?
          && (passed <==> CountAtMost(e.scans.highFindings, p.maxHighFindings)))
    || (name == "secrets" && p.maxSecrets.Some? && (passed <==> CountAtMost(e.scans.secrets, p.maxSecrets)))
    || (name == "vulnerabilities" && p.maxVulnerabilities.Some?
          && (passed <==> CountAtMost(e.scans.vulnerabilities, p.maxVulnerabilities)))
    || (name == "wall time seconds" && p.maxWallTime.Some?
          && (passed <==> AtMost(Measured(m.wallTime, false), p.maxWallTime)))
    || (name == "total tokens" && p.maxTotalTokens.Some?
          && (passed <==> CountAtMost(TotalTokens(m), p.maxTotalTokens)))
    || (name == "cost USD" && p.maxCost.Some? && (passed <==> AtMost(Measured(m.cost, false), p.maxCost)))
  }

  lemma {:induction false} FailedNamesMeans(checks: seq<Check>, name: string)
    ensures name in FailedNames(checks) <==> Check(name, false) in checks
  {
    if checks != [] {
      FailedNamesMeans(checks[..|checks| - 1], name);
      assert checks == checks[..|checks| - 1] + [checks[|checks| - 1]];
    }
  }

  lemma ScannerChecksMean(status: map<string, string>, required: seq<string>, name: string, passed: bool)
    ensures Check(name, passed) in ScannerChecks(status, required)
      <==> exists s | s in required :: name == "scanner " + s && (passed <==> s in status && status[s] == "ok")
  {
    var checks := ScannerChecks(status, required);
    if s :| s in required && name == "scanner " + s && (passed <==> s in status && status[s] == "ok") {
      var i :| 0 <= i < |required| && required[i] == s;
      assert checks[i] == Check(name, passed);
    }
  }

  lemma ExecutionChecksMean(e: Evidence, name: string, passed: bool)
    ensures Check(name, passed) in ExecutionChecks(e) <==> ExecutionCalledFor(e, name, passed)
  {
    hide IsUsable;
  }

  lemma GradeChecksMean(e: Evidence, p: Policy, name: string, passed: bool)
    ensures Check(name, passed)
      in GradeChecks(e, p) + ScannerChecks(e.scans.status, p.requiredScanners)
         + Gate("adversarial challenges", p.requireChallenges, e.challengesPassed == Some(true))
      <==> GradeCalledFor(e, p, name, passed)
  {
    hide AtLeast, Solves, ScannerChecks;
    ScannerChecksMean(e.scans.status, p.requiredScanners, name, passed);
  }

  lemma MaximumChecksMean(e: Evidence, p: Policy, name: string, passed: bool)
    ensures Check(name, passed) in FindingChecks(e, p) + UsageChecks(e, p) <==> MaximumCalledFor(e, p, name, passed)
  {
    hide AtMost, CountAtMost, Measured, TotalTokens;
  }

  /** Main result: a check is listed for exactly its own field and gate, and failed checks are the reasons. */
  lemma OutcomeNamesFailures(o: RunOutcome, e: Evidence, p: Policy, name: string, passed: bool)
    requires IsOutcome(o, e, p) && NoInfraError(e)
    ensures Check(name, passed) in o.checks
      <==> ExecutionCalledFor(e, name, passed) || GradeCalledFor(e, p, name, passed)
           || MaximumCalledFor(e, p, name, passed)
    ensures name in o.reasons <==> Check(name, false) in o.checks
  {
    hide ExecutionCalledFor, GradeCalledFor, MaximumCalledFor, ExecutionChecks, GradeChecks, ScannerChecks,
         FindingChecks, UsageChecks, Gate, Acceptable;
    ExecutionChecksMean(e, name, passed);
    GradeChecksMean(e, p, name, passed);
    MaximumChecksMean(e, p, name, passed);
    FailedNamesMeans(o.checks, name);
  }

  // ----- Stricter policies accept less -----

  ghost predicate Looser(a: Option<real>, b: Option<real>) {
    a.Some? ==> b.Some? && b.value <= a.value
  }

  ghost predicate LooserCount(a: Option<int>, b: Option<int>) {
    a.Some? ==> b.Some? && b.value <= a.value
  }

  /** Policy `strict` asks for everything that `loose` asks for. */
  ghost predicate Stricter(strict: Policy, loose: Policy) {
    && (loose.requireResolved ==> strict.requireResolved)
    && (loose.minCoverage.Some? ==> strict.minCoverage.Some? && strict.minCoverage.value >= loose.minCoverage.value)
    && (loose.minJudgeScore.Some? ==>
         strict.minJudgeScore.Some? && strict.minJudgeScore.value >= loose.minJudgeScore.value)
    && (forall s | s in loose.requiredScanners :: s in strict.requiredScanners)
    && LooserCount(loose.maxLintErrors, strict.maxLintErrors)
    && LooserCount(loose.maxHighFindings, strict.maxHighFindings)
    && LooserCount(loose.maxSecrets, strict.maxSecrets)
    && LooserCount(loose.maxVulnerabilities, strict.maxVulnerabilities)
    && Looser(loose.maxWallTime, strict.maxWallTime)
    && LooserCount(loose.maxTotalTokens, strict.maxTotalTokens)
    && Looser(loose.maxCost, strict.maxCost)
    && (loose.requireChallenges ==> strict.requireChallenges)
  }

  /** Main result: adding a gate or tightening a threshold never turns a rejection into an acceptance. */
  lemma StricterAcceptsLess(e: Evidence, strict: Policy, loose: Policy)
    requires Stricter(strict, loose) && Acceptable(e, strict)
    ensures Acceptable(e, loose)
  {
    hide Measured, TotalTokens, RanCleanly;
  }
}
