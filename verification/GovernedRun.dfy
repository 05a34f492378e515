/** The governed trial as a step machine, in which every step may fail. */
module GovernedRun {
  import opened Wrappers
  import opened AuditChain
  import opened Outcome
  import opened RunRecord

  /** The event types of the first `n` lines of an audit file. */
  function EventTypes(lines: seq<Line>, n: nat): (types: seq<EventType>)
    requires n <= |lines| && forall i | 0 <= i < n :: lines[i].Parsed?
    ensures |types| == n && forall i | 0 <= i < n :: types[i] == lines[i].event.payload.eventType
  {
    seq(n, i requires 0 <= i < n => lines[i].event.payload.eventType)
  }

  /** What one append is given, and how its write ends. */
  datatype Input = Input(attributes: string, spanId: string, timestamp: string, outcome: WriteOutcome)

  /** Every step of completing a record that may raise, or that may fail in its own way. */
  datatype CompletionStep =
    | PrepareRecord | CheckEvidence | CloseAudit | DeriveAssessments | InspectArtifacts | RedactRecord | SaveRecord
    | RedactAgain | SaveAgain

  /** What happens around the completion of a record. */
  datatype Completion = Completion(
    fails: set<CompletionStep>, scannersConsistent: bool, taskTree: Option<string>, containment: Option<Message>,
    lateContainment: Option<Message>, notFinalized: Option<Message>, attestationFailure: Option<Message>)

  /** Completing a record meets no failure of its own. */
  ghost predicate Clean(env: Completion) {
    && env.fails == {} && env.containment.None? && env.lateContainment.None? && env.notFinalized.None?
    && env.attestationFailure.None?
  }

  /** Why a saved or unsaved record has no attestation, in the order in which it is noticed. */
  ghost function PersistError(env: Completion, p: Provenance, incomplete: Message): Option<Message> {
    if env.lateContainment.Some? then env.lateContainment
    else if env.notFinalized.Some? then env.notFinalized
    else if IsAttestable(p) then env.attestationFailure
    else Some(incomplete)
  }

  /** Why a completed record has no attestation; what was found before it was saved comes first. */
  ghost function AttestationError(env: Completion, p: Provenance, incomplete: Message): Option<Message> {
    if env.containment.Some? then env.containment else PersistError(env, p, incomplete)
  }

  /** Saving is reached, and raises. */
  ghost predicate SaveRaises(env: Completion) {
    env.lateContainment == None && env.notFinalized == None && SaveRecord in env.fails
  }

  /** Publishing raises: before the first save, in it, or while a record with an attestation error is saved again. */
  ghost predicate PublishRaises(env: Completion, p: Provenance, incomplete: Message) {
    || DeriveAssessments in env.fails || InspectArtifacts in env.fails || RedactRecord in env.fails || SaveRaises(env)
    || (AttestationError(env, p, incomplete) != None && (RedactAgain in env.fails || SaveAgain in env.fails))
  }

  /** Completion raises before the decision is recorded. */
  ghost predicate RaisesEarly(env: Completion) {
    PrepareRecord in env.fails || CheckEvidence in env.fails
  }

  /** A record is saved and attested without a failure. */
  ghost predicate Attests(env: Completion, p: Provenance) {
    && !RaisesEarly(env) && CloseAudit !in env.fails && DeriveAssessments !in env.fails
    && InspectArtifacts !in env.fails && RedactRecord !in env.fails && SaveRecord !in env.fails
    && env.containment.None? && env.lateContainment.None? && env.notFinalized.None? && env.attestationFailure.None?
    && IsAttestable(p)
  }

  lemma AttestingMeans(env: Completion, p: Provenance, incomplete: Message)
    requires !RaisesEarly(env) && CloseAudit !in env.fails
    ensures Attests(env, p) <==> AttestationError(env, p, incomplete) == None && !PublishRaises(env, p, incomplete)
  {
  }

  /** Whether a record can be attested depends on its identities alone. */
  lemma SameIdentities(env: Completion, p: Provenance, q: Provenance, incomplete: Message)
    requires p.imageTag == q.imageTag && p.imageDigest == q.imageDigest && p.harnessCommit == q.harnessCommit
      && p.harnessDirty == q.harnessDirty && p.harnessWorktree == q.harnessWorktree
    ensures AttestationError(env, p, incomplete) == AttestationError(env, q, incomplete)
    ensures PublishRaises(env, p, incomplete) == PublishRaises(env, q, incomplete)
  {
  }

  lemma CleanAttests(env: Completion, p: Provenance)
    requires Clean(env) && IsAttestable(p)
    ensures Attests(env, p)
  {
  }

  /** How a phase ends: raised before its decision was recorded, raised after it, or returned. */
  datatype Exit = RaisedEarly | RaisedLate | Returned

  /**
   * `after` is `before` with an outcome, audit and attestation evidence, and possibly more infrastructure errors:
   * grades, metrics and image identities stay, and no error is ever taken back.
   */
  ghost predicate Keeps(after: Record, before: Record) {
    && after == before.(efficiency := before.efficiency.(infraError := after.efficiency.infraError),
                        provenance := after.provenance, outcome := after.outcome)
    && after.provenance.imageTag == before.provenance.imageTag
    && after.provenance.imageDigest == before.provenance.imageDigest
    && after.provenance.harnessCommit == before.provenance.harnessCommit
    && after.provenance.harnessDirty == before.provenance.harnessDirty
    && after.provenance.harnessWorktree == before.provenance.harnessWorktree
    && Grows(before.efficiency.infraError, after.efficiency.infraError)
    && (before.provenance.auditError.Some? ==> after.provenance.auditError.Some?)
  }

  /** Evidence that matched before still matches, as long as no error was added. */
  lemma KeptEvidenceMatches(after: Record, before: Record, g: Governance, tree: Option<string>)
    requires Keeps(after, before) && !Reported(after.efficiency.infraError) && EvidenceMatches(before, g, tree)
    ensures EvidenceMatches(after, g, tree)
  {
  }

  /** The identities that an attestation cannot do without are all there. */
  ghost predicate IsAttestable(p: Provenance) {
    && IsNamed(p.imageTag) && IsNamed(p.imageDigest) && IsNamed(p.harnessCommit) && p.harnessDirty != None
    && IsNamed(p.harnessWorktree)
  }

  ghost predicate IsNamed(text: Option<string>) {
    text != None && text != Some("")
  }

  predicate Attestable(p: Provenance)
    ensures Attestable(p) <==> IsAttestable(p)
  {
    Reported(p.imageTag) && Reported(p.imageDigest) && Reported(p.harnessCommit) && p.harnessDirty.Some?
      && Reported(p.harnessWorktree)
  }

  datatype GitState = GitState(sha: string, dirty: bool, worktree: string)

  /** How a block of steps may be interrupted: by an error with a handler, by an unsafe archive, or by anything else. */
  datatype Interruption = Uninterrupted | Handled(error: Message) | UnsafeArchive(error: Message) | Unhandled

  datatype CommandEnd =
    | Exited(code: int, sandboxError: Option<Message>) | TimedOut(error: Message) | OutputLimit(error: Message)

  datatype SnapshotEnd = Promoted | Refused(error: Message) | Interrupted(how: Interruption)

  /** What happens while the agent runs and is cleaned up after. */
  datatype AgentRun = AgentRun(
    setup: Interruption, execution: Interruption, partialMetrics: Option<AgentMetrics>, metrics: AgentMetrics,
    runtimeDigest: Option<string>, end: CommandEnd, wallTime: Amount, quiescence: Option<Message>,
    snapshot: SnapshotEnd,
    modelMismatch: Message, proxyLogError: Option<Message>,
    podError: Option<Message>, proxyError: Option<Message>, secretError: Option<Message>)

  /** Every resource of the trial was deleted, and the proxy log was kept. */
  ghost predicate CleanedUp(env: AgentRun) {
    env.proxyLogError.None? && env.podError.None? && env.proxyError.None? && env.secretError.None?
  }

  /** The agent was set up, and its command was started and ended in some way. */
  ghost predicate Ran(env: AgentRun) {
    env.setup == Uninterrupted && env.execution == Uninterrupted
  }

  /** The error that the end of the command leaves. */
  ghost function EndError(end: CommandEnd): Option<Message> {
    match end
    case Exited(_, sandboxError) => sandboxError
    case TimedOut(error) => Some(error)
    case OutputLimit(error) => Some(error)
  }

  /** The agent ran, its processes were stopped, and its workspace was taken over. */
  ghost predicate LeavesSnapshot(env: AgentRun) {
    Ran(env) && env.quiescence.None? && env.snapshot == Promoted
  }

  /** The first interruption of the agent's part of the trial. */
  ghost function Stopped(env: AgentRun): Interruption {
    if env.setup != Uninterrupted then env.setup
    else if env.execution != Uninterrupted then env.execution
    else if env.quiescence.None? && env.snapshot.Interrupted? then env.snapshot.how
    else Uninterrupted
  }

  /** Why a workspace was turned away before it was evaluated. */
  ghost function Refusal(env: AgentRun): Option<Message> {
    if Stopped(env).UnsafeArchive? then Some(Stopped(env).error)
    else if Ran(env) && env.quiescence.None? && env.snapshot.Refused? then Some(env.snapshot.error)
    else None
  }

  /** The agent could not be set up or stopped, or its command did not end by itself in a sound sandbox. */
  ghost predicate RunFailed(env: AgentRun) {
    Stopped(env).Handled? || (Ran(env) && (EndError(env.end).Some? || env.quiescence.Some?))
  }

  /** The agent runs to its end, leaves a clean snapshot, and everything it needed is deleted. */
  ghost predicate RunsSmoothly(env: AgentRun) {
    && env.setup == Uninterrupted && env.execution == Uninterrupted && env.end.Exited? && env.end.sandboxError.None?
    && env.quiescence.None? && env.snapshot == Promoted && CleanedUp(env)
  }

  /** What is then known of the agent. */
  ghost function MetricsOf(env: AgentRun): AgentMetrics
    requires env.end.Exited?
  {
    env.metrics.(runtimeImageDigest := env.runtimeDigest, wallTime := Some(env.wallTime),
                 exitCode := Some(env.end.code), infraError := env.end.sandboxError)
  }

  /** What is known of the agent when its command has ended, in whatever way. */
  ghost function Taken(env: AgentRun): AgentMetrics {
    env.metrics.(runtimeImageDigest := env.runtimeDigest, wallTime := Some(env.wallTime),
                 exitCode := if env.end.Exited? then Some(env.end.code) else env.metrics.exitCode,
                 infraError := EndError(env.end))
  }

  /** What is known of the agent when its part of the trial is over, before its model is checked. */
  ghost function LeftMetrics(env: AgentRun, before: AgentMetrics): AgentMetrics {
    var m :=
      if env.setup != Uninterrupted then before
      else if env.execution != Uninterrupted then
        if env.partialMetrics.Some? then env.partialMetrics.value else before
      else Taken(env);
    if Stopped(env).Handled? then m.(infraError := Some(Stopped(env).error))
    else if Ran(env) && env.quiescence.Some? then m.(infraError := Extended(m.infraError, env.quiescence.value))
    else m
  }

  /** An error list and what may follow it. */
  ghost function Plus(errors: Option<string>, error: Option<string>): Option<string> {
    if IsError(error) then Extended(errors, error.value) else errors
  }

  /** An error list when the trial's resources were deleted: the log comes first, and the deletions are one entry. */
  ghost function WithCleanup(env: AgentRun, errors: Option<string>): Option<string> {
    Plus(Plus(errors, env.proxyLogError), Plus(Plus(Plus(None, env.podError), env.proxyError), env.secretError))
  }

  /** Every step of evaluating a workspace that may raise. */
  datatype EvaluationStep =
    | PrepareRun | CheckSafety | WriteRejection | Capture | EnsureImage | RunTests | ComputeDiff | RunScanners
    | ScreenJudge | RunJudge | WriteSkip | RunChallenges

  /** What happens while a workspace is evaluated. */
  datatype Evaluation = Evaluation(
    fails: set<EvaluationStep>, mode: EvaluationMode, integrityError: Option<Message>, git: Option<GitState>,
    tests: TestResults, diffError: Option<Message>, runScans: bool, scans: ScanResults, runJudge: bool,
    judgeScreen: Option<Message>, judge: JudgeResult, challengesPassed: bool, completion: Completion)

  /** Every step of an evaluation ends well, whatever the grades are. */
  ghost predicate EvaluatesSmoothly(env: Evaluation) {
    env.fails == {} && env.integrityError.None? && env.diffError.None? && Clean(env.completion)
  }

  /** Evaluation leaves the metrics, the outcome and the audit evidence alone, except for audit errors. */
  ghost predicate Untouched(after: Record, before: Record) {
    && after.efficiency == before.efficiency.(infraError := after.efficiency.infraError)
    && Grows(before.efficiency.infraError, after.efficiency.infraError)
    && after.provenance.attestationError == before.provenance.attestationError
    && (before.provenance.auditError.Some? ==> after.provenance.auditError.Some?)
  }

  /** The stages of an evaluation after its start, up to some point. */
  ghost predicate IsProgress(stages: seq<EventType>) {
    || stages == [] || stages == [TestsCompleted] || stages == [TestsCompleted, ScannersCompleted]
    || IsWhole(stages)
  }

  ghost predicate IsWhole(stages: seq<EventType>) {
    || stages == [TestsCompleted, ScannersCompleted, JudgeCompleted]
    || stages == [TestsCompleted, ScannersCompleted, JudgeSkipped]
  }

  class Trial {
    const governance: Governance
    const task: Task
    const audit: AuditChain
    const inputs: nat -> Input
    const texts: Fault -> Message
    const auditFailure: nat -> Message
    var appends: nat
    var record: Record
    var saved: Option<Record>
    var attested: Option<Record>

    constructor (governance: Governance, task: Task, audit: AuditChain, record: Record,
                 inputs: nat -> Input, texts: Fault -> Message, auditFailure: nat -> Message)
      requires audit.Valid() && !audit.torn && record.provenance.auditError.None?
      ensures Valid() && this.governance == governance && this.task == task && this.audit == audit
        && this.record == record && this.inputs == inputs && this.texts == texts && this.auditFailure == auditFailure
      ensures saved == None && attested == None
    {
      this.governance, this.task, this.audit, this.record := governance, task, audit, record;
      this.inputs, this.texts, this.auditFailure := inputs, texts, auditFailure;
      appends, saved, attested := 0, None, None;
    }

    /** An audit failure is always among the infrastructure errors, and without one the file is whole. */
    ghost predicate Valid()
      reads this, audit
    {
      && audit.Valid()
      && (AuditOk() ==> !audit.torn)
      && (!AuditOk() ==> Reported(record.efficiency.infraError))
    }

    ghost predicate AuditOk()
      reads this
    {
      record.provenance.auditError.None?
    }

    /** An event made from some of the trial's inputs. */
    ghost predicate MadeFrom(p: Payload, input: Input) {
      && p.runId == audit.runId && p.traceId == audit.traceId && p.parentSpanId.None?
      && p.attributes == input.attributes && p.spanId == input.spanId && p.timestamp == input.timestamp
    }

    /** Every event that the trial may append is valid, small enough and durably written. */
    ghost predicate WritesSucceed() {
      forall i: nat ::
        && inputs(i).outcome == Durable
        && forall p | MadeFrom(p, inputs(i)) ::
             audit.codec.valid(p) && audit.codec.size(Event(p, audit.codec.digest(p))) <= MAX_EVENT_BYTES
    }

    /** Events can be appended, now and until the chain is closed. */
    ghost predicate Recording()
      reads this, audit
    {
      WritesSucceed() && AuditOk() && !audit.closed
    }

    /** The events recorded so far. */
    ghost function Emitted(): seq<EventType>
      reads this, audit
      requires Valid()
    {
      EventTypes(audit.file, audit.eventCount)
    }

    /** Since a state with the given events, the chain has gained `stages` and nothing else. */
    ghost predicate Added(wasOk: bool, before: seq<EventType>, wasClosed: bool, stages: seq<EventType>)
      reads this, audit
      requires Valid()
    {
      AuditOk() ==> wasOk && audit.closed == wasClosed && Emitted() == before + stages
    }

    /** Since then, the open chain has gained the stages of an evaluation, all of them unless it raised. */
    ghost predicate EvaluationEvents(wasOk: bool, before: seq<EventType>, wasClosed: bool, raised: bool)
      reads this, audit
      requires Valid()
    {
      AuditOk() ==>
        && wasOk && audit.closed == wasClosed
        && exists stages :: IsProgress(stages) && (!raised ==> IsWhole(stages)) && Emitted() == before + stages
    }

    /** The outcome of the record is that of its evidence under the governed task. */
    ghost predicate Decided()
      reads this
    {
      && record.outcome.Some? && IsOutcome(record.outcome.value, record.Observed(), task.acceptance)
      && (record.IsAccepted() <==> Acceptable(record.Observed(), task.acceptance))
    }

    method RecordAuditFailure(error: Message)
      requires audit.Valid()
      modifies this`record
      ensures Valid() && !AuditOk()
      ensures record == old(record).(
        efficiency := old(record.efficiency).(infraError := Joined(old(record.efficiency.infraError), error)),
        provenance := old(record.provenance).(auditError := Some(error)))
    {
      record := record.(provenance := record.provenance.(auditError := Some(error)));
      record := record.WithInfraError(Joined(record.efficiency.infraError, error));
    }

    /** Append lifecycle evidence, and fail closed on a write error. */
    method AuditEvent(eventType: EventType)
      requires Valid()
      modifies this`record, this`appends, audit
      ensures Valid()
      ensures AuditOk() ==>
        old(AuditOk()) && !old(audit.closed) && !audit.closed && Emitted() == old(Emitted()) + [eventType]
      ensures AuditOk() || !old(AuditOk()) ==> record == old(record)
      ensures old(AuditOk()) && !AuditOk() ==>
        var error := auditFailure(appends);
        record == old(record).(
          efficiency := old(record.efficiency).(infraError := Joined(old(record.efficiency.infraError), error)),
          provenance := old(record.provenance).(auditError := Some(error)))
      ensures !old(AuditOk()) ==> audit.file == old(audit.file) && audit.eventCount == old(audit.eventCount)
      ensures appends == old(appends) + if old(AuditOk()) then 1 else 0
      ensures old(Recording()) ==> AuditOk()
    {
      if record.provenance.auditError.Some? {
        return;
      }
      var input := inputs(appends);
      appends := appends + 1;
      ghost var payload := audit.NextPayload(eventType, input.attributes, input.spanId, None, input.timestamp);
      assert MadeFrom(payload, input);
      var r := audit.Append(eventType, input.attributes, input.spanId, None, input.timestamp, input.outcome);
      if r.AuditError? {
        RecordAuditFailure(auditFailure(appends));
      } else {
        assert EventTypes(audit.file, audit.eventCount)
          == EventTypes(old(audit.file), old(audit.eventCount)) + [eventType];
      }
    }

    /** A model was observed, and it is the admitted one. */
    ghost predicate ModelMatches(model: Option<string>) {
      model.Some? && model == governance.matchedModel
    }

    /** Require the adapter to have observed exactly the admitted model. */
    method EnforceGovernedModelEvidence(mismatch: Message)
      requires Valid()
      modifies this`record
      ensures Valid()
      ensures record ==
        if old(record.efficiency.wallTime).None? || ModelMatches(old(record.efficiency.model)) then old(record)
        else old(record).WithInfraError(Extended(old(record.efficiency.infraError), mismatch))
    {
      if record.efficiency.wallTime.None? {
        return;
      }
      if record.efficiency.model == governance.matchedModel && record.efficiency.model.Some? {
        return;
      }
      record := record.WithInfraError(Extended(record.efficiency.infraError, mismatch));
    }

    // ----- Completing a record -----

    /** Report faults; each of them can be read in the infrastructure error. */
    method AddFaults(faults: seq<Fault>)
      requires Valid()
      modifies this`record
      ensures Valid() && record == old(record).WithInfraError(record.efficiency.infraError)
      ensures Grows(old(record.efficiency.infraError), record.efficiency.infraError)
      ensures faults == [] ==> record == old(record)
      ensures AllTold(faults, record.efficiency.infraError)
    {
      hide Contains;
      for i := 0 to |faults|
        invariant Valid() && record == old(record).WithInfraError(record.efficiency.infraError)
        invariant Grows(old(record.efficiency.infraError), record.efficiency.infraError)
        invariant i == 0 ==> record == old(record)
        invariant AllTold(faults[..i], record.efficiency.infraError)
      {
        var errors := Joined(record.efficiency.infraError, texts(faults[i]));
        MoreTold(faults[..i], record.efficiency.infraError, errors);
        assert faults[..i + 1] == faults[..i] + [faults[i]];
        record := record.WithInfraError(errors);
      }
      assert faults[..|faults|] == faults;
    }

    /** The text of every fault is part of an error. */
    ghost predicate AllTold(faults: seq<Fault>, error: Option<string>) {
      forall f | f in faults :: error.Some? && Contains(error.value, texts(f))
    }

    lemma MoreTold(faults: seq<Fault>, before: Option<string>, after: Option<string>)
      requires AllTold(faults, before) && Grows(before, after)
      ensures AllTold(faults, after)
    {
      hide Contains;
      forall f | f in faults ensures after.Some? && Contains(after.value, texts(f)) {
        if before != after {
          NotEmpty(before.value, texts(f));
          ContainsMore(before.value, after.value, texts(f));
        }
      }
    }

    lemma FaultTold(faults: seq<Fault>, error: Option<string>, f: Fault)
      requires AllTold(faults, error) && f in faults
      ensures IsError(error)
    {
      hide Contains;
      NotEmpty(error.value, texts(f));
    }

    /** No error, and so no fault. */
    lemma NoneTold(faults: seq<Fault>, error: Option<string>)
      requires AllTold(faults, error) && !IsError(error)
      ensures faults == []
    {
      hide Contains, AllTold;
      if faults != [] {
        FaultTold(faults, error, faults[0]);
      }
    }

    method Decide()
      requires Valid()
      modifies this`record
      ensures Valid() && Decided() && record == old(record).(outcome := record.outcome)
    {
      hide Acceptable, IsOutcome;
      var outcome := EvaluateOutcome(record.Observed(), task.acceptance);
      record := record.(outcome := Some(outcome));
      assert record.Observed() == old(record).Observed();
    }

    /** Note what the chain has come to, and close it. */
    method FinishAudit(closeFails: bool)
      requires Valid()
      modifies this`record, audit
      ensures Valid() && Emitted() == old(Emitted()) && (audit.closed || !AuditOk())
      ensures AuditOk() <==> old(AuditOk()) && !closeFails
      ensures record.provenance.finalHash == audit.finalHash && record.provenance.eventCount == audit.eventCount
      ensures record == old(record).(
        provenance := old(record.provenance).(
          finalHash := record.provenance.finalHash, eventCount := record.provenance.eventCount,
          auditError := record.provenance.auditError),
        efficiency := old(record.efficiency).(infraError := record.efficiency.infraError))
      ensures if closeFails then Grows(old(record.efficiency.infraError), record.efficiency.infraError)
        else record.efficiency == old(record.efficiency)
             && record.provenance.auditError == old(record.provenance.auditError)
    {
      hide EventTypes, IsChain, Chained, Contains;
      record := record.(provenance := record.provenance.(finalHash := audit.finalHash, eventCount := audit.eventCount));
      if closeFails {
        RecordAuditFailure(auditFailure(appends));
      } else {
        audit.Close();
      }
    }

    /** Append the last two events. */
    method RecordOutcome()
      requires Valid()
      modifies this`record, this`appends, audit
      ensures Valid()
      ensures AuditOk() ==>
        && old(AuditOk()) && !old(audit.closed) && !audit.closed && record == old(record)
        && Emitted() == old(Emitted()) + [OutcomeDecided, RunCompleted]
      ensures record == old(record).(
        provenance := old(record.provenance).(auditError := record.provenance.auditError),
        efficiency := old(record.efficiency).(infraError := record.efficiency.infraError))
      ensures Grows(old(record.efficiency.infraError), record.efficiency.infraError)
      ensures !old(AuditOk()) ==> !AuditOk()
      ensures old(Recording()) ==> Recording()
    {
      hide EventTypes, IsChain, Chained, WritesSucceed, Contains, Joined, AuditChain.Valid;
      AuditEvent(OutcomeDecided);
      AuditEvent(RunCompleted);
      assert AuditOk() ==> Emitted() == old(Emitted()) + [OutcomeDecided] + [RunCompleted];
    }

    /** Record the decision as the last two events, close the chain, and decide again if that failed. */
    method RecordDecision(closeFails: bool)
      requires Valid()
      modifies this`record, this`appends, audit
      ensures Valid() && Decided() && Keeps(record, old(record))
      ensures AuditOk() ==>
        && old(AuditOk()) && !old(audit.closed) && Emitted() == old(Emitted()) + [OutcomeDecided, RunCompleted]
        && record.provenance.finalHash == audit.finalHash && record.provenance.eventCount == audit.eventCount
      ensures audit.closed || !AuditOk()
      ensures record.provenance.attestationError == old(record.provenance.attestationError)
      ensures old(Recording()) && !closeFails ==> AuditOk()
      ensures closeFails ==> !AuditOk()
      ensures AuditOk() ==> record.Observed() == old(record).Observed()
    {
      hide Acceptable, IsOutcome, EventTypes, IsChain, Chained, WritesSucceed, Contains, Joined;
      Decide();
      RecordOutcome();
      FinishAudit(closeFails);
      if record.provenance.auditError.Some? {
        Decide();
      }
    }

    /** Save the record and attest it; the error says why there is no attestation. */
    method Persist(env: Completion) returns (raised: bool, error: Option<Message>)
      requires Valid()
      modifies this`saved, this`attested
      ensures Valid() && (raised <==> SaveRaises(env))
      ensures !raised ==> error == PersistError(env, record.provenance, texts(AttestationIncomplete))
      ensures saved ==
        if raised || env.lateContainment.Some? || env.notFinalized.Some? then old(saved) else Some(record)
      ensures attested == if raised || error.Some? then old(attested) else Some(record)
    {
      if env.lateContainment.Some? {
        return false, env.lateContainment;
      }
      if env.notFinalized.Some? {
        return false, env.notFinalized;
      }
      if SaveRecord in env.fails {
        return true, None;
      }
      saved := Some(record);
      if !Attestable(record.provenance) {
        return false, Some(texts(AttestationIncomplete));
      }
      if env.attestationFailure.Some? {
        return false, env.attestationFailure;
      }
      attested := Some(record);
      return false, None;
    }

    /** Note an attestation error among the infrastructure errors, and decide again. */
    method NoteAttestationError(error: Message, evenIfNoted: bool)
      requires Valid()
      modifies this`record
      ensures Valid() && Decided() && Keeps(record, old(record)) && !record.IsAccepted()
      ensures record == old(record).(
        outcome := record.outcome, provenance := old(record.provenance).(attestationError := Some(error)),
        efficiency := old(record.efficiency).(infraError :=
          if evenIfNoted then Extended(old(record.efficiency.infraError), error)
          else Joined(old(record.efficiency.infraError), error)))
    {
      hide Acceptable, IsOutcome, Contains;
      record := record.(provenance := record.provenance.(attestationError := Some(error)));
      var infraError := record.efficiency.infraError;
      record := record.WithInfraError(if evenIfNoted then Extended(infraError, error) else Joined(infraError, error));
      Decide();
      if record.IsAccepted() {
        AcceptedHasNoError(record.Observed(), task.acceptance);
      }
    }

    /** The part of completion after the decision: containment, saving, attesting, and correcting. */
    method Publish(env: Completion) returns (raised: bool)
      requires Valid() && Decided()
      modifies this`record, this`saved, this`attested
      ensures Valid() && Decided() && Keeps(record, old(record)) && AuditOk() == old(AuditOk())
      ensures raised <==> PublishRaises(env, old(record.provenance), texts(AttestationIncomplete))
      ensures !raised ==> saved == Some(record)
      ensures var error := AttestationError(env, old(record.provenance), texts(AttestationIncomplete));
        && (error.None? ==> record == old(record) && (!raised ==> attested == Some(record)))
        && (error.Some? && !raised ==>
              && record.efficiency.infraError == Joined(
                   Plus(old(record.efficiency.infraError), env.containment), error.value)
              && !record.IsAccepted() && record.provenance == old(record.provenance).(attestationError := error))
      ensures
        var noted := if env.containment.Some? then env.containment else old(record.provenance.attestationError);
        attested == old(attested) || (attested.Some? && attested.value.provenance.attestationError == noted)
      ensures record.provenance.finalHash == old(record.provenance.finalHash)
      ensures record.provenance.eventCount == old(record.provenance.eventCount)
    {
      hide Acceptable, IsOutcome, AuditChain.Valid, Contains, Extended, Joined;
      if DeriveAssessments in env.fails || InspectArtifacts in env.fails {
        return true;
      }
      if env.containment.Some? {
        NoteAttestationError(env.containment.value, true);
      }
      if RedactRecord in env.fails {
        return true;
      }
      var error;
      raised, error := Persist(env);
      if raised {
        return;
      }
      if env.containment.Some? {
        error := env.containment;
      }
      if error.Some? {
        NoteAttestationError(error.value, false);
        if RedactAgain in env.fails || SaveAgain in env.fails {
          return true;
        }
        saved := Some(record);
      }
    }

    /** What an accepted record has behind it. */
    ghost predicate Vouched(tree: Option<string>)
      reads this, audit
    {
      && AuditOk() && audit.closed && !audit.torn
      && record.provenance.finalHash == audit.finalHash && record.provenance.eventCount == audit.eventCount
      && EvidenceMatches(record, governance, tree) && Acceptable(record.Observed(), task.acceptance)
      && saved == Some(record) && attested == Some(record)
    }

    /** What a record must show before its completion to be accepted. */
    ghost predicate Deserves(r: Record, env: Completion) {
      && env.scannersConsistent && EvidenceMatches(r, governance, env.taskTree)
      && Acceptable(r.Observed(), task.acceptance)
    }

    /** Every fault of the evidence, and what kept the record from being attested, can be read in the record. */
    ghost predicate Explained(before: Record, env: Completion)
      reads this
    {
      && AllTold(EvidenceFaults(before, governance, env.scannersConsistent, env.taskTree),
                 record.efficiency.infraError)
      && (CloseAudit in env.fails ==> !AuditOk())
      && var error := AttestationError(env, before.provenance, texts(AttestationIncomplete));
         error.Some? ==> !record.IsAccepted() && record.provenance.attestationError == error
    }

    /** Decide the outcome, finalize the audit evidence, and persist. */
    method CompleteRecord(env: Completion) returns (exit: Exit)
      requires Valid()
      modifies this`record, this`appends, this`saved, this`attested, audit
      ensures Valid() && Keeps(record, old(record))
      ensures exit == RaisedEarly <==> RaisesEarly(env)
      ensures exit == RaisedLate <==>
        !RaisesEarly(env) && PublishRaises(env, old(record.provenance), texts(AttestationIncomplete))
      ensures exit == Returned ==> Decided() && saved == Some(record) && Explained(old(record), env)
      ensures exit == Returned && record.IsAccepted() ==>
        && AuditOk() && Vouched(env.taskTree) && Deserves(old(record), env) && Attests(env, old(record.provenance))
        && record.provenance.attestationError == old(record.provenance.attestationError)
      ensures exit == Returned && AuditOk() ==>
        && old(AuditOk()) && !old(audit.closed) && Emitted() == old(Emitted()) + [OutcomeDecided, RunCompleted]
        && record.provenance.finalHash == audit.finalHash && record.provenance.eventCount == audit.eventCount
      ensures exit == RaisedEarly && AuditOk() ==>
        old(AuditOk()) && Emitted() == old(Emitted()) && audit.closed == old(audit.closed)
      ensures exit == RaisedLate ==> audit.closed || !AuditOk()
      ensures old(Recording()) && Clean(env) && IsAttestable(old(record.provenance)) ==>
        exit == Returned && AuditOk() && (record.IsAccepted() <==> Deserves(old(record), env))
    {
      hide Acceptable, IsOutcome, EventTypes, IsChain, Chained, EvidenceMatches, AuditChain.Valid, WritesSucceed;
      hide PublishRaises, AttestationError, EvidenceFaults, Contains, AllTold, Attests, Clean, IsAttestable;
      ghost var incomplete := texts(AttestationIncomplete);
      if Clean(env) && IsAttestable(record.provenance) {
        CleanAttests(env, record.provenance);
      }
      if PrepareRecord in env.fails {
        return RaisedEarly;
      }
      var faults := EvidenceFaults(record, governance, env.scannersConsistent, env.taskTree);
      NoFaultsMatch(record, governance, env.scannersConsistent, env.taskTree);
      AddFaults(faults);
      if CheckEvidence in env.fails {
        return RaisedEarly;
      }
      ghost var told := record.efficiency.infraError;
      RecordDecision(CloseAudit in env.fails);
      SameIdentities(env, old(record.provenance), record.provenance, incomplete);
      if CloseAudit !in env.fails {
        AttestingMeans(env, old(record.provenance), incomplete);
      }
      var raised := Publish(env);
      if raised {
        return RaisedLate;
      }
      MoreTold(faults, told, record.efficiency.infraError);
      if record.IsAccepted() {
        AcceptedHasNoError(record.Observed(), task.acceptance);
        NoneTold(faults, record.efficiency.infraError);
        KeptEvidenceMatches(record, old(record), governance, env.taskTree);
      }
      return Returned;
    }

    // ----- Evaluating a workspace -----

    /** Who runs this, when git can tell, and the admitted image. */
    ghost function Captured(p: Provenance, git: Option<GitState>): Provenance {
      var image := p.(imageTag := Some(governance.imageRef), imageDigest := Some(governance.imageDigest));
      if git.None? then image
      else
        var GitState(sha, dirty, worktree) := git.value;
        image.(harnessCommit := Some(sha), harnessDirty := Some(dirty), harnessWorktree := Some(worktree))
    }

    /** What the tests say, unless the agent's part failed or the difference to the task's workspace is not known. */
    ghost function TestsSeen(r: Record, env: Evaluation): TestResults {
      var tests :=
        if IsError(r.efficiency.infraError) && env.tests.infraError == None then
          env.tests.(infraError := r.efficiency.infraError)
        else env.tests;
      if env.diffError.None? then tests
      else tests.(integrityError := Extended(tests.integrityError, env.diffError.value))
    }

    /** What a record shows after tests, diff and scans. */
    ghost function Scanned(r: Record, env: Evaluation): Record {
      r.(provenance := Captured(r.provenance, env.git), correctness := TestsSeen(r, env),
         diffComplete := env.diffError.None?, scans := if env.runScans then env.scans else r.scans)
    }

    /** What a record shows after a safe workspace was evaluated. */
    ghost function Graded(r: Record, env: Evaluation): Record {
      var scanned := Scanned(r, env);
      var judged := if JudgeRuns(scanned, env) then scanned.(judge := env.judge) else scanned;
      if task.hasChallenges then judged.(challengesPassed := Some(env.challengesPassed)) else judged
    }

    /** What a record shows after an unsafe workspace was turned away. */
    ghost function Rejected(r: Record, env: Evaluation, error: Message): Record {
      r.(provenance := Captured(r.provenance, env.git),
         correctness := NO_RESULTS.(
           evaluationMode := env.mode, commandExitCode := Some(126), integrityError := Some(error)))
    }

    /** What a record shows after an evaluation that did not raise and lost no audit event. */
    ghost function Evaluated(r: Record, env: Evaluation): Record {
      if env.integrityError.Some? then Rejected(r, env, env.integrityError.value) else Graded(r, env)
    }

    /** Capturing again changes nothing. */
    lemma CapturedAgain(p: Provenance, git: Option<GitState>, after: Provenance)
      requires var before := Captured(p, git);
        && after.imageTag == before.imageTag && after.imageDigest == before.imageDigest
        && after.harnessCommit == before.harnessCommit && after.harnessDirty == before.harnessDirty
        && after.harnessWorktree == before.harnessWorktree
      ensures Captured(after, git) == after
    {
    }

    lemma CapturedIsAdmitted(p: Provenance, git: Option<GitState>)
      ensures Captured(p, git).imageDigest == Some(governance.imageDigest)
    {
    }

    lemma EvaluatedIsCaptured(r: Record, env: Evaluation)
      ensures Evaluated(r, env).provenance == Captured(r.provenance, env.git)
    {
    }

    ghost predicate JudgeRuns(r: Record, env: Evaluation) {
      env.runJudge && task.judgeEnabled && IsSafe(r) && env.judgeScreen.None?
    }

    method CaptureProvenance(git: Option<GitState>)
      requires Valid()
      modifies this`record
      ensures Valid() && record == old(record).(provenance := Captured(old(record.provenance), git))
      ensures record.provenance.auditError == old(record.provenance.auditError)
      ensures record.provenance.attestationError == old(record.provenance.attestationError)
    {
      var p := record.provenance.(imageTag := Some(governance.imageRef), imageDigest := Some(governance.imageDigest));
      if git.Some? {
        p := p.(harnessCommit := Some(git.value.sha), harnessDirty := Some(git.value.dirty),
                harnessWorktree := Some(git.value.worktree));
      }
      record := record.(provenance := p);
    }

    /** Reject an unsafe workspace: the evaluation is recorded as done, with everything skipped. */
    method RejectWorkspace(env: Evaluation, error: Message) returns (raised: bool)
      requires Valid()
      modifies this`record, this`appends, audit
      ensures Valid() && Untouched(record, old(record))
        && EvaluationEvents(old(AuditOk()), old(Emitted()), old(audit.closed), raised)
      ensures !raised && AuditOk() ==> record == Rejected(old(record), env, error)
      ensures raised <==> WriteRejection in env.fails || Capture in env.fails
      ensures old(Recording()) && !raised ==> Recording()
    {
      hide EventTypes, IsChain, Chained, AuditChain.Valid, WritesSucceed, Joined, Contains, Captured;
      if WriteRejection in env.fails {
        assert IsProgress([]) && Emitted() == old(Emitted()) + [];
        return true;
      }
      record := record.(correctness := NO_RESULTS.(
        evaluationMode := env.mode, commandExitCode := Some(126), integrityError := Some(error)));
      AuditEvent(TestsCompleted);
      AuditEvent(ScannersCompleted);
      AuditEvent(JudgeSkipped);
      assert AuditOk() ==> Emitted() == old(Emitted()) + [TestsCompleted, ScannersCompleted, JudgeSkipped];
      if Capture in env.fails {
        return true;
      }
      CaptureProvenance(env.git);
      return false;
    }

    /** Run the tests in the admitted image, and take in how the workspace differs from the task's. */
    method GradeWorkspace(env: Evaluation) returns (raised: bool)
      requires Valid()
      modifies this`record, this`appends, audit
      ensures Valid() && Untouched(record, old(record))
      ensures
        || (raised && Added(old(AuditOk()), old(Emitted()), old(audit.closed), []))
        || Added(old(AuditOk()), old(Emitted()), old(audit.closed), [TestsCompleted])
      ensures !raised && AuditOk() ==> record == Scanned(old(record), env).(scans := old(record.scans))
      ensures raised <==>
        EnsureImage in env.fails || Capture in env.fails || RunTests in env.fails || ComputeDiff in env.fails
      ensures old(Recording()) && !raised ==> Recording()
    {
      hide EventTypes, IsChain, Chained, AuditChain.Valid, WritesSucceed, Extended, Joined, Contains, Captured;
      assert old(Emitted()) + [] == old(Emitted());
      if EnsureImage in env.fails || Capture in env.fails {
        return true;
      }
      CaptureProvenance(env.git);
      if RunTests in env.fails {
        return true;
      }
      CapturedIsAdmitted(old(record.provenance), env.git);
      TakeTests(env.tests);
      AuditEvent(TestsCompleted);
      if ComputeDiff in env.fails {
        return true;
      }
      TakeDiff(env.diffError);
      return false;
    }

    /** Take in the tests of the admitted image; an error of the agent's part stands in where they have none. */
    method TakeTests(tests: TestResults)
      requires Valid()
      modifies this`record
      ensures Valid() && record == old(record).(
        provenance := old(record.provenance).(imageDigest := Some(governance.imageDigest)),
        correctness :=
          if IsError(old(record.efficiency.infraError)) && tests.infraError == None then
            tests.(infraError := old(record.efficiency.infraError))
          else tests)
    {
      record := record.(correctness := tests);
      record := record.(provenance := record.provenance.(imageDigest := Some(governance.imageDigest)));
      if Reported(record.efficiency.infraError) && record.correctness.infraError.None? {
        record := record.(correctness := record.correctness.(infraError := record.efficiency.infraError));
      }
    }

    /** Incomplete evidence of the difference is an integrity error. */
    method TakeDiff(error: Option<Message>)
      requires Valid()
      modifies this`record
      ensures Valid() && record == old(record).(
        diffComplete := error.None?,
        correctness :=
          if error.None? then old(record.correctness)
          else old(record.correctness).(
            integrityError := Extended(old(record.correctness.integrityError), error.value)))
    {
      record := record.(diffComplete := error.None?);
      if error.Some? {
        record := record.(correctness := record.correctness.(
          integrityError := Extended(record.correctness.integrityError, error.value)));
      }
    }

    method ScanWorkspace(env: Evaluation) returns (raised: bool)
      requires Valid()
      modifies this`record, this`appends, audit
      ensures Valid() && Untouched(record, old(record))
      ensures Added(old(AuditOk()), old(Emitted()), old(audit.closed), if raised then [] else [ScannersCompleted])
      ensures !raised && AuditOk() ==>
        record == old(record).(scans := if env.runScans then env.scans else old(record.scans))
      ensures raised <==> env.runScans && RunScanners in env.fails
      ensures old(Recording()) && !raised ==> Recording()
    {
      hide EventTypes, IsChain, Chained, AuditChain.Valid, WritesSucceed;
      assert old(Emitted()) + [] == old(Emitted());
      if env.runScans {
        if RunScanners in env.fails {
          return true;
        }
        record := record.(scans := env.scans);
      }
      AuditEvent(ScannersCompleted);
      return false;
    }

    /** The judge sees a workspace only after a complete, secret-free scan. */
    ghost predicate IsSafe(r: Record) {
      && r.diffComplete && "gitleaks" in r.scans.status && r.scans.status["gitleaks"] == "ok"
      && r.scans.secrets == Some(0)
    }

    predicate JudgeInputIsSafe()
      reads this
      ensures JudgeInputIsSafe() <==> IsSafe(record)
    {
      && record.diffComplete && ("gitleaks", "ok") in record.scans.status.Items
      && record.scans.secrets.Some? && record.scans.secrets.value == 0
    }

    /** Judging is asked for, and one of its steps raises. */
    ghost predicate JudgeRaises(r: Record, env: Evaluation) {
      && env.runJudge && task.judgeEnabled
      && (ScreenJudge in env.fails || (if JudgeRuns(r, env) then RunJudge else WriteSkip) in env.fails)
    }

    method JudgeWorkspace(env: Evaluation) returns (raised: bool)
      requires Valid()
      modifies this`record, this`appends, audit
      ensures Valid() && Untouched(record, old(record))
      ensures Added(
        old(AuditOk()), old(Emitted()), old(audit.closed),
        if raised then [] else if JudgeRuns(old(record), env) then [JudgeCompleted] else [JudgeSkipped])
      ensures raised <==> JudgeRaises(old(record), env)
      ensures !raised && AuditOk() ==>
        record == old(record).(judge := if JudgeRuns(old(record), env) then env.judge else old(record.judge))
      ensures raised || !JudgeRuns(old(record), env) ==> record.judge == old(record.judge)
      ensures old(Recording()) && !raised ==> Recording()
    {
      hide EventTypes, IsChain, Chained, AuditChain.Valid, WritesSucceed;
      assert old(Emitted()) + [] == old(Emitted());
      if !(env.runJudge && task.judgeEnabled) {
        AuditEvent(JudgeSkipped);
        return false;
      }
      if ScreenJudge in env.fails {
        return true;
      }
      if JudgeInputIsSafe() && env.judgeScreen.None? {
        if RunJudge in env.fails {
          return true;
        }
        record := record.(judge := env.judge);
        AuditEvent(JudgeCompleted);
      } else {
        if WriteSkip in env.fails {
          return true;
        }
        AuditEvent(JudgeSkipped);
      }
      return false;
    }

    /** Grading or scanning a safe workspace raises. */
    ghost predicate GradingRaises(env: Evaluation) {
      || EnsureImage in env.fails || Capture in env.fails || RunTests in env.fails || ComputeDiff in env.fails
      || (env.runScans && RunScanners in env.fails)
    }

    /** Evaluating a safe workspace raises before its completion. */
    ghost predicate SafeRaises(r: Record, env: Evaluation) {
      || GradingRaises(env) || JudgeRaises(Scanned(r, env), env) || (task.hasChallenges && RunChallenges in env.fails)
    }

    /** An evaluation raises before its completion. */
    ghost predicate EvaluationRaises(r: Record, env: Evaluation) {
      || PrepareRun in env.fails || CheckSafety in env.fails
      || if env.integrityError.Some? then WriteRejection in env.fails || Capture in env.fails else SafeRaises(r, env)
    }

    /** Completing a record with this provenance does not raise. */
    ghost predicate Completes(env: Completion, p: Provenance) {
      !RaisesEarly(env) && !PublishRaises(env, p, texts(AttestationIncomplete))
    }

    method GradeAndScanWorkspace(env: Evaluation) returns (raised: bool)
      requires Valid()
      modifies this`record, this`appends, audit
      ensures Valid() && Untouched(record, old(record))
      ensures raised ==> EvaluationEvents(old(AuditOk()), old(Emitted()), old(audit.closed), true)
      ensures !raised ==> Added(old(AuditOk()), old(Emitted()), old(audit.closed), SCANNED)
      ensures !raised && AuditOk() ==> record == Scanned(old(record), env)
      ensures raised <==> GradingRaises(env)
      ensures EvaluatesSmoothly(env) ==> !raised
      ensures old(Recording()) && !raised ==> Recording()
    {
      hide EventTypes, IsChain, Chained, AuditChain.Valid, WritesSucceed, Captured;
      hide IsProgress, IsWhole, EvaluationEvents;
      ghost var ok, start, closed := AuditOk(), Emitted(), audit.closed;
      StagesProgress();
      raised := GradeWorkspace(env);
      if raised {
        GradedIsEvaluated(ok, start, closed);
        return;
      }
      ghost var ok', tested, closed' := AuditOk(), Emitted(), audit.closed;
      raised := ScanWorkspace(env);
      AddedMore(ok, start, closed, [TestsCompleted], ok', tested, closed', if raised then [] else [ScannersCompleted]);
      if raised {
        AddedIsEvaluated(ok, start, closed, [TestsCompleted] + [], true);
      }
    }

    /** Grade, scan and judge a safe workspace, and run its challenges. */
    method EvaluateSafeWorkspace(env: Evaluation) returns (raised: bool)
      requires Valid()
      modifies this`record, this`appends, audit
      ensures Valid() && Untouched(record, old(record))
      ensures EvaluationEvents(old(AuditOk()), old(Emitted()), old(audit.closed), raised)
      ensures !raised && AuditOk() ==> record == Graded(old(record), env)
      ensures AuditOk() ==> (raised <==> SafeRaises(old(record), env))
      ensures EvaluatesSmoothly(env) ==> !raised
      ensures old(Recording()) && !raised ==> Recording()
    {
      hide EventTypes, IsChain, Chained, AuditChain.Valid, WritesSucceed, Scanned;
      hide IsProgress, IsWhole, EvaluationEvents;
      ghost var ok, start, closed := AuditOk(), Emitted(), audit.closed;
      StagesProgress();
      raised := GradeAndScanWorkspace(env);
      if raised {
        return;
      }
      ghost var ok', scanned, closed' := AuditOk(), Emitted(), audit.closed;
      raised := JudgeWorkspace(env);
      if raised {
        AddedMore(ok, start, closed, SCANNED, ok', scanned, closed', []);
        AddedIsEvaluated(ok, start, closed, SCANNED + [], true);
        return;
      }
      if task.hasChallenges {
        if RunChallenges in env.fails {
          JudgedIsEvaluated(ok, start, closed, ok', scanned, closed', true);
          return true;
        }
        record := record.(challengesPassed := Some(env.challengesPassed));
      }
      JudgedIsEvaluated(ok, start, closed, ok', scanned, closed', false);
    }

    /** What was added in two steps. */
    lemma AddedMore(wasOk: bool, before: seq<EventType>, wasClosed: bool, first: seq<EventType>,
                    ok: bool, middle: seq<EventType>, closed: bool, second: seq<EventType>)
      requires Valid() && Added(ok, middle, closed, second)
      requires ok ==> wasOk && closed == wasClosed && middle == before + first
      ensures Added(wasOk, before, wasClosed, first + second)
    {
    }

    lemma AddedIsEvaluated(wasOk: bool, before: seq<EventType>, wasClosed: bool, stages: seq<EventType>, raised: bool)
      requires Valid() && Added(wasOk, before, wasClosed, stages)
      requires IsProgress(stages) && (!raised ==> IsWhole(stages))
      ensures EvaluationEvents(wasOk, before, wasClosed, raised)
    {
    }

    lemma GradedIsEvaluated(wasOk: bool, before: seq<EventType>, wasClosed: bool)
      requires Valid()
      requires Added(wasOk, before, wasClosed, []) || Added(wasOk, before, wasClosed, [TestsCompleted])
      ensures EvaluationEvents(wasOk, before, wasClosed, true)
    {
      hide EvaluationEvents, Added, IsProgress;
      StagesProgress();
      if Added(wasOk, before, wasClosed, []) {
        AddedIsEvaluated(wasOk, before, wasClosed, [], true);
      } else {
        AddedIsEvaluated(wasOk, before, wasClosed, [TestsCompleted], true);
      }
    }

    lemma JudgedIsEvaluated(wasOk: bool, before: seq<EventType>, wasClosed: bool,
                            ok: bool, middle: seq<EventType>, closed: bool, raised: bool)
      requires Valid() && (ok ==> wasOk && closed == wasClosed && middle == before + SCANNED)
      requires Added(ok, middle, closed, [JudgeCompleted]) || Added(ok, middle, closed, [JudgeSkipped])
      ensures EvaluationEvents(wasOk, before, wasClosed, raised)
    {
      hide EvaluationEvents, Added, IsProgress, IsWhole;
      StagesProgress();
      if Added(ok, middle, closed, [JudgeCompleted]) {
        AddedMore(wasOk, before, wasClosed, SCANNED, ok, middle, closed, [JudgeCompleted]);
        AddedIsEvaluated(wasOk, before, wasClosed, SCANNED + [JudgeCompleted], raised);
      } else {
        AddedMore(wasOk, before, wasClosed, SCANNED, ok, middle, closed, [JudgeSkipped]);
        AddedIsEvaluated(wasOk, before, wasClosed, SCANNED + [JudgeSkipped], raised);
      }
    }

    /** What the events of a chain that is still in order can be after an evaluation. */
    ghost predicate EvaluatedEvents(wasOk: bool, before: seq<EventType>, returned: bool)
      reads this, audit
      requires Valid()
    {
      AuditOk() ==>
        && wasOk
        && if returned then
             && record.provenance.finalHash == audit.finalHash && record.provenance.eventCount == audit.eventCount
             && exists stages :: IsWhole(stages)
                  && Emitted() == before + [EvaluationStarted] + stages + [OutcomeDecided, RunCompleted]
           else !audit.closed ==>
             || Emitted() == before
             || exists stages :: IsProgress(stages) && Emitted() == before + [EvaluationStarted] + stages
    }

    /** The stages of an evaluation up to its completion: safety, and then either a rejection or all grades. */
    method GradeOrReject(env: Evaluation) returns (raised: bool)
      requires Valid()
      modifies this`record, this`appends, audit
      ensures Valid() && Untouched(record, old(record))
      ensures AuditOk() ==> old(AuditOk())
      ensures raised ==> EvaluatedEvents(old(AuditOk()), old(Emitted()), false)
      ensures !raised && AuditOk() ==>
        && record == Evaluated(old(record), env) && audit.closed == old(audit.closed)
        && exists stages :: IsWhole(stages) && Emitted() == old(Emitted()) + [EvaluationStarted] + stages
      ensures AuditOk() ==> (raised <==> EvaluationRaises(old(record), env))
      ensures EvaluatesSmoothly(env) ==> !raised
      ensures old(Recording()) && !raised ==> Recording()
    {
      hide Captured, WritesSucceed, Graded, Rejected, Contains;
      hide EventTypes, IsChain, Chained, AuditChain.Valid, IsProgress, IsWhole;
      if PrepareRun in env.fails {
        return true;
      }
      AuditEvent(EvaluationStarted);
      ghost var ok, started, closed := AuditOk(), Emitted(), audit.closed;
      if CheckSafety in env.fails {
        NoStages(started);
        return true;
      }
      if env.integrityError.Some? {
        raised := RejectWorkspace(env, env.integrityError.value);
      } else {
        raised := EvaluateSafeWorkspace(env);
      }
      assert EvaluationEvents(ok, started, closed, raised);
    }

    /** Evaluate an already produced workspace: safety, tests, diff, scans, judge, and completion. */
    method EvaluateWorkspace(env: Evaluation) returns (returned: bool)
      requires Valid()
      modifies this`record, this`appends, this`saved, this`attested, audit
      ensures Valid() && EvaluatedEvents(old(AuditOk()), old(Emitted()), returned)
      ensures Grows(old(record.efficiency.infraError), record.efficiency.infraError)
      ensures record.provenance.auditError.Some? || old(record.provenance.auditError).None?
      ensures AuditOk() ==>
        (returned <==> !EvaluationRaises(old(record), env)
                       && Completes(env.completion, Captured(old(record.provenance), env.git)))
      ensures !returned && !audit.closed && AuditOk() ==>
        EvaluationRaises(old(record), env) || RaisesEarly(env.completion)
      ensures returned ==> Decided() && saved == Some(record)
      ensures returned && AuditOk() ==> Keeps(record, Evaluated(old(record), env))
      ensures returned && record.IsAccepted() ==>
        && AuditOk() && Vouched(env.completion.taskTree) && Deserves(Evaluated(old(record), env), env.completion)
        && Attests(env.completion, Captured(old(record.provenance), env.git))
        && record.provenance.attestationError == old(record.provenance.attestationError)
      ensures
        old(Recording()) && EvaluatesSmoothly(env)
        && IsAttestable(Captured(old(record.provenance), env.git)) ==>
          returned && AuditOk()
          && (record.IsAccepted() <==> Deserves(Evaluated(old(record), env), env.completion))
    {
      hide Captured, WritesSucceed, Deserves, Clean, IsAttestable, Evaluated, Contains, IsOutcome, Attests, Explained;
      hide Acceptable, EventTypes, IsChain, Chained, EvidenceMatches, AuditChain.Valid, IsProgress, IsWhole;
      hide Trial.Vouched, PublishRaises, EvidenceFaults;
      var raised := GradeOrReject(env);
      if raised {
        return false;
      }
      ghost var ok, graded := AuditOk(), Emitted();
      EvaluatedIsCaptured(old(record), env);
      var exit := CompleteRecord(env.completion);
      if exit != Returned {
        assert forall stages :: IsWhole(stages) ==> IsProgress(stages) by { WholeIsProgress(); }
        return false;
      }
      return true;
    }

    // ----- Running the agent -----

    /** Take in what the agent's command left behind. */
    method TakeMetrics(env: AgentRun)
      requires Valid() && AuditOk()
      modifies this`record
      ensures Valid() && AuditOk() && record == old(record).(efficiency := Taken(env))
    {
      var m := env.metrics.(runtimeImageDigest := env.runtimeDigest);
      match env.end {
        case Exited(code, sandboxError) => m := m.(exitCode := Some(code), infraError := sandboxError);
        case TimedOut(error) => m := m.(infraError := Some(error));
        case OutputLimit(error) => m := m.(infraError := Some(error));
      }
      record := record.(efficiency := m.(wallTime := Some(env.wallTime)));
    }

    /** The try block and its handlers: run the command, quiesce, and promote a clean snapshot. */
    method ExecuteAgent(env: AgentRun) returns (snapshot: bool, integrityError: Option<Message>, raised: bool)
      requires Valid() && AuditOk()
      modifies this`record
      ensures Valid() && AuditOk() && record == old(record).(efficiency := LeftMetrics(env, old(record.efficiency)))
      ensures snapshot <==> LeavesSnapshot(env)
      ensures integrityError == Refusal(env)
      ensures raised <==> Stopped(env) == Unhandled
    {
      snapshot, integrityError := false, None;
      var how := env.setup;
      if how == Uninterrupted {
        how := env.execution;
        if how != Uninterrupted {
          if env.partialMetrics.Some? {
            record := record.(efficiency := env.partialMetrics.value);
          }
        } else {
          TakeMetrics(env);
          if env.quiescence.Some? {
            record := record.WithInfraError(Extended(record.efficiency.infraError, env.quiescence.value));
          } else {
            match env.snapshot {
              case Promoted => snapshot := true;
              case Refused(error) => integrityError := Some(error);
              case Interrupted(cause) => how := cause;
            }
          }
        }
      }
      match how {
        case Handled(error) => record := record.WithInfraError(Some(error));
        case UnsafeArchive(error) => integrityError := Some(error);
        case _ =>
      }
      raised := how == Unhandled;
    }

    /** Delete what the trial created, and note what could not be deleted. */
    method CleanUp(env: AgentRun)
      requires Valid()
      modifies this`record
      ensures Valid() && record == old(record).WithInfraError(WithCleanup(env, old(record.efficiency.infraError)))
    {
      hide Extended, Contains;
      if env.proxyLogError.Some? {
        record := record.WithInfraError(Extended(record.efficiency.infraError, env.proxyLogError.value));
      }
      var errors := [env.podError, env.proxyError, env.secretError];
      var i := 0;
      var found := None;
      while i < |errors|
        invariant i <= |errors| && found != Some("")
        invariant i == 0 ==> found == None
        invariant i == 1 ==> found == Plus(None, env.podError)
        invariant i == 2 ==> found == Plus(Plus(None, env.podError), env.proxyError)
        invariant i == 3 ==> found == Plus(Plus(Plus(None, env.podError), env.proxyError), env.secretError)
      {
        if errors[i].Some? {
          found := Extended(found, errors[i].value);
        }
        i := i + 1;
      }
      if found.Some? {
        record := record.WithInfraError(Extended(record.efficiency.infraError, found.value));
      }
    }

    /** What is known of the agent when its trial has been cleaned up. */
    ghost function AfterAgent(env: AgentRun, before: AgentMetrics): AgentMetrics {
      var left := LeftMetrics(env, before);
      var checked :=
        if left.wallTime.None? || ModelMatches(left.model) then left
        else left.(infraError := Extended(left.infraError, env.modelMismatch));
      checked.(infraError := WithCleanup(env, checked.infraError))
    }

    /** Something went wrong in the agent's part of the trial, or it was not by the admitted model. */
    ghost predicate AgentFailed(env: AgentRun) {
      RunFailed(env) || !CleanedUp(env) || (Ran(env) && !ModelMatches(env.metrics.model))
    }

    /** A failure is always reported, and a trial without one shows what its agent did. */
    lemma FailureIsReported(env: AgentRun, before: AgentMetrics)
      ensures AgentFailed(env) ==> IsError(AfterAgent(env, before).infraError)
      ensures LeavesSnapshot(env) && !AgentFailed(env) ==>
        RunsSmoothly(env) && ModelMatches(env.metrics.model) && AfterAgent(env, before) == MetricsOf(env)
      ensures RunsSmoothly(env) && ModelMatches(env.metrics.model) ==>
        LeavesSnapshot(env) && !AgentFailed(env) && Stopped(env) == Uninterrupted
    {
      hide Extended, Contains;
    }

    /** Run the agent; whatever happens, its end and the cleanup are recorded. */
    method RunAgent(env: AgentRun) returns (snapshot: bool, integrityError: Option<Message>, raised: bool)
      requires Valid() && AuditOk()
      modifies this`record, this`appends, audit
      ensures Valid() && Added(old(AuditOk()), old(Emitted()), old(audit.closed), [AgentCompleted, CleanupCompleted])
      ensures snapshot <==> LeavesSnapshot(env)
      ensures integrityError == Refusal(env)
      ensures raised <==> Stopped(env) == Unhandled
      ensures record.provenance.attestationError == old(record.provenance.attestationError)
      ensures AuditOk() ==> record == old(record).(efficiency := AfterAgent(env, old(record.efficiency)))
      ensures old(Recording()) ==> Recording()
    {
      hide EventTypes, IsChain, Chained, AuditChain.Valid, WritesSucceed, Extended, Contains, Joined;
      hide Stopped, LeftMetrics, Refusal, LeavesSnapshot, WithCleanup;
      snapshot, integrityError, raised := ExecuteAgent(env);
      EnforceGovernedModelEvidence(env.modelMismatch);
      AuditEvent(AgentCompleted);
      CleanUp(env);
      AuditEvent(CleanupCompleted);
      assert old(Emitted()) + [AgentCompleted] + [CleanupCompleted]
        == old(Emitted()) + [AgentCompleted, CleanupCompleted];
    }

    // ----- The whole trial -----

    /** The trial is at its start: nothing is recorded, saved or attested. */
    ghost predicate AtStart()
      reads this, audit
    {
      && Valid() && AuditOk() && !audit.closed && audit.eventCount == 0 && saved == None && attested == None
      && record.outcome.None? && record.provenance.attestationError.None?
    }

    /** What a returned trial promises about its record and its events, when `start` was the record at its start. */
    ghost predicate Sound(start: Record, env: TrialEnvironment)
      reads this, audit
      requires Valid()
    {
      && saved == Some(record) && Decided()
      && (AuditOk() ==>
            && IsGovernedTrace(Emitted()) && Keeps(record, Ended(start, env))
            && record.provenance.finalHash == audit.finalHash && record.provenance.eventCount == audit.eventCount
            && Stopped(env.agent) != Unhandled && (LeavesSnapshot(env.agent) ==> FailureIsTold(start, env))
            && (!LeavesSnapshot(env.agent) || EvaluationFailed in Emitted() ==> !env.captureFails))
      && (AgentFailed(env.agent) ==> record.outcome.value.status == InfraError)
      && (record.IsAccepted() ==> Justified(start, env))
    }

    /** The events say that the evaluation failed exactly if one of its steps raised before the decision. */
    ghost predicate FailureIsTold(start: Record, env: TrialEnvironment)
      reads this, audit
      requires Valid()
    {
      var r := start.(efficiency := AfterAgent(env.agent, start.efficiency));
      EvaluationFailed in Emitted() <==>
        EvaluationRaises(r, env.evaluation) || RaisesEarly(env.evaluation.completion)
    }

    /** What the record shows in the end, as long as no event was lost. */
    ghost function Ended(start: Record, env: TrialEnvironment): Record
      reads this, audit
      requires Valid()
    {
      var r := start.(efficiency := AfterAgent(env.agent, start.efficiency));
      if !LeavesSnapshot(env.agent) then Ungraded(r, env)
      else if EvaluationFailed in Emitted() then Unfinished(record, env)
      else Evaluated(r, env.evaluation)
    }

    /** What a record shows of a trial that left no workspace to evaluate. */
    ghost function Ungraded(r: Record, env: TrialEnvironment): Record {
      var error := if IsError(r.efficiency.infraError) then r.efficiency.infraError else Some(env.snapshotUnavailable);
      var refusal := Refusal(env.agent);
      r.(provenance := Captured(r.provenance, env.git),
         correctness :=
           if refusal.Some? then
             NO_RESULTS.(commandExitCode := Some(126), integrityError := Some(refusal.value))
           else NO_RESULTS.(infraError := error))
    }

    /** What a record shows of a trial whose evaluation raised. */
    ghost function Unfinished(r: Record, env: TrialEnvironment): Record {
      r.(correctness := r.correctness.(infraError := Some(env.evaluationFailure)),
         provenance := Captured(r.provenance, env.git))
    }

    /** Everything that an accepted trial must have seen. */
    ghost predicate Justified(start: Record, env: TrialEnvironment)
      reads this, audit
    {
      && Vouched(env.evaluation.completion.taskTree) && record.provenance.attestationError.None?
      && RunsSmoothly(env.agent) && ModelMatches(env.agent.metrics.model)
      && Deserves(Seen(start, env), env.evaluation.completion)
      && Attests(env.evaluation.completion, Captured(start.provenance, env.evaluation.git))
    }

    method EndEarly(env: TrialEnvironment, ghost start: Record) returns (returned: bool)
      requires Valid() && !AuditOk()
      modifies this`record, this`appends, this`saved, this`attested, audit
      ensures Valid() && (returned ==> Sound(start, env))
      ensures returned <==> Completes(env.completion, old(record.provenance))
      ensures record.correctness == NO_RESULTS.(infraError := old(record.provenance.auditError))
    {
      hide Acceptable, EventTypes, IsChain, Chained, EvidenceMatches, AuditChain.Valid, IsGovernedTrace;
      hide IsOutcome, Contains, PublishRaises, Explained, Deserves, Attests, AttestationError, AgentFailed, Justified;
      record := record.(correctness := NO_RESULTS.(infraError := record.provenance.auditError));
      var exit := CompleteRecord(env.completion);
      returned := exit == Returned;
      if returned {
        ErrorIsInfra();
      }
    }

    /** A record with an infrastructure error says so, and is not accepted. */
    lemma ErrorIsInfra()
      requires Decided()
      requires IsError(record.efficiency.infraError) || IsError(record.correctness.infraError)
      ensures record.outcome.value.status == InfraError && !record.IsAccepted()
    {
    }

    /** Start the trial: after its first three events, the agent may run. */
    method Start(env: TrialEnvironment) returns (started: bool)
      requires AtStart()
      modifies this`record, this`appends, audit
      ensures Valid() && (started <==> AuditOk())
      ensures AuditOk() ==> Emitted() == [EvaluationRequested, PolicyAdmitted, AgentStarted] && !audit.closed
      ensures record.provenance.attestationError == old(record.provenance.attestationError)
      ensures AuditOk() ==> record == old(record)
      ensures WritesSucceed() ==> started
    {
      hide IsChain, Chained, AuditChain.Valid, WritesSucceed;
      assert Emitted() == [];
      AuditEvent(EvaluationRequested);
      AuditEvent(PolicyAdmitted);
      if record.provenance.auditError.Some? {
        return false;
      }
      AuditEvent(AgentStarted);
      return record.provenance.auditError.None?;
    }

    /** Complete a trial that produced no workspace to evaluate. */
    method EndWithoutSnapshot(env: TrialEnvironment, integrityError: Option<Message>, ghost start: Record)
      returns (returned: bool)
      requires Valid() && (AuditOk() ==> Emitted() == AGENT_EVENTS)
      requires !LeavesSnapshot(env.agent) && integrityError == Refusal(env.agent)
      requires Stopped(env.agent) != Unhandled
      requires AuditOk() ==> record == start.(efficiency := AfterAgent(env.agent, start.efficiency))
      modifies this`record, this`appends, this`saved, this`attested, audit
      ensures Valid() && (returned ==> Sound(start, env))
      ensures returned <==> !env.captureFails && Completes(env.completion, Captured(old(record.provenance), env.git))
    {
      hide Acceptable, EventTypes, IsChain, Chained, EvidenceMatches, AuditChain.Valid, IsGovernedTrace;
      hide IsOutcome, Contains, LeavesSnapshot, Refusal, AgentFailed, Justified, AfterAgent;
      FailureIsReported(env.agent, start.efficiency);
      if integrityError.Some? {
        record := record.(correctness := NO_RESULTS.(
          commandExitCode := Some(126), integrityError := Some(integrityError.value)));
      } else {
        var error: Option<string> :=
          if Reported(record.efficiency.infraError) then record.efficiency.infraError
          else Some(env.snapshotUnavailable);
        record := record.(correctness := NO_RESULTS.(infraError := error));
      }
      if env.captureFails {
        return false;
      }
      CaptureProvenance(env.git);
      assert AGENT_EVENTS + [] == AGENT_EVENTS;
      returned := CompleteUnacceptable(env, []);
      if returned && AgentFailed(env.agent) {
        ErrorIsInfra();
      }
    }

    /** Complete a record that carries a correctness error, after the agent's events and those of the middle. */
    method CompleteUnacceptable(env: TrialEnvironment, ghost middle: seq<EventType>) returns (returned: bool)
      requires Valid() && IsMiddle(middle) && (AuditOk() ==> Emitted() == AGENT_EVENTS + middle)
      requires Reported(record.correctness.infraError) || Reported(record.correctness.integrityError)
      modifies this`record, this`appends, this`saved, this`attested, audit
      ensures Valid() && Keeps(record, old(record))
      ensures returned ==> saved == Some(record) && Decided() && !record.IsAccepted()
      ensures returned && AuditOk() ==>
        && old(AuditOk()) && IsGovernedTrace(Emitted())
        && (EvaluationFailed in Emitted() <==> EvaluationFailed in middle)
        && record.provenance.finalHash == audit.finalHash && record.provenance.eventCount == audit.eventCount
      ensures returned <==> Completes(env.completion, old(record.provenance))
    {
      hide Acceptable, EventTypes, IsChain, Chained, EvidenceMatches, AuditChain.Valid, IsMiddle, Deserves;
      hide IsOutcome, Contains, PublishRaises, Explained, Deserves, Attests, AttestationError;
      var exit := CompleteRecord(env.completion);
      if exit == Returned {
        if record.IsAccepted() {
          AcceptedHasNoError(record.Observed(), task.acceptance);
        }
        MiddleIsTrace(middle);
        return true;
      }
      return false;
    }

    /** Evaluate the promoted workspace; an exception becomes a failed evaluation. */
    method EvaluateSnapshot(env: TrialEnvironment, ghost start: Record) returns (returned: bool)
      requires Valid() && (AuditOk() ==> Emitted() == AGENT_EVENTS)
      requires LeavesSnapshot(env.agent) && record.provenance.attestationError.None?
      requires Stopped(env.agent) != Unhandled
      requires AuditOk() ==> record == start.(efficiency := AfterAgent(env.agent, start.efficiency))
      modifies this`record, this`appends, this`saved, this`attested, audit
      ensures Valid() && (returned ==> Sound(start, env))
      ensures
        old(Recording()) && EvaluatesSmoothly(env.evaluation) && !AgentFailed(env.agent)
        && IsAttestable(Captured(start.provenance, env.evaluation.git)) ==>
          returned && (record.IsAccepted() <==> Deserves(Seen(start, env), env.evaluation.completion))
    {
      hide Captured, WritesSucceed, Deserves, Evaluated, IsOutcome, Contains, Attests, AfterAgent, AgentFailed;
      hide Acceptable, EventTypes, IsChain, Chained, AuditChain.Valid, IsMiddle, IsProgress, IsWhole, Trial.Vouched;
      hide CleanedUp, RunsSmoothly, MetricsOf;
      FailureIsReported(env.agent, start.efficiency);
      ghost var before := record;
      returned := EvaluateWorkspace(env.evaluation);
      if returned {
        if AuditOk() {
          var stages :| IsWhole(stages)
            && Emitted() == AGENT_EVENTS + [EvaluationStarted] + stages + [OutcomeDecided, RunCompleted];
          WholeIsTrace(stages);
        }
        if record.IsAccepted() {
          AcceptedRanSmoothly(env, before, start.efficiency);
        }
        if AgentFailed(env.agent) {
          ErrorIsInfra();
        }
        return;
      }
      record := record.(correctness := record.correctness.(infraError := Some(env.evaluationFailure)));
      AuditEvent(EvaluationFailed);
      ghost var middle := [EvaluationFailed];
      assert AuditOk() ==>
        exists middle :: IsMiddle(middle) && EvaluationFailed in middle && Emitted() == AGENT_EVENTS + middle by {
        if AuditOk() {
          FailedIsMiddle(Emitted());
        }
      }
      if AuditOk() {
        middle :| IsMiddle(middle) && EvaluationFailed in middle && Emitted() == AGENT_EVENTS + middle;
      } else {
        FailedAloneIsMiddle();
      }
      if env.captureFails {
        return false;
      }
      ghost var p := record.provenance;
      CaptureProvenance(env.git);
      returned := CompleteUnacceptable(env, middle);
      if returned {
        CapturedAgain(p, env.git, record.provenance);
        ErrorIsInfra();
      }
    }

    /** Only a run by the admitted model in which nothing failed can be accepted. */
    lemma AcceptedRanSmoothly(env: TrialEnvironment, before: Record, start: AgentMetrics)
      requires LeavesSnapshot(env.agent) && Vouched(env.evaluation.completion.taskTree)
      requires before.efficiency == AfterAgent(env.agent, start)
      requires Keeps(record, Evaluated(before, env.evaluation))
      ensures RunsSmoothly(env.agent) && ModelMatches(env.agent.metrics.model)
      ensures before.efficiency == MetricsOf(env.agent)
    {
      hide AfterAgent, AgentFailed, RunsSmoothly, MetricsOf, LeavesSnapshot, EvidenceMatches, Acceptable, Captured;
      AcceptedHasNoError(record.Observed(), task.acceptance);
      FailureIsReported(env.agent, start);
    }

    /** No step of the trial fails, and the run was by the admitted model and can be attested. */
    ghost predicate RunsThrough(r: Record, env: TrialEnvironment) {
      && WritesSucceed() && RunsSmoothly(env.agent) && EvaluatesSmoothly(env.evaluation)
      && ModelMatches(env.agent.metrics.model) && IsAttestable(Captured(r.provenance, env.evaluation.git))
    }

    /** What the record shows when a trial whose agent ended by itself is completed. */
    ghost function Seen(r: Record, env: TrialEnvironment): Record
      requires env.agent.end.Exited?
    {
      Evaluated(r.(efficiency := MetricsOf(env.agent)), env.evaluation)
    }

    /**
     * Run the trial. Whatever it returns is sound, whatever it accepts is justified; and if no step fails, it returns,
     * and accepts exactly the record that deserves it.
     */
    method Run(env: TrialEnvironment) returns (returned: bool)
      requires AtStart()
      modifies this`record, this`appends, this`saved, this`attested, audit
      ensures Valid() && (returned ==> Sound(old(record), env))
      ensures RunsThrough(old(record), env) ==>
        returned && (record.IsAccepted() <==> Deserves(Seen(old(record), env), env.evaluation.completion))
    {
      hide Captured, WritesSucceed, Deserves, Evaluated, IsOutcome, Contains, AfterAgent, AgentFailed;
      hide Acceptable, EventTypes, IsChain, Chained, EvidenceMatches, AuditChain.Valid, Trial.Vouched, IsGovernedTrace;
      hide CleanedUp, MetricsOf, Sound, LeavesSnapshot, RunsSmoothly, Refusal, EvaluatesSmoothly, IsAttestable;
      ghost var start := record;
      FailureIsReported(env.agent, start.efficiency);
      var started := Start(env);
      if !started {
        returned := EndEarly(env, start);
        return;
      }
      var snapshot, integrityError, raised := RunAgent(env.agent);
      assert [EvaluationRequested, PolicyAdmitted, AgentStarted] + [AgentCompleted, CleanupCompleted] == AGENT_EVENTS;
      if raised {
        return false;
      }
      if snapshot {
        returned := EvaluateSnapshot(env, start);
      } else {
        returned := EndWithoutSnapshot(env, integrityError, start);
      }
    }
  }

  lemma MiddleIsTrace(middle: seq<EventType>)
    requires IsMiddle(middle)
    ensures var events := AGENT_EVENTS + middle + [OutcomeDecided, RunCompleted];
      IsGovernedTrace(events) && (EvaluationFailed in events <==> EvaluationFailed in middle)
  {
    hide IsMiddle;
  }

  lemma WholeIsTrace(stages: seq<EventType>)
    requires IsWhole(stages)
    ensures var events := AGENT_EVENTS + [EvaluationStarted] + stages + [OutcomeDecided, RunCompleted];
      IsGovernedTrace(events) && EvaluationFailed !in events
  {
    var middle := [EvaluationStarted] + stages;
    assert IsMiddle(middle);
    assert AGENT_EVENTS + [EvaluationStarted] + stages == AGENT_EVENTS + middle;
  }

  lemma FailedAloneIsMiddle()
    ensures IsMiddle([EvaluationFailed])
  {
  }

  lemma FailedIsMiddle(events: seq<EventType>)
    requires events == AGENT_EVENTS + [EvaluationFailed]
      || exists stages ::
           IsProgress(stages) && events == AGENT_EVENTS + [EvaluationStarted] + stages + [EvaluationFailed]
    ensures exists middle :: IsMiddle(middle) && EvaluationFailed in middle && events == AGENT_EVENTS + middle
  {
    if events == AGENT_EVENTS + [EvaluationFailed] {
      FailedAloneIsMiddle();
    } else {
      var stages :| IsProgress(stages) && events == AGENT_EVENTS + [EvaluationStarted] + stages + [EvaluationFailed];
      var middle := [EvaluationStarted] + stages + [EvaluationFailed];
      assert IsMiddle(middle);
      assert events == AGENT_EVENTS + middle;
    }
  }

  /** What happens in a whole trial. `completion` is for the record that is completed outside the evaluation. */
  datatype TrialEnvironment = TrialEnvironment(
    agent: AgentRun, evaluation: Evaluation, completion: Completion, git: Option<GitState>, captureFails: bool,
    snapshotUnavailable: Message, evaluationFailure: Message)

  /** The events of every trial up to its cleanup. */
  const AGENT_EVENTS: seq<EventType> :=
    [EvaluationRequested, PolicyAdmitted, AgentStarted, AgentCompleted, CleanupCompleted]

  /** The events between the cleanup and the decision: none, a whole evaluation, or a failed one. */
  ghost predicate IsMiddle(middle: seq<EventType>) {
    || middle == []
    || middle == [EvaluationFailed]
    || (exists stages :: IsWhole(stages) && middle == [EvaluationStarted] + stages)
    || (exists stages :: IsProgress(stages) && middle == [EvaluationStarted] + stages + [EvaluationFailed])
  }

  /** The events that a governed trial leaves when every one of them was recorded. */
  ghost predicate IsGovernedTrace(events: seq<EventType>) {
    exists middle :: IsMiddle(middle) && events == AGENT_EVENTS + middle + [OutcomeDecided, RunCompleted]
  }

  /** The stages of an evaluation before its judge. */
  const SCANNED: seq<EventType> := [TestsCompleted, ScannersCompleted]

  lemma StagesProgress()
    ensures IsProgress([]) && IsProgress([TestsCompleted]) && [TestsCompleted] + [] == [TestsCompleted]
    ensures IsProgress(SCANNED) && SCANNED + [] == SCANNED == [TestsCompleted] + [ScannersCompleted]
    ensures IsWhole(SCANNED + [JudgeCompleted]) && IsWhole(SCANNED + [JudgeSkipped])
    ensures IsProgress(SCANNED + [JudgeCompleted]) && IsProgress(SCANNED + [JudgeSkipped])
  {
  }

  lemma NoStages(events: seq<EventType>)
    ensures IsProgress([]) && events + [] == events
  {
  }

  lemma WholeIsProgress()
    ensures forall stages :: IsWhole(stages) ==> IsProgress(stages)
  {
  }

  lemma AcceptedHasNoError(e: Evidence, p: Policy)
    requires Acceptable(e, p)
    ensures NoInfraError(e) && !Reported(e.efficiency.infraError) && !Reported(e.correctness.infraError)
    ensures !Reported(e.correctness.integrityError)
  {
  }
}
