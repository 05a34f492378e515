/** Admission of a governed evaluation: the policy gate and its effective limits. */
module Admission {
  import opened Wrappers
  import opened ItemLists
  import Ordering

  /** A configuration switch as it arrives, before it is known to be a boolean. */
  datatype Flag = On | Off | NotBoolean

  /** A numeric argument as it arrives, before it is known to be an integer. */
  datatype Count = Count(n: int) | NotWhole

  datatype Stage = Preflight | Execution

  /** Text formats and glob matching, which the gate takes as given. */
  datatype Formats = Formats(
    sha256: string -> bool, imageDigest: string -> bool, imageRef: string -> bool, platform: string -> bool,
    exactModel: string -> bool, glob: (string, string) -> bool, domainSuffix: string -> Option<string>,
    governedRef: (string, string) -> string)

  ghost predicate RatioOf(x: real, n: int, d: int) {
    d > 0 && x * d as real == n as real
  }

  lemma ZeroIsRatio()
    ensures exists n, d :: RatioOf(0.0, n, d)
  {
    assert RatioOf(0.0, 0, 1);
  }

  /** A finite float, every one of which is a ratio of integers. */
  type Cost = x: real | exists n, d :: RatioOf(x, n, d) witness (ZeroIsRatio(); 0.0)

  datatype Request = Request(
    tenantId: string, projectId: string, taskId: string, agent: string, model: string,
    dataClassification: string, retentionClass: string, maxTokens: Option<int>, maxCost: Option<Cost>)

  datatype Rules = Rules(
    allowedTenants: seq<string>, allowedProjects: seq<string>, allowedTasks: seq<string>,
    allowedNetworkModes: seq<string>, allowedEgressDomains: seq<string>, allowedProxyImages: seq<string>,
    allowedScannerIdentities: seq<string>, allowedDataClassifications: seq<string>,
    allowedRetentionClasses: seq<string>,
    requireScans: bool, requireJudge: bool, requireBrokerCredentials: bool,
    maxTrials: int, maxAgentSeconds: int, maxEvalSeconds: int, maxTokens: int, maxCost: Cost)

  datatype Image = Image(platform: string, reference: string, digest: string)

  datatype TaskEntry = TaskEntry(
    taskId: string, treeDigest: string, specDigests: seq<string>, images: seq<Image>, status: string)

  datatype ModelEntry =
    | Coding(adapter: string, model: string, status: string, classifications: seq<string>, maxTokens: int,
      maxCost: Cost)
    | Judging(adapter: string, model: string, status: string, classifications: seq<string>)

  datatype Bundle = Bundle(rules: Rules, tasks: seq<TaskEntry>, models: seq<ModelEntry>)

  /** What is about to be run. A value that is not a string is `None`. */
  datatype Runtime = Runtime(
    taskId: string, agent: string, model: string, trials: Count, network: string, agentSeconds: Count,
    evalSeconds: Count,
    broker: Flag, scans: Flag, judge: Flag, scannerIdentity: Option<string>, scannerReady: Flag,
    treeDigest: Option<string>, specDigest: Option<string>, judgeBackend: Option<string>, judgeModel: Option<string>,
    stage: Stage, linkId: Option<string>, linkDigest: Option<string>,
    imageDigest: Option<string>, imageRef: Option<string>, platform: Option<string>,
    egressDomains: seq<Option<string>>, proxyImage: Option<string>)

  datatype Limits = Limits(maxTrials: int, maxAgentSeconds: int, maxEvalSeconds: int, maxTokens: int, maxCost: Cost)

  datatype Code =
    | Admitted
    | ImageDigestUnexpected | ImageDigestInvalid | ImageIdentityInvalid | ImageIdentityMismatch | TaskEvidenceInvalid
    | TaskNotRegistered | TaskStatus(status: string)
    | TaskTreeNotApproved | ExecutionSpecNotApproved | TaskImageNotApproved
    | TaskMismatch | AgentMismatch | ModelMismatch | CodingModelObservationUnsupported
    | TenantNotAllowed | ProjectNotAllowed | TaskNotAllowed | DataClassificationNotAllowed | RetentionNotAllowed
    | NetworkModeNotAllowed | InvalidEgressDomains | EgressDomainNotAllowed | ProxyImageRequired | ProxyImageNotAllowed
    | InvalidScanConfiguration | ScansRequired | ScannerIdentityRequired | ScannerIdentityNotAllowed
    | ScannerIdentityIncomplete | ScannerIdentityUnexpected
    | InvalidJudgeConfiguration | JudgeRequired | JudgeRequiresScans | JudgeIdentityRequired
    | JudgeModelObservationUnsupported | JudgeModelNotRegistered | JudgeModelStatus(status: string)
    | JudgeModelClassificationNotAllowed | JudgeIdentityUnexpected
    | InvalidBrokerConfiguration | BrokerCredentialsRequired
    | InvalidTrials | TrialLimitExceeded
    | InvalidAgentTimeout | AgentTimeoutExceeded | InvalidEvalTimeout | EvalTimeoutExceeded
    | ModelNotRegistered | ModelStatus(status: string) | ModelClassificationNotAllowed

  datatype Decision = Decision(
    allowed: bool, reasons: seq<Code>, limits: Limits,
    matchedTask: Option<TaskEntry>, matchedModel: Option<ModelEntry>, matchedJudge: Option<ModelEntry>)

  /** Why a call is an error: a preflight that links another decision, or an execution without an exact link. */
  datatype LinkError = PreflightLinked | LinkMissing

  datatype Result = Decided(decision: Decision) | ValueError(error: LinkError)

  const APPROVED: string := "approved"

  /** Registry keys are unique: one entry for a task, one for an adapter and model. */
  ghost predicate ValidBundle(b: Bundle) {
    && (forall i, j | 0 <= i < j < |b.tasks| :: b.tasks[i].taskId != b.tasks[j].taskId)
    && (forall i, j | 0 <= i < j < |b.models| ::
          b.models[i].adapter != b.models[j].adapter || b.models[i].model != b.models[j].model)
  }

  // ----- What admission means -----

  /** A text is there and has a format. */
  ghost predicate IsA(format: string -> bool, text: Option<string>) {
    exists t :: text == Some(t) && format(t)
  }

  /** The link to a preflight decision fits the stage; otherwise the call itself is an error. */
  ghost predicate LinkFits(f: Formats, x: Runtime) {
    match x.stage
    case Preflight => x.linkId == None && x.linkDigest == None
    case Execution => x.linkId != None && IsA(f.sha256, x.linkDigest)
  }

  ghost predicate ImageIdentified(f: Formats, x: Runtime) {
    match x.stage
    case Preflight => x.imageDigest == None && x.imageRef == None && x.platform == None
    case Execution =>
      && IsA(f.imageDigest, x.imageDigest) && IsA(f.imageRef, x.imageRef) && IsA(f.platform, x.platform)
      && x.imageRef == Some(f.governedRef(x.taskId, x.imageDigest.value))
  }

  ghost predicate Requested(req: Request, x: Runtime) {
    x.taskId == req.taskId && x.agent == req.agent && x.model == req.model && x.agent != "codex"
  }

  /** Some pattern of an allowlist covers a value. */
  ghost predicate Covered(f: Formats, value: string, patterns: seq<string>) {
    exists pattern | pattern in patterns :: f.glob(value, pattern)
  }

  ghost predicate ListsAllow(f: Formats, req: Request, r: Rules, x: Runtime) {
    && Covered(f, req.tenantId, r.allowedTenants) && Covered(f, req.projectId, r.allowedProjects)
    && Covered(f, x.taskId, r.allowedTasks)
    && req.dataClassification in r.allowedDataClassifications && req.retentionClass in r.allowedRetentionClasses
    && x.network in r.allowedNetworkModes
  }

  ghost predicate DomainsValid(f: Formats, domains: seq<Option<string>>) {
    forall i | 0 <= i < |domains| :: domains[i].Some? && f.domainSuffix(domains[i].value).Some?
  }

  /** Behind a proxy, every domain and the proxy image itself are allowed. */
  ghost predicate EgressAllowed(f: Formats, r: Rules, x: Runtime) {
    && DomainsValid(f, x.egressDomains)
    && (x.network == "proxy" ==>
          && x.proxyImage.Some? && x.proxyImage.value in r.allowedProxyImages
          && SuffixesAllowed(f, x.egressDomains, r.allowedEgressDomains))
  }

  ghost predicate SuffixesAllowed(f: Formats, domains: seq<Option<string>>, allowed: seq<string>)
    requires DomainsValid(f, domains)
  {
    forall i | 0 <= i < |domains| :: f.domainSuffix(domains[i].value).value in allowed
  }

  ghost predicate ScannersAllowed(f: Formats, r: Rules, x: Runtime) {
    && x.scans != NotBoolean && (r.requireScans ==> x.scans == On)
    && if x.scans == On then
         IsA(f.sha256, x.scannerIdentity) && x.scannerIdentity.value in r.allowedScannerIdentities
           && x.scannerReady == On
       else x.scannerIdentity == None && x.scannerReady == Off
  }

  ghost predicate WithinCap(c: Count, cap: int) {
    c.Count? && 0 < c.n <= cap
  }

  ghost predicate CapsAllow(r: Rules, x: Runtime) {
    && x.broker != NotBoolean && (r.requireBrokerCredentials ==> x.broker == On)
    && WithinCap(x.trials, r.maxTrials) && WithinCap(x.agentSeconds, r.maxAgentSeconds)
    && WithinCap(x.evalSeconds, r.maxEvalSeconds)
  }

  ghost predicate TaskFits(e: TaskEntry, x: Runtime) {
    && e.taskId == x.taskId && e.status == APPROVED
    && x.treeDigest == Some(e.treeDigest) && x.specDigest.Some? && x.specDigest.value in e.specDigests
    && (x.stage == Execution ==> Registered(e.images, x))
  }

  /** The image of a run is one that was registered for its task. */
  ghost predicate Registered(images: seq<Image>, x: Runtime) {
    && x.platform.Some? && x.imageRef.Some? && x.imageDigest.Some?
    && Image(x.platform.value, x.imageRef.value, x.imageDigest.value) in images
  }

  ghost predicate ModelFits(e: ModelEntry, req: Request, x: Runtime) {
    IsCoder(e, x) && e.status == APPROVED && req.dataClassification in e.classifications
  }

  ghost predicate IsCoder(e: ModelEntry, x: Runtime) {
    e.Coding? && e.adapter == x.agent && e.model == x.model
  }

  ghost predicate JudgeFits(e: ModelEntry, req: Request, x: Runtime) {
    IsJudge(e, x) && e.status == APPROVED && req.dataClassification in e.classifications
  }

  ghost predicate IsJudge(e: ModelEntry, x: Runtime) {
    && e.Judging? && x.judgeBackend.Some? && e.adapter == "judge:" + x.judgeBackend.value
    && x.judgeModel == Some(e.model)
  }

  /** A judge has a known backend and an exact model. */
  ghost predicate HasJudge(f: Formats, x: Runtime) {
    && (x.judgeBackend == Some("claude") || x.judgeBackend == Some("codex"))
    && exists model :: x.judgeModel == Some(model) && |model| <= 256 && f.exactModel(model)
  }

  /** The judge is one whose entry the gate looks up. */
  ghost predicate JudgeSought(f: Formats, x: Runtime) {
    x.judge == On && HasJudge(f, x) && x.judgeBackend == Some("claude")
  }

  ghost predicate JudgeAllowed(f: Formats, req: Request, b: Bundle, x: Runtime) {
    && x.judge != NotBoolean && (b.rules.requireJudge ==> x.judge == On)
    && !(x.judge == On && x.scans == Off)
    && if x.judge == On then JudgeSought(f, x) && exists e | e in b.models :: JudgeFits(e, req, x)
       else x.judgeBackend == None && x.judgeModel == None
  }

  /** Everything that must hold for a request to be admitted. */
  ghost predicate Admissible(f: Formats, req: Request, b: Bundle, x: Runtime) {
    && ImageIdentified(f, x)
    && IsA(f.sha256, x.treeDigest) && IsA(f.sha256, x.specDigest)
    && Requested(req, x) && ListsAllow(f, req, b.rules, x) && EgressAllowed(f, b.rules, x)
    && ScannersAllowed(f, b.rules, x) && JudgeAllowed(f, req, b, x) && CapsAllow(b.rules, x)
    && (exists e | e in b.tasks :: TaskFits(e, x))
    && (exists e | e in b.models :: ModelFits(e, req, x))
  }

  // ----- Registry lookups -----

  ghost function FirstTask(tasks: seq<TaskEntry>, taskId: string): (r: Option<TaskEntry>)
    ensures r.Some? ==> r.value in tasks && r.value.taskId == taskId
    ensures r.None? ==> forall e | e in tasks :: e.taskId != taskId
  {
    if tasks == [] then None else if tasks[0].taskId == taskId then Some(tasks[0]) else FirstTask(tasks[1..], taskId)
  }

  /** The first entry of one kind for an adapter and model. */
  ghost function FirstModel(models: seq<ModelEntry>, coding: bool, adapter: string, model: string)
    : (r: Option<ModelEntry>)
    ensures r.Some? ==>
      r.value in models && r.value.Coding? == coding && r.value.adapter == adapter && r.value.model == model
    ensures r.None? ==> forall e | e in models && e.Coding? == coding :: e.adapter != adapter || e.model != model
  {
    if models == [] then None
    else if models[0].Coding? == coding && models[0].adapter == adapter && models[0].model == model then Some(models[0])
    else FirstModel(models[1..], coding, adapter, model)
  }

  method FindTask(tasks: seq<TaskEntry>, taskId: string) returns (r: Option<TaskEntry>)
    ensures r == FirstTask(tasks, taskId)
  {
    for i := 0 to |tasks|
      invariant FirstTask(tasks, taskId) == FirstTask(tasks[i..], taskId)
    {
      if tasks[i].taskId == taskId {
        return Some(tasks[i]);
      }
    }
    return None;
  }

  method FindModel(models: seq<ModelEntry>, coding: bool, adapter: string, model: string)
    returns (r: Option<ModelEntry>)
    ensures r == FirstModel(models, coding, adapter, model)
  {
    for i := 0 to |models|
      invariant FirstModel(models, coding, adapter, model) == FirstModel(models[i..], coding, adapter, model)
    {
      if models[i].Coding? == coding && models[i].adapter == adapter && models[i].model == model {
        return Some(models[i]);
      }
    }
    return None;
  }

  lemma TheTask(b: Bundle, e: TaskEntry)
    requires ValidBundle(b) && e in b.tasks
    ensures FirstTask(b.tasks, e.taskId) == Some(e)
  {
    var r := FirstTask(b.tasks, e.taskId);
    var i :| 0 <= i < |b.tasks| && b.tasks[i] == e;
    var j :| 0 <= j < |b.tasks| && b.tasks[j] == r.value;
    assert i == j;
  }

  lemma TheModel(b: Bundle, e: ModelEntry)
    requires ValidBundle(b) && e in b.models
    ensures FirstModel(b.models, e.Coding?, e.adapter, e.model) == Some(e)
  {
    var r := FirstModel(b.models, e.Coding?, e.adapter, e.model);
    var i :| 0 <= i < |b.models| && b.models[i] == e;
    var j :| 0 <= j < |b.models| && b.models[j] == r.value;
    assert i == j;
  }

  // ----- The denials, in the order in which the gate accumulates them -----

  predicate Fits(format: string -> bool, text: Option<string>)
    ensures Fits(format, text) <==> IsA(format, text)
  {
    text.Some? && format(text.value)
  }

  predicate Matches(f: Formats, value: string, patterns: seq<string>)
    ensures Matches(f, value, patterns) <==> Covered(f, value, patterns)
  {
    exists i | 0 <= i < |patterns| :: f.glob(value, patterns[i])
  }

  predicate ImageApproved(images: seq<Image>, x: Runtime)
    ensures ImageApproved(images, x) <==> Registered(images, x)
  {
    exists i | 0 <= i < |images| ::
      Some(images[i].platform) == x.platform && Some(images[i].reference) == x.imageRef
        && Some(images[i].digest) == x.imageDigest
  }

  predicate JudgeIdentified(f: Formats, x: Runtime)
    ensures JudgeIdentified(f, x) <==> HasJudge(f, x)
  {
    && (x.judgeBackend == Some("claude") || x.judgeBackend == Some("codex"))
    && x.judgeModel.Some? && |x.judgeModel.value| <= 256 && f.exactModel(x.judgeModel.value)
  }

  function ImageDenials(f: Formats, x: Runtime): (codes: seq<Code>)
    ensures codes == [] <==> ImageIdentified(f, x)
    ensures Admitted !in codes
  {
    if x.stage == Preflight then
      ItemIf(x.imageDigest.Some? || x.imageRef.Some? || x.platform.Some?, ImageDigestUnexpected)
    else
      ItemIf(!Fits(f.imageDigest, x.imageDigest), ImageDigestInvalid)
      + if !Fits(f.imageRef, x.imageRef) || !Fits(f.platform, x.platform) then [ImageIdentityInvalid]
        else ItemIf(Fits(f.imageDigest, x.imageDigest)
                    && x.imageRef.value != f.governedRef(x.taskId, x.imageDigest.value),
                    ImageIdentityMismatch)
  }

  function TaskDenials(f: Formats, entry: Option<TaskEntry>, x: Runtime): (codes: seq<Code>)
    requires entry.Some? ==> entry.value.taskId == x.taskId
    ensures Admitted !in codes
    ensures ImageIdentified(f, x) ==>
      (codes == [] <==>
        IsA(f.sha256, x.treeDigest) && IsA(f.sha256, x.specDigest) && entry.Some? && TaskFits(entry.value, x))
  {
    ItemIf(!Fits(f.sha256, x.treeDigest) || !Fits(f.sha256, x.specDigest), TaskEvidenceInvalid)
    + if entry.None? then [TaskNotRegistered] else EntryDenials(entry.value, x)
  }

  /** The denials of the registered entry of a task. */
  function EntryDenials(e: TaskEntry, x: Runtime): seq<Code> {
    ItemIf(e.status != APPROVED, TaskStatus(e.status))
    + ItemIf(x.treeDigest != Some(e.treeDigest), TaskTreeNotApproved)
    + (ItemIf(!(x.specDigest.Some? && x.specDigest.value in e.specDigests), ExecutionSpecNotApproved)
       + ItemIf(x.stage == Execution && !ImageApproved(e.images, x), TaskImageNotApproved))
  }

  function RequestDenials(req: Request, x: Runtime): (codes: seq<Code>)
    ensures codes == [] <==> Requested(req, x)
    ensures Admitted !in codes
  {
    ItemIf(x.taskId != req.taskId, TaskMismatch) + ItemIf(x.agent != req.agent, AgentMismatch)
    + (ItemIf(x.model != req.model, ModelMismatch) + ItemIf(x.agent == "codex", CodingModelObservationUnsupported))
  }

  function ListDenials(f: Formats, req: Request, r: Rules, x: Runtime): (codes: seq<Code>)
    ensures codes == [] <==> ListsAllow(f, req, r, x)
    ensures Admitted !in codes
  {
    ItemIf(!Matches(f, req.tenantId, r.allowedTenants), TenantNotAllowed)
    + ItemIf(!Matches(f, req.projectId, r.allowedProjects), ProjectNotAllowed)
    + ItemIf(!Matches(f, x.taskId, r.allowedTasks), TaskNotAllowed)
    + (ItemIf(req.dataClassification !in r.allowedDataClassifications, DataClassificationNotAllowed)
       + ItemIf(req.retentionClass !in r.allowedRetentionClasses, RetentionNotAllowed)
       + ItemIf(x.network !in r.allowedNetworkModes, NetworkModeNotAllowed))
  }

  /** The method `CheckEgress` finds these. */
  ghost function EgressDenials(f: Formats, r: Rules, x: Runtime): (codes: seq<Code>)
    ensures codes == [] <==> EgressAllowed(f, r, x)
    ensures Admitted !in codes
  {
    var valid := DomainsValid(f, x.egressDomains);
    var foreign := valid && !SuffixesAllowed(f, x.egressDomains, r.allowedEgressDomains);
    var proxied := x.network == "proxy";
    EitherIf(!valid, InvalidEgressDomains, proxied && foreign, EgressDomainNotAllowed)
    + EitherIf(proxied && x.proxyImage.None?, ProxyImageRequired,
               proxied && x.proxyImage.Some? && x.proxyImage.value !in r.allowedProxyImages, ProxyImageNotAllowed)
  }

  function ScannerDenials(f: Formats, r: Rules, x: Runtime): (codes: seq<Code>)
    ensures codes == [] <==> ScannersAllowed(f, r, x)
    ensures Admitted !in codes
  {
    var on, identified := x.scans == On, Fits(f.sha256, x.scannerIdentity);
    var approved := identified && x.scannerIdentity.value in r.allowedScannerIdentities;
    EitherIf(x.scans == NotBoolean, InvalidScanConfiguration, r.requireScans && !on, ScansRequired)
    + EitherIf(on && !identified, ScannerIdentityRequired, on && !approved, ScannerIdentityNotAllowed)
    + (ItemIf(on && x.scannerReady != On, ScannerIdentityIncomplete)
       + ItemIf(!on && (x.scannerIdentity.Some? || x.scannerReady != Off), ScannerIdentityUnexpected))
  }

  /** The judge entry that the gate looks up, if it gets that far. */
  ghost function MatchedJudge(f: Formats, b: Bundle, x: Runtime): Option<ModelEntry> {
    if JudgeSought(f, x)
    then FirstModel(b.models, false, "judge:" + x.judgeBackend.value, x.judgeModel.value) else None
  }

  function JudgeDenials(f: Formats, req: Request, r: Rules, x: Runtime, entry: Option<ModelEntry>): (codes: seq<Code>)
    ensures Admitted !in codes
  {
    EitherIf(x.judge == NotBoolean, InvalidJudgeConfiguration, r.requireJudge && x.judge != On, JudgeRequired)
    + ItemIf(x.judge == On && x.scans == Off, JudgeRequiresScans)
    + JudgeIdentityDenials(f, req, x, entry)
  }

  function JudgeIdentityDenials(f: Formats, req: Request, x: Runtime, entry: Option<ModelEntry>): (codes: seq<Code>)
    ensures Admitted !in codes
  {
    if x.judge == On then
      if !JudgeIdentified(f, x) then [JudgeIdentityRequired]
      else if x.judgeBackend == Some("codex") then [JudgeModelObservationUnsupported]
      else if entry.None? then [JudgeModelNotRegistered]
      else
        ItemIf(entry.value.status != APPROVED, JudgeModelStatus(entry.value.status))
        + ItemIf(req.dataClassification !in entry.value.classifications, JudgeModelClassificationNotAllowed)
    else ItemIf(x.judgeBackend.Some? || x.judgeModel.Some?, JudgeIdentityUnexpected)
  }

  function CapDenial(c: Count, cap: int, invalid: Code, exceeded: Code): seq<Code> {
    EitherIf(c.NotWhole? || c.n <= 0, invalid, c.Count? && c.n > cap, exceeded)
  }

  function BrokerDenials(r: Rules, x: Runtime): (codes: seq<Code>)
    ensures codes == [] <==> x.broker != NotBoolean && (r.requireBrokerCredentials ==> x.broker == On)
    ensures Admitted !in codes
  {
    EitherIf(x.broker == NotBoolean, InvalidBrokerConfiguration,
             r.requireBrokerCredentials && x.broker != On, BrokerCredentialsRequired)
  }

  function TrialDenials(r: Rules, x: Runtime): (codes: seq<Code>)
    ensures codes == [] <==> WithinCap(x.trials, r.maxTrials)
    ensures Admitted !in codes
  {
    CapDenial(x.trials, r.maxTrials, InvalidTrials, TrialLimitExceeded)
  }

  function TimeoutDenials(r: Rules, x: Runtime): (codes: seq<Code>)
    ensures codes == [] <==> WithinCap(x.agentSeconds, r.maxAgentSeconds) && WithinCap(x.evalSeconds, r.maxEvalSeconds)
    ensures Admitted !in codes
  {
    CapDenial(x.agentSeconds, r.maxAgentSeconds, InvalidAgentTimeout, AgentTimeoutExceeded)
    + CapDenial(x.evalSeconds, r.maxEvalSeconds, InvalidEvalTimeout, EvalTimeoutExceeded)
  }

  function ModelDenials(req: Request, entry: Option<ModelEntry>): (codes: seq<Code>)
    ensures codes == [] <==>
      entry.Some? && entry.value.status == APPROVED && req.dataClassification in entry.value.classifications
    ensures Admitted !in codes
  {
    if entry.None? then [ModelNotRegistered]
    else
      ItemIf(entry.value.status != APPROVED, ModelStatus(entry.value.status))
      + ItemIf(req.dataClassification !in entry.value.classifications, ModelClassificationNotAllowed)
  }

  /** All denials, which the method `AccumulateDenials` finds. */
  ghost function Denials(f: Formats, req: Request, b: Bundle, x: Runtime): seq<Code> {
    ImageDenials(f, x) + TaskDenials(f, FirstTask(b.tasks, x.taskId), x) + RequestDenials(req, x)
    + ListDenials(f, req, b.rules, x)
    + EgressDenials(f, b.rules, x) + ScannerDenials(f, b.rules, x)
    + JudgeDenials(f, req, b.rules, x, MatchedJudge(f, b, x))
    + BrokerDenials(b.rules, x) + TrialDenials(b.rules, x) + TimeoutDenials(b.rules, x)
    + ModelDenials(req, FirstModel(b.models, true, x.agent, x.model))
  }

  // ----- What each denial means -----

  /** A denial applies to a request: each code stands for one condition that is not met. */
  ghost predicate Denied(f: Formats, req: Request, b: Bundle, x: Runtime, code: Code) {
    var r := b.rules;
    match code
    case Admitted => false
    case ImageDigestUnexpected => x.stage == Preflight && !(x.imageDigest == x.imageRef == x.platform == None)
    case ImageDigestInvalid => x.stage == Execution && !IsA(f.imageDigest, x.imageDigest)
    case ImageIdentityInvalid => x.stage == Execution && !(IsA(f.imageRef, x.imageRef) && IsA(f.platform, x.platform))
    case ImageIdentityMismatch =>
      && x.stage == Execution && IsA(f.imageDigest, x.imageDigest) && IsA(f.imageRef, x.imageRef)
      && IsA(f.platform, x.platform) && x.imageRef != Some(f.governedRef(x.taskId, x.imageDigest.value))
    case TaskEvidenceInvalid => !(IsA(f.sha256, x.treeDigest) && IsA(f.sha256, x.specDigest))
    case TaskNotRegistered => forall e | e in b.tasks :: e.taskId != x.taskId
    case TaskStatus(status) =>
      status != APPROVED && exists e | e in b.tasks :: e.taskId == x.taskId && e.status == status
    case TaskTreeNotApproved => exists e | e in b.tasks :: e.taskId == x.taskId && x.treeDigest != Some(e.treeDigest)
    case ExecutionSpecNotApproved =>
      exists e | e in b.tasks :: e.taskId == x.taskId && forall d | x.specDigest == Some(d) :: d !in e.specDigests
    case TaskImageNotApproved =>
      x.stage == Execution && exists e | e in b.tasks :: e.taskId == x.taskId && !Registered(e.images, x)
    case TaskMismatch => x.taskId != req.taskId
    case AgentMismatch => x.agent != req.agent
    case ModelMismatch => x.model != req.model
    case CodingModelObservationUnsupported => x.agent == "codex"
    case TenantNotAllowed => !Covered(f, req.tenantId, r.allowedTenants)
    case ProjectNotAllowed => !Covered(f, req.projectId, r.allowedProjects)
    case TaskNotAllowed => !Covered(f, x.taskId, r.allowedTasks)
    case DataClassificationNotAllowed => req.dataClassification !in r.allowedDataClassifications
    case RetentionNotAllowed => req.retentionClass !in r.allowedRetentionClasses
    case NetworkModeNotAllowed => x.network !in r.allowedNetworkModes
    case InvalidEgressDomains => !DomainsValid(f, x.egressDomains)
    case EgressDomainNotAllowed =>
      && x.network == "proxy" && DomainsValid(f, x.egressDomains)
      && !SuffixesAllowed(f, x.egressDomains, r.allowedEgressDomains)
    case ProxyImageRequired => x.network == "proxy" && x.proxyImage == None
    case ProxyImageNotAllowed =>
      x.network == "proxy" && exists image :: x.proxyImage == Some(image) && image !in r.allowedProxyImages
    case InvalidScanConfiguration => x.scans == NotBoolean
    case ScansRequired => r.requireScans && x.scans == Off
    case ScannerIdentityRequired => x.scans == On && !IsA(f.sha256, x.scannerIdentity)
    case ScannerIdentityNotAllowed =>
      && x.scans == On && IsA(f.sha256, x.scannerIdentity)
      && x.scannerIdentity.value !in r.allowedScannerIdentities
    case ScannerIdentityIncomplete => x.scans == On && x.scannerReady != On
    case ScannerIdentityUnexpected => x.scans != On && !(x.scannerIdentity == None && x.scannerReady == Off)
    case InvalidJudgeConfiguration => x.judge == NotBoolean
    case JudgeRequired => r.requireJudge && x.judge == Off
    case JudgeRequiresScans => x.judge == On && x.scans == Off
    case JudgeIdentityRequired => x.judge == On && !HasJudge(f, x)
    case JudgeModelObservationUnsupported => x.judge == On && HasJudge(f, x) && x.judgeBackend == Some("codex")
    case JudgeModelNotRegistered => JudgeSought(f, x) && forall e | e in b.models :: !IsJudge(e, x)
    case JudgeModelStatus(status) =>
      JudgeSought(f, x) && status != APPROVED && exists e | e in b.models :: IsJudge(e, x) && e.status == status
    case JudgeModelClassificationNotAllowed =>
      JudgeSought(f, x) && exists e | e in b.models :: IsJudge(e, x) && req.dataClassification !in e.classifications
    case JudgeIdentityUnexpected => x.judge != On && !(x.judgeBackend == x.judgeModel == None)
    case InvalidBrokerConfiguration => x.broker == NotBoolean
    case BrokerCredentialsRequired => r.requireBrokerCredentials && x.broker == Off
    case InvalidTrials => !IsPositive(x.trials)
    case TrialLimitExceeded => IsPositive(x.trials) && x.trials.n > r.maxTrials
    case InvalidAgentTimeout => !IsPositive(x.agentSeconds)
    case AgentTimeoutExceeded => IsPositive(x.agentSeconds) && x.agentSeconds.n > r.maxAgentSeconds
    case InvalidEvalTimeout => !IsPositive(x.evalSeconds)
    case EvalTimeoutExceeded => IsPositive(x.evalSeconds) && x.evalSeconds.n > r.maxEvalSeconds
    case ModelNotRegistered => forall e | e in b.models :: !IsCoder(e, x)
    case ModelStatus(status) =>
      status != APPROVED && exists e | e in b.models :: IsCoder(e, x) && e.status == status
    case ModelClassificationNotAllowed =>
      exists e | e in b.models :: IsCoder(e, x) && req.dataClassification !in e.classifications
  }

  ghost predicate IsPositive(c: Count) {
    exists n: nat :: c == Count(n) && n > 0
  }

  ghost function DenialsOf(f: Formats, req: Request, b: Bundle, x: Runtime): Code -> bool {
    code => Denied(f, req, b, x, code)
  }

  /** Where a denial stands in the order of the gate. */
  ghost function Place(code: Code): nat {
    match code
    case ImageDigestUnexpected => 0
    case ImageDigestInvalid => 1
    case ImageIdentityInvalid => 2
    case ImageIdentityMismatch => 3
    case TaskEvidenceInvalid => 4
    case TaskNotRegistered => 5
    case TaskStatus(_) => 6
    case TaskTreeNotApproved => 7
    case ExecutionSpecNotApproved => 8
    case TaskImageNotApproved => 9
    case TaskMismatch => 10
    case AgentMismatch => 11
    case ModelMismatch => 12
    case CodingModelObservationUnsupported => 13
    case TenantNotAllowed => 14
    case ProjectNotAllowed => 15
    case TaskNotAllowed => 16
    case DataClassificationNotAllowed => 17
    case RetentionNotAllowed => 18
    case NetworkModeNotAllowed => 19
    case InvalidEgressDomains => 20
    case EgressDomainNotAllowed => 21
    case ProxyImageRequired => 22
    case ProxyImageNotAllowed => 23
    case InvalidScanConfiguration => 24
    case ScansRequired => 25
    case ScannerIdentityRequired => 26
    case ScannerIdentityNotAllowed => 27
    case ScannerIdentityIncomplete => 28
    case ScannerIdentityUnexpected => 29
    case InvalidJudgeConfiguration => 30
    case JudgeRequired => 31
    case JudgeRequiresScans => 32
    case JudgeIdentityRequired => 33
    case JudgeModelObservationUnsupported => 34
    case JudgeModelNotRegistered => 35
    case JudgeModelStatus(_) => 36
    case JudgeModelClassificationNotAllowed => 37
    case JudgeIdentityUnexpected => 38
    case InvalidBrokerConfiguration => 39
    case BrokerCredentialsRequired => 40
    case InvalidTrials => 41
    case TrialLimitExceeded => 42
    case InvalidAgentTimeout => 43
    case AgentTimeoutExceeded => 44
    case InvalidEvalTimeout => 45
    case EvalTimeoutExceeded => 46
    case ModelNotRegistered => 47
    case ModelStatus(_) => 48
    case ModelClassificationNotAllowed => 49
    case Admitted => 50
  }

  /** The entry of the task of a request, if there is one, is the only one. */
  lemma TaskEntries(b: Bundle, x: Runtime)
    requires ValidBundle(b)
    ensures forall e | e in b.tasks && e.taskId == x.taskId :: FirstTask(b.tasks, x.taskId) == Some(e)
  {
    forall e | e in b.tasks && e.taskId == x.taskId ensures FirstTask(b.tasks, x.taskId) == Some(e) {
      TheTask(b, e);
    }
  }

  lemma CoderEntries(b: Bundle, x: Runtime)
    requires ValidBundle(b)
    ensures forall e | e in b.models && IsCoder(e, x) :: FirstModel(b.models, true, x.agent, x.model) == Some(e)
  {
    forall e | e in b.models && IsCoder(e, x) ensures FirstModel(b.models, true, x.agent, x.model) == Some(e) {
      TheModel(b, e);
    }
  }

  lemma JudgeEntries(f: Formats, b: Bundle, x: Runtime)
    requires ValidBundle(b) && JudgeSought(f, x)
    ensures forall e | e in b.models && IsJudge(e, x) :: MatchedJudge(f, b, x) == Some(e)
    ensures MatchedJudge(f, b, x).Some? ==> IsJudge(MatchedJudge(f, b, x).value, x)
  {
    forall e | e in b.models && IsJudge(e, x) ensures MatchedJudge(f, b, x) == Some(e) {
      TheModel(b, e);
    }
  }

  /** A code that names no status has its place for itself. */
  lemma PlainCodesAlone(has: Code -> bool)
    ensures forall code: Code | !code.TaskStatus? && !code.JudgeModelStatus? && !code.ModelStatus? ::
      Alone(has, Place, code)
  {
  }

  lemma ImageDenialsAre(f: Formats, req: Request, b: Bundle, x: Runtime)
    ensures var has := DenialsOf(f, req, b, x);
      ImageDenials(f, x)
      == (Of(has, ImageDigestUnexpected) + Of(has, ImageDigestInvalid))
         + (Of(has, ImageIdentityInvalid) + Of(has, ImageIdentityMismatch))
  {
    hide IsA, Covered, Registered, HasJudge, DomainsValid, SuffixesAllowed, Fits, Matches, ImageApproved,
         JudgeIdentified;
  }

  lemma ImageDenialsPlaced()
    ensures Place(ImageDigestUnexpected) == 0 && Place(ImageDigestInvalid) == 1
    ensures Place(ImageIdentityInvalid) == 2 && Place(ImageIdentityMismatch) == 3
  {
  }

  lemma ImageDenialsListed(f: Formats, req: Request, b: Bundle, x: Runtime)
    ensures Lists(ImageDenials(f, x), DenialsOf(f, req, b, x), Place, 0, 4)
  {
    hide Lists, Of, ImageDenials, Denied, Alone, Place;
    var has := DenialsOf(f, req, b, x);
    PlainCodesAlone(has);
    ImageDenialsAre(f, req, b, x);
    ImageDenialsPlaced();
    Pairs(has, Place, ImageDigestUnexpected, ImageDigestInvalid, ImageIdentityInvalid, ImageIdentityMismatch);
  }

  lemma RequestDenialsAre(f: Formats, req: Request, b: Bundle, x: Runtime)
    ensures var has := DenialsOf(f, req, b, x);
      RequestDenials(req, x)
      == (Of(has, TaskMismatch) + Of(has, AgentMismatch))
         + (Of(has, ModelMismatch) + Of(has, CodingModelObservationUnsupported))
  {
    hide IsA, Covered, Registered, HasJudge, DomainsValid, SuffixesAllowed, Fits, Matches, ImageApproved,
         JudgeIdentified;
    hide ItemIf, EitherIf;
  }

  lemma RequestDenialsPlaced()
    ensures Place(TaskMismatch) == 10 && Place(AgentMismatch) == 11
    ensures Place(ModelMismatch) == 12 && Place(CodingModelObservationUnsupported) == 13
  {
  }

  lemma RequestDenialsListed(f: Formats, req: Request, b: Bundle, x: Runtime)
    ensures Lists(RequestDenials(req, x), DenialsOf(f, req, b, x), Place, 10, 14)
  {
    hide Lists, Of, RequestDenials, Denied, Alone, Place;
    var has := DenialsOf(f, req, b, x);
    PlainCodesAlone(has);
    RequestDenialsAre(f, req, b, x);
    RequestDenialsPlaced();
    Pairs(has, Place, TaskMismatch, AgentMismatch, ModelMismatch, CodingModelObservationUnsupported);
  }

  lemma ListDenialsAre(f: Formats, req: Request, b: Bundle, x: Runtime)
    ensures var has := DenialsOf(f, req, b, x);
      ListDenials(f, req, b.rules, x)
      == Of(has, TenantNotAllowed) + Of(has, ProjectNotAllowed) + Of(has, TaskNotAllowed)
         + (Of(has, DataClassificationNotAllowed) + Of(has, RetentionNotAllowed) + Of(has, NetworkModeNotAllowed))
  {
    hide IsA, Covered, Registered, HasJudge, DomainsValid, SuffixesAllowed, Fits, Matches, ImageApproved,
         JudgeIdentified;
    hide ItemIf, EitherIf;
  }

  lemma ListDenialsPlaced()
    ensures Place(TenantNotAllowed) == 14 && Place(ProjectNotAllowed) == 15
    ensures Place(TaskNotAllowed) == 16 && Place(DataClassificationNotAllowed) == 17
    ensures Place(RetentionNotAllowed) == 18 && Place(NetworkModeNotAllowed) == 19
  {
  }

  lemma ListDenialsListed(f: Formats, req: Request, b: Bundle, x: Runtime)
    ensures Lists(ListDenials(f, req, b.rules, x), DenialsOf(f, req, b, x), Place, 14, 20)
  {
    hide Lists, Of, ListDenials, Denied, Alone, Place;
    var has := DenialsOf(f, req, b, x);
    PlainCodesAlone(has);
    ListDenialsAre(f, req, b, x);
    ListDenialsPlaced();
    Triple(has, Place, TenantNotAllowed, ProjectNotAllowed, TaskNotAllowed);
    Triple(has, Place, DataClassificationNotAllowed, RetentionNotAllowed, NetworkModeNotAllowed);
    var first := Of(has, TenantNotAllowed) + Of(has, ProjectNotAllowed) + Of(has, TaskNotAllowed);
    var second := Of(has, DataClassificationNotAllowed) + Of(has, RetentionNotAllowed) + Of(has, NetworkModeNotAllowed);
    Join(first, second, has, Place, 14, 17, 20);
  }

  lemma EgressDenialsAre(f: Formats, req: Request, b: Bundle, x: Runtime)
    ensures var has := DenialsOf(f, req, b, x);
      EgressDenials(f, b.rules, x)
      == (Of(has, InvalidEgressDomains) + Of(has, EgressDomainNotAllowed))
         + (Of(has, ProxyImageRequired) + Of(has, ProxyImageNotAllowed))
  {
    hide IsA, Covered, Registered, HasJudge, DomainsValid, SuffixesAllowed, Fits, Matches, ImageApproved,
         JudgeIdentified;
    hide ItemIf, EitherIf;
  }

  lemma EgressDenialsPlaced()
    ensures Place(InvalidEgressDomains) == 20 && Place(EgressDomainNotAllowed) == 21
    ensures Place(ProxyImageRequired) == 22 && Place(ProxyImageNotAllowed) == 23
  {
  }

  lemma EgressDenialsListed(f: Formats, req: Request, b: Bundle, x: Runtime)
    ensures Lists(EgressDenials(f, b.rules, x), DenialsOf(f, req, b, x), Place, 20, 24)
  {
    hide Lists, Of, EgressDenials, Denied, Alone, Place;
    var has := DenialsOf(f, req, b, x);
    PlainCodesAlone(has);
    EgressDenialsAre(f, req, b, x);
    EgressDenialsPlaced();
    Pairs(has, Place, InvalidEgressDomains, EgressDomainNotAllowed, ProxyImageRequired, ProxyImageNotAllowed);
  }

  lemma ScannerDenialsAre(f: Formats, req: Request, b: Bundle, x: Runtime)
    ensures var has := DenialsOf(f, req, b, x);
      ScannerDenials(f, b.rules, x)
      == (Of(has, InvalidScanConfiguration) + Of(has, ScansRequired))
         + (Of(has, ScannerIdentityRequired) + Of(has, ScannerIdentityNotAllowed))
         + (Of(has, ScannerIdentityIncomplete) + Of(has, ScannerIdentityUnexpected))
  {
    hide IsA, Covered, Registered, HasJudge, DomainsValid, SuffixesAllowed, Fits, Matches, ImageApproved,
         JudgeIdentified;
    hide ItemIf, EitherIf;
  }

  lemma ScannerDenialsPlaced()
    ensures Place(InvalidScanConfiguration) == 24 && Place(ScansRequired) == 25
    ensures Place(ScannerIdentityRequired) == 26 && Place(ScannerIdentityNotAllowed) == 27
    ensures Place(ScannerIdentityIncomplete) == 28 && Place(ScannerIdentityUnexpected) == 29
  {
  }

  lemma ScannerDenialsListed(f: Formats, req: Request, b: Bundle, x: Runtime)
    ensures Lists(ScannerDenials(f, b.rules, x), DenialsOf(f, req, b, x), Place, 24, 30)
  {
    hide Lists, Of, ScannerDenials, Denied, Alone, Place;
    var has := DenialsOf(f, req, b, x);
    PlainCodesAlone(has);
    ScannerDenialsAre(f, req, b, x);
    ScannerDenialsPlaced();
    Pairs(has, Place, InvalidScanConfiguration, ScansRequired, ScannerIdentityRequired, ScannerIdentityNotAllowed);
    Pair(has, Place, ScannerIdentityIncomplete, ScannerIdentityUnexpected);
    var first := (Of(has, InvalidScanConfiguration) + Of(has, ScansRequired))
      + (Of(has, ScannerIdentityRequired) + Of(has, ScannerIdentityNotAllowed));
    var second := Of(has, ScannerIdentityIncomplete) + Of(has, ScannerIdentityUnexpected);
    Join(first, second, has, Place, 24, 28, 30);
  }

  lemma CapDenialIs(c: Count, cap: int, invalid: Code, exceeded: Code)
    ensures CapDenial(c, cap, invalid, exceeded)
      == ItemIf(!IsPositive(c), invalid) + ItemIf(IsPositive(c) && c.n > cap, exceeded)
  {
  }

  lemma BrokerDenialsAre(f: Formats, req: Request, b: Bundle, x: Runtime)
    ensures var has := DenialsOf(f, req, b, x);
      BrokerDenials(b.rules, x)
      == Of(has, InvalidBrokerConfiguration) + Of(has, BrokerCredentialsRequired)
  {
    hide IsA, Covered, Registered, HasJudge, DomainsValid, SuffixesAllowed, Fits, Matches, ImageApproved,
         JudgeIdentified;
    hide ItemIf, EitherIf;
  }

  lemma BrokerDenialsPlaced()
    ensures Place(InvalidBrokerConfiguration) == 39 && Place(BrokerCredentialsRequired) == 40
  {
  }

  lemma BrokerDenialsListed(f: Formats, req: Request, b: Bundle, x: Runtime)
    ensures Lists(BrokerDenials(b.rules, x), DenialsOf(f, req, b, x), Place, 39, 41)
  {
    hide Lists, Of, BrokerDenials, Denied, Alone, Place;
    var has := DenialsOf(f, req, b, x);
    PlainCodesAlone(has);
    BrokerDenialsAre(f, req, b, x);
    BrokerDenialsPlaced();
    Pair(has, Place, InvalidBrokerConfiguration, BrokerCredentialsRequired);
  }

  lemma TimeoutDenialsAre(f: Formats, req: Request, b: Bundle, x: Runtime)
    ensures var has := DenialsOf(f, req, b, x);
      TimeoutDenials(b.rules, x)
      == (Of(has, InvalidAgentTimeout) + Of(has, AgentTimeoutExceeded))
         + (Of(has, InvalidEvalTimeout) + Of(has, EvalTimeoutExceeded))
  {
    hide IsA, Covered, Registered, HasJudge, DomainsValid, SuffixesAllowed, Fits, Matches, ImageApproved,
         JudgeIdentified;
    hide ItemIf, EitherIf;
    hide CapDenial;
    CapDenialIs(x.agentSeconds, b.rules.maxAgentSeconds, InvalidAgentTimeout, AgentTimeoutExceeded);
    CapDenialIs(x.evalSeconds, b.rules.maxEvalSeconds, InvalidEvalTimeout, EvalTimeoutExceeded);
  }

  lemma TimeoutDenialsPlaced()
    ensures Place(InvalidAgentTimeout) == 43 && Place(AgentTimeoutExceeded) == 44
    ensures Place(InvalidEvalTimeout) == 45 && Place(EvalTimeoutExceeded) == 46
  {
  }

  lemma TimeoutDenialsListed(f: Formats, req: Request, b: Bundle, x: Runtime)
    ensures Lists(TimeoutDenials(b.rules, x), DenialsOf(f, req, b, x), Place, 43, 47)
  {
    hide Lists, Of, TimeoutDenials, Denied, Alone, Place;
    var has := DenialsOf(f, req, b, x);
    PlainCodesAlone(has);
    TimeoutDenialsAre(f, req, b, x);
    TimeoutDenialsPlaced();
    Pairs(has, Place, InvalidAgentTimeout, AgentTimeoutExceeded, InvalidEvalTimeout, EvalTimeoutExceeded);
  }

  lemma TrialDenialsAre(f: Formats, req: Request, b: Bundle, x: Runtime)
    ensures var has := DenialsOf(f, req, b, x);
      TrialDenials(b.rules, x)
      == Of(has, InvalidTrials) + Of(has, TrialLimitExceeded)
  {
    hide IsA, Covered, Registered, HasJudge, DomainsValid, SuffixesAllowed, Fits, Matches, ImageApproved,
         JudgeIdentified;
    hide ItemIf, EitherIf;
    hide CapDenial;
    CapDenialIs(x.trials, b.rules.maxTrials, InvalidTrials, TrialLimitExceeded);
  }

  lemma TrialDenialsPlaced()
    ensures Place(InvalidTrials) == 41 && Place(TrialLimitExceeded) == 42
  {
  }

  lemma TrialDenialsListed(f: Formats, req: Request, b: Bundle, x: Runtime)
    ensures Lists(TrialDenials(b.rules, x), DenialsOf(f, req, b, x), Place, 41, 43)
  {
    hide Lists, Of, TrialDenials, Denied, Alone, Place;
    var has := DenialsOf(f, req, b, x);
    PlainCodesAlone(has);
    TrialDenialsAre(f, req, b, x);
    TrialDenialsPlaced();
    Pair(has, Place, InvalidTrials, TrialLimitExceeded);
  }

  // The groups whose denials depend on a registry entry.

  lemma EntryDenialsListed(f: Formats, req: Request, b: Bundle, x: Runtime, e: TaskEntry)
    requires ValidBundle(b) && e in b.tasks && e.taskId == x.taskId
    ensures Lists(EntryDenials(e, x), DenialsOf(f, req, b, x), Place, 6, 10)
  {
    hide Lists, Of, EntryDenials, Denied, Alone, Place, FirstTask;
    var has := DenialsOf(f, req, b, x);
    EntryDenialsAre(f, req, b, x, e);
    TaskStatusAlone(f, req, b, x, e);
    PlainCodesAlone(has);
    EntryDenialsPlaced(e.status);
    Pairs(has, Place, TaskStatus(e.status), TaskTreeNotApproved, ExecutionSpecNotApproved, TaskImageNotApproved);
  }

  lemma EntryDenialsAre(f: Formats, req: Request, b: Bundle, x: Runtime, e: TaskEntry)
    requires ValidBundle(b) && e in b.tasks && e.taskId == x.taskId
    ensures var has := DenialsOf(f, req, b, x);
      EntryDenials(e, x)
      == Of(has, TaskStatus(e.status)) + Of(has, TaskTreeNotApproved)
         + (Of(has, ExecutionSpecNotApproved) + Of(has, TaskImageNotApproved))
  {
    hide ItemIf, FirstTask, Registered, ImageApproved;
    TaskEntries(b, x);
  }

  lemma TaskStatusAlone(f: Formats, req: Request, b: Bundle, x: Runtime, e: TaskEntry)
    requires ValidBundle(b) && e in b.tasks && e.taskId == x.taskId
    ensures Alone(DenialsOf(f, req, b, x), Place, TaskStatus(e.status))
  {
    hide FirstTask;
    TaskEntries(b, x);
  }

  lemma EntryDenialsPlaced(status: string)
    ensures Place(TaskStatus(status)) == 6 && Place(TaskTreeNotApproved) == 7
    ensures Place(ExecutionSpecNotApproved) == 8 && Place(TaskImageNotApproved) == 9
  {
  }

  lemma TaskDenialsListed(f: Formats, req: Request, b: Bundle, x: Runtime)
    requires ValidBundle(b)
    ensures Lists(TaskDenials(f, FirstTask(b.tasks, x.taskId), x), DenialsOf(f, req, b, x), Place, 4, 10)
  {
    hide Lists, Of, Denied, Alone, Place, FirstTask, EntryDenials;
    var has, entry := DenialsOf(f, req, b, x), FirstTask(b.tasks, x.taskId);
    PlainCodesAlone(has);
    TaskDenialsPlaced();
    TaskDenialsAre(f, req, b, x);
    Pair(has, Place, TaskEvidenceInvalid, TaskNotRegistered);
    var first := Of(has, TaskEvidenceInvalid) + Of(has, TaskNotRegistered);
    if entry.Some? {
      EntryDenialsListed(f, req, b, x, entry.value);
      Join(first, EntryDenials(entry.value, x), has, Place, 4, 6, 10);
    } else {
      forall code | Denied(f, req, b, x, code) && 4 <= Place(code) < 10 ensures Place(code) < 6 {
        OfUnregistered(f, req, b, x, code);
      }
      Widen(first, has, Place, 4, 6, 4, 10);
      assert first + [] == first;
    }
  }

  lemma TaskDenialsPlaced()
    ensures Place(TaskEvidenceInvalid) == 4 && Place(TaskNotRegistered) == 5
  {
  }

  lemma TaskDenialsAre(f: Formats, req: Request, b: Bundle, x: Runtime)
    ensures var has, entry := DenialsOf(f, req, b, x), FirstTask(b.tasks, x.taskId);
      TaskDenials(f, entry, x)
      == Of(has, TaskEvidenceInvalid) + Of(has, TaskNotRegistered)
         + if entry.None? then [] else EntryDenials(entry.value, x)
  {
    hide FirstTask, IsA, Fits, EntryDenials;
  }

  lemma OfUnregistered(f: Formats, req: Request, b: Bundle, x: Runtime, code: Code)
    requires FirstTask(b.tasks, x.taskId).None? && Denied(f, req, b, x, code) && 4 <= Place(code) < 10
    ensures Place(code) < 6
  {
    hide FirstTask;
  }

  lemma JudgeConfigurationListed(f: Formats, req: Request, b: Bundle, x: Runtime)
    ensures Lists(
      EitherIf(x.judge == NotBoolean, InvalidJudgeConfiguration, b.rules.requireJudge && x.judge != On, JudgeRequired)
      + ItemIf(x.judge == On && x.scans == Off, JudgeRequiresScans), DenialsOf(f, req, b, x), Place, 30, 33)
  {
    hide Lists, Of, Alone, Place, Denied, EitherIf, ItemIf;
    var has := DenialsOf(f, req, b, x);
    PlainCodesAlone(has);
    JudgeConfigurationIs(f, req, b, x);
    Triple(has, Place, InvalidJudgeConfiguration, JudgeRequired, JudgeRequiresScans);
  }

  lemma JudgeConfigurationIs(f: Formats, req: Request, b: Bundle, x: Runtime)
    ensures var has := DenialsOf(f, req, b, x);
      EitherIf(x.judge == NotBoolean, InvalidJudgeConfiguration, b.rules.requireJudge && x.judge != On, JudgeRequired)
      + ItemIf(x.judge == On && x.scans == Off, JudgeRequiresScans)
      == Of(has, InvalidJudgeConfiguration) + Of(has, JudgeRequired) + Of(has, JudgeRequiresScans)
    ensures Place(InvalidJudgeConfiguration) == 30 && Place(JudgeRequired) == 31 && Place(JudgeRequiresScans) == 32
  {
    hide ItemIf, EitherIf;
  }

  /** The one denial of a judge that has no entry to look up. */
  lemma OfUnknownJudge(f: Formats, req: Request, b: Bundle, x: Runtime, code: Code)
    requires !JudgeSought(f, x) || forall e | e in b.models :: !IsJudge(e, x)
    requires Denied(f, req, b, x, code) && 33 <= Place(code) < 39
    ensures code == UnknownJudge(f, x)
  {
    hide HasJudge;
  }

  lemma OfRegisteredJudge(f: Formats, req: Request, b: Bundle, x: Runtime, e: ModelEntry, code: Code)
    requires ValidBundle(b) && JudgeSought(f, x) && e in b.models && IsJudge(e, x)
    requires Denied(f, req, b, x, code) && 33 <= Place(code) < 39
    ensures code == JudgeModelStatus(e.status) || code == JudgeModelClassificationNotAllowed
  {
    hide FirstModel, HasJudge;
    JudgeEntries(f, b, x);
  }

  lemma JudgeIdentityListed(f: Formats, req: Request, b: Bundle, x: Runtime)
    requires ValidBundle(b)
    ensures Lists(JudgeIdentityDenials(f, req, x, MatchedJudge(f, b, x)), DenialsOf(f, req, b, x), Place, 33, 39)
  {
    var has, entry := DenialsOf(f, req, b, x), MatchedJudge(f, b, x);
    if JudgeSought(f, x) && entry.Some? {
      RegisteredJudgeListed(f, req, b, x, entry.value);
    } else {
      UnknownJudgeListed(f, req, b, x);
    }
  }

  /** The denial of a judge that cannot be looked up, or was not found. */
  ghost function UnknownJudge(f: Formats, x: Runtime): Code {
    if x.judge != On then JudgeIdentityUnexpected
    else if !HasJudge(f, x) then JudgeIdentityRequired
    else if x.judgeBackend == Some("codex") then JudgeModelObservationUnsupported
    else JudgeModelNotRegistered
  }

  lemma UnknownJudgeIs(f: Formats, req: Request, b: Bundle, x: Runtime)
    requires JudgeSought(f, x) ==> MatchedJudge(f, b, x).None?
    ensures JudgeIdentityDenials(f, req, x, MatchedJudge(f, b, x)) == Of(DenialsOf(f, req, b, x), UnknownJudge(f, x))
    ensures JudgeSought(f, x) ==> forall e | e in b.models :: !IsJudge(e, x)
    ensures 33 <= Place(UnknownJudge(f, x)) < 39
  {
    hide FirstModel;
  }

  lemma UnknownJudgeListed(f: Formats, req: Request, b: Bundle, x: Runtime)
    requires JudgeSought(f, x) ==> MatchedJudge(f, b, x).None?
    ensures Lists(JudgeIdentityDenials(f, req, x, MatchedJudge(f, b, x)), DenialsOf(f, req, b, x), Place, 33, 39)
  {
    hide Lists, Of, Alone, Place, Denied, JudgeIdentityDenials, FirstModel, HasJudge, UnknownJudge;
    var has, code := DenialsOf(f, req, b, x), UnknownJudge(f, x);
    UnknownJudgeIs(f, req, b, x);
    UnknownIsPlain(f, x);
    PlainCodesAlone(has);
    forall c | Denied(f, req, b, x, c) && 33 <= Place(c) < 39 ensures c == code {
      OfUnknownJudge(f, req, b, x, c);
    }
    Single(has, Place, code);
    Widen(Of(has, code), has, Place, Place(code), Place(code) + 1, 33, 39);
  }

  lemma UnknownIsPlain(f: Formats, x: Runtime)
    ensures var code := UnknownJudge(f, x); !code.TaskStatus? && !code.JudgeModelStatus? && !code.ModelStatus?
  {
  }

  lemma RegisteredJudgeIs(f: Formats, req: Request, b: Bundle, x: Runtime, e: ModelEntry)
    requires ValidBundle(b) && JudgeSought(f, x) && MatchedJudge(f, b, x) == Some(e)
    ensures var has := DenialsOf(f, req, b, x);
      JudgeIdentityDenials(f, req, x, Some(e))
      == Of(has, JudgeModelStatus(e.status)) + Of(has, JudgeModelClassificationNotAllowed)
    ensures e in b.models && IsJudge(e, x)
    ensures Place(JudgeModelStatus(e.status)) == 36 && Place(JudgeModelClassificationNotAllowed) == 37
  {
    hide FirstModel, HasJudge, JudgeIdentified;
    JudgeEntries(f, b, x);
  }

  lemma RegisteredJudgeListed(f: Formats, req: Request, b: Bundle, x: Runtime, e: ModelEntry)
    requires ValidBundle(b) && JudgeSought(f, x) && MatchedJudge(f, b, x) == Some(e)
    ensures Lists(JudgeIdentityDenials(f, req, x, Some(e)), DenialsOf(f, req, b, x), Place, 33, 39)
  {
    hide Lists, Of, Place, Denied, JudgeIdentityDenials, FirstModel, HasJudge;
    var has := DenialsOf(f, req, b, x);
    var status, grade := JudgeModelStatus(e.status), JudgeModelClassificationNotAllowed;
    RegisteredJudgeIs(f, req, b, x, e);
    forall c | Denied(f, req, b, x, c) && 33 <= Place(c) < 39 ensures c == status || c == grade {
      OfRegisteredJudge(f, req, b, x, e, c);
    }
    assert Alone(has, Place, status) && Alone(has, Place, grade);
    Pair(has, Place, status, grade);
    Widen(Of(has, status) + Of(has, grade), has, Place, 36, 38, 33, 39);
  }

  lemma JudgeDenialsListed(f: Formats, req: Request, b: Bundle, x: Runtime)
    requires ValidBundle(b)
    ensures Lists(JudgeDenials(f, req, b.rules, x, MatchedJudge(f, b, x)), DenialsOf(f, req, b, x), Place, 30, 39)
  {
    hide Lists, Place, Denied, JudgeIdentityDenials, MatchedJudge, EitherIf, ItemIf;
    var r, entry := b.rules, MatchedJudge(f, b, x);
    JudgeConfigurationListed(f, req, b, x);
    JudgeIdentityListed(f, req, b, x);
    Join(EitherIf(x.judge == NotBoolean, InvalidJudgeConfiguration, r.requireJudge && x.judge != On, JudgeRequired)
         + ItemIf(x.judge == On && x.scans == Off, JudgeRequiresScans),
         JudgeIdentityDenials(f, req, x, entry), DenialsOf(f, req, b, x), Place, 30, 33, 39);
  }

  lemma OfUnregisteredModel(f: Formats, req: Request, b: Bundle, x: Runtime, code: Code)
    requires FirstModel(b.models, true, x.agent, x.model).None?
    requires Denied(f, req, b, x, code) && 47 <= Place(code) < 50
    ensures code == ModelNotRegistered
  {
    hide FirstModel;
  }

  lemma OfRegisteredModel(f: Formats, req: Request, b: Bundle, x: Runtime, e: ModelEntry, code: Code)
    requires ValidBundle(b) && FirstModel(b.models, true, x.agent, x.model) == Some(e)
    requires Denied(f, req, b, x, code) && 47 <= Place(code) < 50
    ensures code == ModelStatus(e.status) || code == ModelClassificationNotAllowed
  {
    hide FirstModel;
    CoderEntries(b, x);
  }

  lemma UnregisteredModelIs(f: Formats, req: Request, b: Bundle, x: Runtime)
    requires FirstModel(b.models, true, x.agent, x.model).None?
    ensures ModelDenials(req, None) == Of(DenialsOf(f, req, b, x), ModelNotRegistered)
  {
    hide FirstModel;
  }

  lemma RegisteredModelIs(f: Formats, req: Request, b: Bundle, x: Runtime, e: ModelEntry)
    requires ValidBundle(b) && FirstModel(b.models, true, x.agent, x.model) == Some(e)
    ensures var has := DenialsOf(f, req, b, x);
      ModelDenials(req, Some(e)) == Of(has, ModelStatus(e.status)) + Of(has, ModelClassificationNotAllowed)
  {
    hide FirstModel, ItemIf;
    CoderEntries(b, x);
  }

  lemma ModelDenialsPlaced()
    ensures Place(ModelNotRegistered) == 47 && forall status :: Place(ModelStatus(status)) == 48
    ensures Place(ModelClassificationNotAllowed) == 49
  {
  }

  lemma ModelDenialsListed(f: Formats, req: Request, b: Bundle, x: Runtime)
    requires ValidBundle(b)
    ensures Lists(ModelDenials(req, FirstModel(b.models, true, x.agent, x.model)), DenialsOf(f, req, b, x), Place,
                  47, 50)
  {
    hide Lists, Of, Place, Denied, ModelDenials, FirstModel;
    var has, entry := DenialsOf(f, req, b, x), FirstModel(b.models, true, x.agent, x.model);
    ModelDenialsPlaced();
    if entry.None? {
      UnregisteredModelIs(f, req, b, x);
      forall c | Denied(f, req, b, x, c) && 47 <= Place(c) < 50 ensures c == ModelNotRegistered {
        OfUnregisteredModel(f, req, b, x, c);
      }
      assert Alone(has, Place, ModelNotRegistered);
      Single(has, Place, ModelNotRegistered);
      Widen(Of(has, ModelNotRegistered), has, Place, 47, 48, 47, 50);
    } else {
      RegisteredModelIs(f, req, b, x, entry.value);
      var status, grade := ModelStatus(entry.value.status), ModelClassificationNotAllowed;
      forall c | Denied(f, req, b, x, c) && 47 <= Place(c) < 50 ensures c == status || c == grade {
        OfRegisteredModel(f, req, b, x, entry.value, c);
      }
      assert Alone(has, Place, status) && Alone(has, Place, grade);
      Pair(has, Place, status, grade);
      Widen(Of(has, status) + Of(has, grade), has, Place, 48, 50, 47, 50);
    }
  }

  /** Main result: the gate reports exactly the denials that apply, each once and in its order. */
  lemma DenialsListed(f: Formats, req: Request, b: Bundle, x: Runtime)
    requires ValidBundle(b)
    ensures Lists(Denials(f, req, b, x), DenialsOf(f, req, b, x), Place, 0, 50)
  {
    hide Lists, Place, DenialsOf, ImageDenials, TaskDenials, RequestDenials, ListDenials, ScannerDenials,
         EgressDenials, JudgeDenials, BrokerDenials, TrialDenials, TimeoutDenials, ModelDenials, FirstTask, FirstModel,
         MatchedJudge;
    var has := DenialsOf(f, req, b, x);
    var image, task := ImageDenials(f, x), TaskDenials(f, FirstTask(b.tasks, x.taskId), x);
    var request, lists := RequestDenials(req, x), ListDenials(f, req, b.rules, x);
    var egress, scanner := EgressDenials(f, b.rules, x), ScannerDenials(f, b.rules, x);
    var judge := JudgeDenials(f, req, b.rules, x, MatchedJudge(f, b, x));
    var broker, trials, timeouts := BrokerDenials(b.rules, x), TrialDenials(b.rules, x), TimeoutDenials(b.rules, x);
    var model := ModelDenials(req, FirstModel(b.models, true, x.agent, x.model));
    ImageDenialsListed(f, req, b, x);
    TaskDenialsListed(f, req, b, x);
    Join(image, task, has, Place, 0, 4, 10);
    RequestDenialsListed(f, req, b, x);
    Join(image + task, request, has, Place, 0, 10, 14);
    ListDenialsListed(f, req, b, x);
    Join(image + task + request, lists, has, Place, 0, 14, 20);
    EgressDenialsListed(f, req, b, x);
    Join(image + task + request + lists, egress, has, Place, 0, 20, 24);
    ScannerDenialsListed(f, req, b, x);
    Join(image + task + request + lists + egress, scanner, has, Place, 0, 24, 30);
    JudgeDenialsListed(f, req, b, x);
    var front := image + task + request + lists + egress + scanner;
    Join(front, judge, has, Place, 0, 30, 39);
    BrokerDenialsListed(f, req, b, x);
    Join(front + judge, broker, has, Place, 0, 39, 41);
    TrialDenialsListed(f, req, b, x);
    Join(front + judge + broker, trials, has, Place, 0, 41, 43);
    TimeoutDenialsListed(f, req, b, x);
    Join(front + judge + broker + trials, timeouts, has, Place, 0, 43, 47);
    ModelDenialsListed(f, req, b, x);
    Join(front + judge + broker + trials + timeouts, model, has, Place, 0, 47, 50);
  }

  lemma JudgeDenialsMean(f: Formats, req: Request, b: Bundle, x: Runtime)
    requires ValidBundle(b)
    ensures JudgeDenials(f, req, b.rules, x, MatchedJudge(f, b, x)) == [] <==> JudgeAllowed(f, req, b, x)
  {
    forall e | e in b.models && JudgeFits(e, req, x)
      ensures JudgeSought(f, x) ==> MatchedJudge(f, b, x) == Some(e)
    {
      TheModel(b, e);
    }
    var m := MatchedJudge(f, b, x);
    assert m.Some? && m.value.status == APPROVED && req.dataClassification in m.value.classifications
      ==> JudgeFits(m.value, req, x);
  }

  /** The gate denies nothing exactly when the request is admissible. */
  lemma NothingDenied(f: Formats, req: Request, b: Bundle, x: Runtime)
    requires ValidBundle(b)
    ensures Denials(f, req, b, x) == [] <==> Admissible(f, req, b, x)
    ensures Admitted !in Denials(f, req, b, x)
  {
    hide ImageDenials, TaskDenials, RequestDenials, ListDenials, EgressDenials, ScannerDenials, JudgeDenials,
         BrokerDenials, TrialDenials, TimeoutDenials, ModelDenials;
    hide ImageIdentified, ListsAllow, EgressAllowed, ScannersAllowed, JudgeAllowed, MatchedJudge, WithinCap;
    JudgeDenialsMean(f, req, b, x);
    forall e | e in b.tasks && TaskFits(e, x) ensures FirstTask(b.tasks, x.taskId) == Some(e) {
      TheTask(b, e);
    }
    forall e | e in b.models && ModelFits(e, req, x) ensures FirstModel(b.models, true, x.agent, x.model) == Some(e) {
      TheModel(b, e);
    }
    var model := FirstModel(b.models, true, x.agent, x.model);
    assert model.Some? && model.value.status == APPROVED && req.dataClassification in model.value.classifications
      ==> ModelFits(model.value, req, x);
  }

  // ----- Effective limits -----

  ghost predicate TotalOrder<T(!new)>(atMost: (T, T) -> bool) {
    && (forall a, b :: atMost(a, b) || atMost(b, a))
    && (forall a, b, c | atMost(a, b) && atMost(b, c) :: atMost(a, c))
  }

  function Least<T(!new)>(limits: seq<T>, atMost: (T, T) -> bool): (r: T)
    requires limits != [] && TotalOrder(atMost)
    ensures r in limits && forall n | n in limits :: atMost(r, n)
  {
    if |limits| == 1 then limits[0]
    else
      var rest := Least(limits[1..], atMost);
      assert limits == [limits[0]] + limits[1..];
      if atMost(limits[0], rest) then limits[0] else rest
  }

  /** The caps that a request and a matched model add to those of the policy. */
  ghost predicate TokenCap(req: Request, r: Rules, model: Option<ModelEntry>, cap: int) {
    || cap == r.maxTokens || Some(cap) == req.maxTokens
    || (model.Some? && model.value.Coding? && cap == model.value.maxTokens)
  }

  ghost predicate CostCap(req: Request, r: Rules, model: Option<ModelEntry>, cap: real) {
    || cap == r.maxCost || Some(cap) == req.maxCost
    || (model.Some? && model.value.Coding? && cap == model.value.maxCost)
  }

  /** Hard limits are those of the policy; usage thresholds are the least of every cap that applies. */
  ghost predicate IsEffective(req: Request, r: Rules, model: Option<ModelEntry>, limits: Limits) {
    && limits.maxTrials == r.maxTrials && limits.maxAgentSeconds == r.maxAgentSeconds
    && limits.maxEvalSeconds == r.maxEvalSeconds
    && TokenCap(req, r, model, limits.maxTokens)
    && (forall cap | TokenCap(req, r, model, cap) :: limits.maxTokens <= cap)
    && CostCap(req, r, model, limits.maxCost) && (forall cap | CostCap(req, r, model, cap) :: limits.maxCost <= cap)
  }

  method EffectiveLimits(req: Request, r: Rules, model: Option<ModelEntry>) returns (limits: Limits)
    requires model.Some? ==> model.value.Coding?
    ensures IsEffective(req, r, model, limits)
  {
    var tokens, costs := [r.maxTokens], [r.maxCost];
    if req.maxTokens.Some? {
      tokens := tokens + [req.maxTokens.value];
    }
    if req.maxCost.Some? {
      costs := costs + [req.maxCost.value];
    }
    if model.Some? {
      tokens := tokens + [model.value.maxTokens];
      costs := costs + [model.value.maxCost];
    }
    assert forall cap :: cap in tokens <==> TokenCap(req, r, model, cap);
    assert forall cap :: cap in costs <==> CostCap(req, r, model, cap);
    limits := Limits(r.maxTrials, r.maxAgentSeconds, r.maxEvalSeconds,
                     Least(tokens, (a: int, b: int) => a <= b), Least(costs, (a: Cost, b: Cost) => a <= b));
  }

  // ----- The gate -----

  /** The distinct suffixes of the egress domains, up to the first one that is not a domain, sorted. */
  method NormalizeDomains(f: Formats, domains: seq<Option<string>>) returns (valid: bool, normalized: seq<string>)
    ensures valid <==> DomainsValid(f, domains)
    ensures valid ==> forall s :: s in normalized <==>
      exists i | 0 <= i < |domains| :: f.domainSuffix(domains[i].value).value == s
    ensures Ordering.Sorted(Ordering.NameKeys(normalized))
  {
    valid, normalized := true, [];
    for i := 0 to |domains|
      invariant valid && forall j | 0 <= j < i :: domains[j].Some? && f.domainSuffix(domains[j].value).Some?
      invariant forall s :: s in normalized <==> exists j | 0 <= j < i :: f.domainSuffix(domains[j].value).value == s
    {
      if domains[i].None? || f.domainSuffix(domains[i].value).None? {
        valid := false;
        break;
      }
      var suffix := f.domainSuffix(domains[i].value).value;
      if suffix !in normalized {
        normalized := normalized + [suffix];
      }
    }
    normalized := Ordering.SortSet(set s | s in normalized);
  }

  lemma SameSuffixes(f: Formats, domains: seq<Option<string>>, normalized: seq<string>, allowed: seq<string>)
    requires DomainsValid(f, domains)
    requires forall s :: s in normalized <==>
      exists i | 0 <= i < |domains| :: f.domainSuffix(domains[i].value).value == s
    ensures SuffixesAllowed(f, domains, allowed) <==> forall i | 0 <= i < |normalized| :: normalized[i] in allowed
  {
    forall i | 0 <= i < |domains| ensures f.domainSuffix(domains[i].value).value in normalized {
    }
    forall i | 0 <= i < |normalized|
      ensures exists j | 0 <= j < |domains| :: f.domainSuffix(domains[j].value).value == normalized[i]
    {
      assert normalized[i] in normalized;
    }
  }

  method CheckEgress(f: Formats, r: Rules, x: Runtime) returns (reasons: seq<Code>)
    ensures reasons == EgressDenials(f, r, x)
  {
    reasons := [];
    var valid, normalized := NormalizeDomains(f, x.egressDomains);
    if valid {
      SameSuffixes(f, x.egressDomains, normalized, r.allowedEgressDomains);
    }
    if !valid {
      reasons := reasons + [InvalidEgressDomains];
    } else if x.network == "proxy" && exists i | 0 <= i < |normalized| :: normalized[i] !in r.allowedEgressDomains {
      reasons := reasons + [EgressDomainNotAllowed];
    }
    if x.network == "proxy" {
      if x.proxyImage.None? {
        reasons := reasons + [ProxyImageRequired];
      } else if x.proxyImage.value !in r.allowedProxyImages {
        reasons := reasons + [ProxyImageNotAllowed];
      }
    }
  }

  /** Accumulate the denials in order, looking up the entries they depend on. */
  method AccumulateDenials(f: Formats, req: Request, b: Bundle, x: Runtime)
    returns (reasons: seq<Code>, task: Option<TaskEntry>, model: Option<ModelEntry>, judge: Option<ModelEntry>)
    ensures reasons == Denials(f, req, b, x)
    ensures task == FirstTask(b.tasks, x.taskId) && model == FirstModel(b.models, true, x.agent, x.model)
    ensures judge == MatchedJudge(f, b, x)
  {
    hide ImageDenials, TaskDenials, RequestDenials, ListDenials, ScannerDenials, EgressDenials, JudgeDenials,
         BrokerDenials, TrialDenials, TimeoutDenials, ModelDenials, FirstTask, FirstModel;
    reasons := ImageDenials(f, x);
    task := FindTask(b.tasks, x.taskId);
    reasons := reasons + TaskDenials(f, task, x);
    reasons := reasons + RequestDenials(req, x);
    reasons := reasons + ListDenials(f, req, b.rules, x);
    var egress := CheckEgress(f, b.rules, x);
    reasons := reasons + egress;
    reasons := reasons + ScannerDenials(f, b.rules, x);
    judge := None;
    if x.judge == On && JudgeIdentified(f, x) && x.judgeBackend != Some("codex") {
      judge := FindModel(b.models, false, "judge:" + x.judgeBackend.value, x.judgeModel.value);
    }
    reasons := reasons + JudgeDenials(f, req, b.rules, x, judge);
    reasons := reasons + BrokerDenials(b.rules, x);
    reasons := reasons + TrialDenials(b.rules, x);
    reasons := reasons + TimeoutDenials(b.rules, x);
    model := FindModel(b.models, true, x.agent, x.model);
    reasons := reasons + ModelDenials(req, model);
  }

  /** Decide admission: allowed exactly when admissible, with every denial listed otherwise. */
  method EvaluateAdmission(f: Formats, req: Request, b: Bundle, x: Runtime) returns (r: Result)
    requires ValidBundle(b)
    ensures r.ValueError? <==> !LinkFits(f, x)
    ensures r.ValueError? ==> r.error == if x.stage == Preflight then PreflightLinked else LinkMissing
    ensures r.Decided? ==>
      var d := r.decision;
      && (d.allowed <==> Admissible(f, req, b, x))
      && (d.allowed ==> d.reasons == [Admitted])
      && (!d.allowed ==> Lists(d.reasons, DenialsOf(f, req, b, x), Place, 0, 50))
      && d.matchedTask == FirstTask(b.tasks, x.taskId) && d.matchedJudge == MatchedJudge(f, b, x)
      && d.matchedModel == FirstModel(b.models, true, x.agent, x.model)
      && IsEffective(req, b.rules, d.matchedModel, d.limits)
  {
    hide Admissible, IsEffective, Denials, Lists, MatchedJudge, FirstTask, FirstModel;
    if x.stage == Preflight {
      if x.linkId.Some? || x.linkDigest.Some? {
        return ValueError(PreflightLinked);
      }
    } else if x.linkId.None? || !Fits(f.sha256, x.linkDigest) {
      return ValueError(LinkMissing);
    }
    var reasons, task, model, judge := AccumulateDenials(f, req, b, x);
    NothingDenied(f, req, b, x);
    DenialsListed(f, req, b, x);
    var limits := EffectiveLimits(req, b.rules, model);
    if reasons == [] {
      reasons := reasons + [Admitted];
    }
    var allowed := |reasons| == 1 && reasons[0] == Admitted;
    return Decided(Decision(allowed, reasons, limits, task, model, judge));
  }

  // ----- Tightening a bundle -----

  ghost predicate Within<T>(tight: seq<T>, loose: seq<T>) {
    forall v | v in tight :: v in loose
  }

  /** Rules with smaller allowlists, stronger required flags and lower caps. */
  ghost predicate TighterRules(tight: Rules, loose: Rules) {
    && Within(tight.allowedTenants, loose.allowedTenants) && Within(tight.allowedProjects, loose.allowedProjects)
    && Within(tight.allowedTasks, loose.allowedTasks) && Within(tight.allowedNetworkModes, loose.allowedNetworkModes)
    && Within(tight.allowedEgressDomains, loose.allowedEgressDomains)
    && Within(tight.allowedProxyImages, loose.allowedProxyImages)
    && Within(tight.allowedScannerIdentities, loose.allowedScannerIdentities)
    && Within(tight.allowedDataClassifications, loose.allowedDataClassifications)
    && Within(tight.allowedRetentionClasses, loose.allowedRetentionClasses)
    && (loose.requireScans ==> tight.requireScans) && (loose.requireJudge ==> tight.requireJudge)
    && (loose.requireBrokerCredentials ==> tight.requireBrokerCredentials)
    && tight.maxTrials <= loose.maxTrials && tight.maxAgentSeconds <= loose.maxAgentSeconds
    && tight.maxEvalSeconds <= loose.maxEvalSeconds && tight.maxTokens <= loose.maxTokens
    && tight.maxCost <= loose.maxCost
  }

  ghost predicate TighterTask(tight: TaskEntry, loose: TaskEntry) {
    && tight.taskId == loose.taskId && tight.treeDigest == loose.treeDigest && loose.status == APPROVED
    && Within(tight.specDigests, loose.specDigests) && Within(tight.images, loose.images)
  }

  ghost predicate TighterModel(tight: ModelEntry, loose: ModelEntry) {
    && tight.Coding? == loose.Coding? && tight.adapter == loose.adapter && tight.model == loose.model
    && loose.status == APPROVED
    && Within(tight.classifications, loose.classifications)
    && (tight.Coding? ==> tight.maxTokens <= loose.maxTokens && tight.maxCost <= loose.maxCost)
  }

  /** Every approval that remains was there before, and was at least as wide. */
  ghost predicate Tighter(tight: Bundle, loose: Bundle) {
    && TighterRules(tight.rules, loose.rules)
    && (forall e | e in tight.tasks && e.status == APPROVED :: exists e' | e' in loose.tasks :: TighterTask(e, e'))
    && (forall e | e in tight.models && e.status == APPROVED :: exists e' | e' in loose.models :: TighterModel(e, e'))
  }

  lemma TighterListsAllow(f: Formats, req: Request, tight: Rules, loose: Rules, x: Runtime)
    requires TighterRules(tight, loose) && ListsAllow(f, req, tight, x)
    ensures ListsAllow(f, req, loose, x)
  {
    CoversMore(f, req.tenantId, tight.allowedTenants, loose.allowedTenants);
    CoversMore(f, req.projectId, tight.allowedProjects, loose.allowedProjects);
    CoversMore(f, x.taskId, tight.allowedTasks, loose.allowedTasks);
  }

  lemma CoversMore(f: Formats, value: string, tight: seq<string>, loose: seq<string>)
    requires Within(tight, loose) && Covered(f, value, tight)
    ensures Covered(f, value, loose)
  {
  }

  /** The model that admits a request under the tight bundle has a counterpart that admits it under the loose one. */
  lemma TighterModelFits(req: Request, tight: Bundle, loose: Bundle, x: Runtime)
    requires Tighter(tight, loose) && exists e | e in tight.models :: ModelFits(e, req, x)
    ensures exists e | e in loose.models :: ModelFits(e, req, x)
  {
    var e :| e in tight.models && ModelFits(e, req, x);
    var e' :| e' in loose.models && TighterModel(e, e');
    assert ModelFits(e', req, x);
  }

  lemma TighterJudgeAllowed(f: Formats, req: Request, tight: Bundle, loose: Bundle, x: Runtime)
    requires Tighter(tight, loose) && JudgeAllowed(f, req, tight, x)
    ensures JudgeAllowed(f, req, loose, x)
  {
    if x.judge == On {
      var e :| e in tight.models && JudgeFits(e, req, x);
      var e' :| e' in loose.models && TighterModel(e, e');
      assert JudgeFits(e', req, x);
    }
  }

  /** Main result: tightening a bundle never turns a denial into an admission. */
  lemma TighterAdmitsLess(f: Formats, req: Request, tight: Bundle, loose: Bundle, x: Runtime)
    requires Tighter(tight, loose) && Admissible(f, req, tight, x)
    ensures Admissible(f, req, loose, x)
  {
    hide ImageIdentified, Requested, ListsAllow, JudgeAllowed, Covered, IsA;
    TighterListsAllow(f, req, tight.rules, loose.rules, x);
    TighterJudgeAllowed(f, req, tight, loose, x);
    TighterModelFits(req, tight, loose, x);
    var e :| e in tight.tasks && TaskFits(e, x);
    var e' :| e' in loose.tasks && TighterTask(e, e');
    assert TaskFits(e', x);
  }

  ghost predicate LimitsWithin(tight: Limits, loose: Limits) {
    && tight.maxTrials <= loose.maxTrials && tight.maxAgentSeconds <= loose.maxAgentSeconds
    && tight.maxEvalSeconds <= loose.maxEvalSeconds && tight.maxTokens <= loose.maxTokens
    && tight.maxCost <= loose.maxCost
  }

  /** Main result: what the tight bundle still admits, it admits under limits that are no higher. */
  lemma TighterNeverRaisesLimits(f: Formats, req: Request, tight: Bundle, loose: Bundle, x: Runtime, lt: Limits,
                                 ll: Limits)
    requires ValidBundle(tight) && ValidBundle(loose) && Tighter(tight, loose) && Admissible(f, req, tight, x)
    requires IsEffective(req, tight.rules, FirstModel(tight.models, true, x.agent, x.model), lt)
    requires IsEffective(req, loose.rules, FirstModel(loose.models, true, x.agent, x.model), ll)
    ensures LimitsWithin(lt, ll)
  {
    hide ImageIdentified, Requested, ListsAllow, JudgeAllowed, EgressAllowed, ScannersAllowed, CapsAllow, IsA;
    hide TaskFits;
    var e :| e in tight.models && ModelFits(e, req, x);
    var e' :| e' in loose.models && TighterModel(e, e');
    TheModel(tight, e);
    TheModel(loose, e');
    LowerCaps(req, tight.rules, loose.rules, e, e', lt, ll);
  }

  lemma LowerCaps(req: Request, tight: Rules, loose: Rules, e: ModelEntry, e': ModelEntry, lt: Limits, ll: Limits)
    requires TighterRules(tight, loose) && e.Coding? && TighterModel(e, e')
    requires IsEffective(req, tight, Some(e), lt) && IsEffective(req, loose, Some(e'), ll)
    ensures LimitsWithin(lt, ll)
  {
    assert TokenCap(req, tight, Some(e), tight.maxTokens) && TokenCap(req, tight, Some(e), e.maxTokens);
    assert req.maxTokens.Some? ==> TokenCap(req, tight, Some(e), req.maxTokens.value);
    assert CostCap(req, tight, Some(e), tight.maxCost) && CostCap(req, tight, Some(e), e.maxCost);
    assert req.maxCost.Some? ==> CostCap(req, tight, Some(e), req.maxCost.value);
  }
}
