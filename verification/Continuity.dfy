/** The link from a preflight decision to the execution decision that adds only an image identity. */
module Continuity {
  import opened Wrappers
  import opened Admission
  import ItemLists

  /** The digests that bind a decision to its request and to the three parts of its bundle. */
  datatype Digests = Digests(
    request: Request -> Digest, policy: Rules -> Digest, tasks: seq<TaskEntry> -> Digest,
    models: seq<ModelEntry> -> Digest,
    decision: PolicyDecision -> Digest)

  /** The recorded inputs of a decision: who asked for what, without the stage and its link. */
  datatype Inputs = Inputs(
    tenantId: string, projectId: string, requestedTaskId: string, requestedAgent: string, requestedModel: string,
    dataClassification: string, retentionClass: string, egressDomains: set<string>, proxyImage: Option<string>,
    runtime: Runtime)

  datatype PolicyDecision = PolicyDecision(
    stage: Stage, decisionId: string, linkId: Option<string>, linkDigest: Option<Digest>, inputs: Inputs,
    requestDigest: Digest, policyDigest: Digest, tasksDigest: Digest, modelsDigest: Digest, outcome: Decision)

  ghost predicate Collisionless(h: Digests) {
    && Injective(h.request) && Injective(h.policy) && Injective(h.tasks) && Injective(h.models) && Injective(h.decision)
  }

  /** The suffixes of the domains before the first invalid one. */
  ghost function Suffixes(f: Formats, domains: seq<Option<string>>): set<string> {
    if domains == [] || domains[0].None? || f.domainSuffix(domains[0].value).None? then {}
    else {f.domainSuffix(domains[0].value).value} + Suffixes(f, domains[1..])
  }

  function WithoutImage(x: Runtime): Runtime {
    x.(imageDigest := None, imageRef := None, platform := None)
  }

  ghost function Sanitized(f: Formats, req: Request, x: Runtime): Inputs {
    Inputs(req.tenantId, req.projectId, req.taskId, req.agent, req.model, req.dataClassification, req.retentionClass,
           Suffixes(f, x.egressDomains), if x.network == "proxy" then x.proxyImage else None,
           x.(stage := Preflight, linkId := None, linkDigest := None, egressDomains := [], proxyImage := None))
  }

  /** A decision that the gate issued for a request under a bundle. */
  ghost predicate Issued(f: Formats, h: Digests, d: PolicyDecision, req: Request, b: Bundle, x: Runtime) {
    && ValidBundle(b) && LinkFits(f, x)
    && d.stage == x.stage && d.linkId == x.linkId && d.linkDigest == x.linkDigest
    && d.inputs == Sanitized(f, req, x) && d.requestDigest == h.request(req)
    && d.policyDigest == h.policy(b.rules) && d.tasksDigest == h.tasks(b.tasks) && d.modelsDigest == h.models(b.models)
    && (d.outcome.allowed <==> Admissible(f, req, b, x))
    && (d.outcome.allowed ==> d.outcome.reasons == [Admitted])
    && (!d.outcome.allowed ==> ItemLists.Lists(d.outcome.reasons, DenialsOf(f, req, b, x), Place, 0, 50))
    && d.outcome.matchedTask == FirstTask(b.tasks, x.taskId) && d.outcome.matchedJudge == MatchedJudge(f, b, x)
    && d.outcome.matchedModel == FirstModel(b.models, true, x.agent, x.model)
    && IsEffective(req, b.rules, d.outcome.matchedModel, d.outcome.limits)
  }

  /** Why an execution decision does not continue a preflight decision. */
  datatype Break = NotItsPreflight | InputsChanged | PreflightHasImage | SnapshotChanged

  datatype Continues = Continuous | Broken(because: Break)

  /** An execution decision names an allowed preflight decision, by its id and its digest. */
  ghost predicate Names(h: Digests, execution: PolicyDecision, preflight: PolicyDecision) {
    && execution.stage == Execution && preflight.stage == Preflight && preflight.outcome.allowed
    && execution.linkId == Some(preflight.decisionId) && execution.linkDigest == Some(h.decision(preflight))
  }

  /** Inputs that differ at most in the three parts of an image identity. */
  ghost predicate SameButImage(a: Inputs, b: Inputs) {
    a == b.(runtime := b.runtime.(
      imageDigest := a.runtime.imageDigest, imageRef := a.runtime.imageRef, platform := a.runtime.platform))
  }

  ghost predicate HasImage(x: Runtime) {
    x.imageDigest != None || x.imageRef != None || x.platform != None
  }

  /** The same authorization: digests, reasons, limits and matched entries, whatever else the decisions say. */
  ghost predicate SameSnapshot(a: PolicyDecision, b: PolicyDecision) {
    && a == b.(stage := a.stage, decisionId := a.decisionId, linkId := a.linkId, linkDigest := a.linkDigest,
               inputs := a.inputs, outcome := a.outcome)
    && a.outcome == b.outcome.(allowed := a.outcome.allowed)
  }

  lemma SameButImageMeans(a: Inputs, b: Inputs)
    ensures SameButImage(a, b)
      <==> a.(runtime := WithoutImage(a.runtime)) == b.(runtime := WithoutImage(b.runtime))
  {
    var x, y := a.runtime, b.runtime;
    RuntimesAgree(x, y);
    assert a.(runtime := WithoutImage(x)) == b.(runtime := WithoutImage(y)) <==>
      a == b.(runtime := x) && WithoutImage(x) == WithoutImage(y);
  }

  lemma RuntimesAgree(x: Runtime, y: Runtime)
    ensures WithoutImage(x) == WithoutImage(y)
      <==> x == y.(imageDigest := x.imageDigest, imageRef := x.imageRef, platform := x.platform)
  {
    if WithoutImage(x) == WithoutImage(y) {
      var a, b := WithoutImage(x), WithoutImage(y);
      assert x == a.(imageDigest := x.imageDigest, imageRef := x.imageRef, platform := x.platform);
      assert y.(imageDigest := x.imageDigest, imageRef := x.imageRef, platform := x.platform)
        == b.(imageDigest := x.imageDigest, imageRef := x.imageRef, platform := x.platform);
    }
  }

  lemma SnapshotMeans(a: PolicyDecision, b: PolicyDecision)
    ensures SameSnapshot(a, b) <==>
      && a.requestDigest == b.requestDigest && a.policyDigest == b.policyDigest
      && a.tasksDigest == b.tasksDigest && a.modelsDigest == b.modelsDigest
      && a.outcome.reasons == b.outcome.reasons && a.outcome.limits == b.outcome.limits
      && a.outcome.matchedTask == b.outcome.matchedTask && a.outcome.matchedModel == b.outcome.matchedModel
      && a.outcome.matchedJudge == b.outcome.matchedJudge
  {
  }

  lemma ImageMeans(x: Runtime)
    ensures HasImage(x) <==> x != WithoutImage(x)
  {
  }

  /** Require the execution decision to add only its image identity; the first thing that is wrong is reported. */
  function ValidateExecutionContinuity(h: Digests, preflight: PolicyDecision, execution: PolicyDecision)
    : (r: Continues)
    ensures r == Broken(NotItsPreflight) <==> !Names(h, execution, preflight)
    ensures r == Broken(InputsChanged) <==>
      Names(h, execution, preflight) && !SameButImage(execution.inputs, preflight.inputs)
    ensures r == Broken(PreflightHasImage) <==>
      && Names(h, execution, preflight) && SameButImage(execution.inputs, preflight.inputs)
      && HasImage(preflight.inputs.runtime)
    ensures r == Broken(SnapshotChanged) <==>
      && Names(h, execution, preflight) && SameButImage(execution.inputs, preflight.inputs)
      && !HasImage(preflight.inputs.runtime) && !SameSnapshot(execution, preflight)
    ensures r == Continuous <==>
      && Names(h, execution, preflight) && SameButImage(execution.inputs, preflight.inputs)
      && !HasImage(preflight.inputs.runtime) && SameSnapshot(execution, preflight)
  {
    hide SameButImage, SameSnapshot, WithoutImage, HasImage;
    SameButImageMeans(execution.inputs, preflight.inputs);
    SnapshotMeans(execution, preflight);
    ImageMeans(preflight.inputs.runtime);
    if preflight.stage != Preflight || !preflight.outcome.allowed || execution.stage != Execution
       || execution.linkId != Some(preflight.decisionId) || execution.linkDigest != Some(h.decision(preflight)) then
      Broken(NotItsPreflight)
    else if execution.inputs.(runtime := WithoutImage(execution.inputs.runtime))
            != preflight.inputs.(runtime := WithoutImage(preflight.inputs.runtime)) then
      Broken(InputsChanged)
    else if preflight.inputs.runtime != WithoutImage(preflight.inputs.runtime) then
      Broken(PreflightHasImage)
    else if execution.requestDigest != preflight.requestDigest || execution.policyDigest != preflight.policyDigest
            || execution.tasksDigest != preflight.tasksDigest || execution.modelsDigest != preflight.modelsDigest
            || execution.outcome.reasons != preflight.outcome.reasons
            || execution.outcome.limits != preflight.outcome.limits
            || execution.outcome.matchedTask != preflight.outcome.matchedTask
            || execution.outcome.matchedModel != preflight.outcome.matchedModel
            || execution.outcome.matchedJudge != preflight.outcome.matchedJudge then
      Broken(SnapshotChanged)
    else Continuous
  }

  /** The two runs differ at most in their stage, link and image, and in how the same domains were spelled. */
  ghost predicate SameRun(f: Formats, x: Runtime, y: Runtime) {
    && WithoutImage(x.(stage := y.stage, linkId := y.linkId, linkDigest := y.linkDigest,
                       egressDomains := y.egressDomains, proxyImage := y.proxyImage)) == WithoutImage(y)
    && Suffixes(f, x.egressDomains) == Suffixes(f, y.egressDomains)
    && (x.network == "proxy" ==> x.proxyImage == y.proxyImage)
  }

  /**
   * Main result: whatever continues a preflight was admitted for the same request under the same bundle,
   * for the same run with an image added, and within the same limits.
   */
  lemma ContinuityKeepsAuthorization(
      f: Formats, h: Digests, preflight: PolicyDecision, execution: PolicyDecision,
      req: Request, b: Bundle, x: Runtime, req': Request, b': Bundle, x': Runtime)
    requires Collisionless(h)
    requires Issued(f, h, preflight, req, b, x) && Issued(f, h, execution, req', b', x')
    requires ValidateExecutionContinuity(h, preflight, execution).Continuous?
    ensures req' == req && b' == b && SameRun(f, x, x')
    ensures Admissible(f, req, b, x) && Admissible(f, req, b, x')
    ensures x'.stage == Execution && x'.imageDigest.Some? && x'.imageRef.Some? && x'.platform.Some?
    ensures IsEffective(req, b.rules, preflight.outcome.matchedModel, execution.outcome.limits)
  {
    hide ImageIdentified, Requested, ListsAllow, JudgeAllowed, EgressAllowed, ScannersAllowed, CapsAllow, TaskFits,
         ModelFits, IsEffective, Suffixes, ValidBundle, FirstTask, FirstModel, MatchedJudge, Place;
    hide ValidateExecutionContinuity, SameButImage, WithoutImage, Sanitized, SameRun, IsA;
    SnapshotMeans(execution, preflight);
    SameButImageMeans(execution.inputs, preflight.inputs);
    assert req' == req && b' == b by {
      assert h.request(req') == h.request(req) && h.policy(b'.rules) == h.policy(b.rules);
      assert h.tasks(b'.tasks) == h.tasks(b.tasks) && h.models(b'.models) == h.models(b.models);
    }
    SanitizedSameRun(f, req, x, x');
    if !execution.outcome.allowed {
      NeverAdmitted(f, req', b', x', execution.outcome.reasons);
    }
    ExecutionHasImage(f, x');
  }

  lemma SanitizedSameRun(f: Formats, req: Request, x: Runtime, y: Runtime)
    requires var s, t := Sanitized(f, req, x), Sanitized(f, req, y);
      s.(runtime := WithoutImage(s.runtime)) == t.(runtime := WithoutImage(t.runtime))
    ensures SameRun(f, x, y)
  {
    hide Suffixes;
  }

  lemma ExecutionHasImage(f: Formats, x: Runtime)
    ensures x.stage == Execution && ImageIdentified(f, x) ==>
      x.imageDigest.Some? && x.imageRef.Some? && x.platform.Some?
  {
  }

  /**
   * Main result: where a preflight was admitted, the decision to execute the same run of it, with its image, continues
   * it exactly when that is admitted too.
   */
  lemma AdmittedExecutionContinues(
      f: Formats, h: Digests, preflight: PolicyDecision, execution: PolicyDecision,
      req: Request, b: Bundle, x: Runtime, x': Runtime)
    requires Issued(f, h, preflight, req, b, x) && Issued(f, h, execution, req, b, x')
    requires x.stage == Preflight && preflight.outcome.allowed && SameRun(f, x, x')
    requires x'.stage == Execution && x'.linkId == Some(preflight.decisionId)
      && x'.linkDigest == Some(h.decision(preflight))
    ensures ValidateExecutionContinuity(h, preflight, execution).Continuous? <==> execution.outcome.allowed
  {
    hide Requested, ListsAllow, JudgeAllowed, EgressAllowed, ScannersAllowed, CapsAllow, TaskFits, ModelFits;
    hide IsEffective, Suffixes, ValidBundle, FirstTask, FirstModel, LinkFits, Place;
    assert SameButImage(execution.inputs, preflight.inputs) by { SameRunSameInputs(f, req, x, x'); }
    assert !HasImage(preflight.inputs.runtime);
    SameRunSameJudge(f, b, x, x');
    OneLimits(req, b.rules, preflight.outcome.matchedModel, preflight.outcome.limits, execution.outcome.limits);
    if !execution.outcome.allowed {
      NeverAdmitted(f, req, b, x', execution.outcome.reasons);
    }
  }

  lemma SameRunSameInputs(f: Formats, req: Request, x: Runtime, y: Runtime)
    requires SameRun(f, x, y)
    ensures SameButImage(Sanitized(f, req, y), Sanitized(f, req, x))
    ensures x.taskId == y.taskId && x.agent == y.agent && x.model == y.model
  {
    hide Suffixes;
  }

  lemma SameRunSameJudge(f: Formats, b: Bundle, x: Runtime, y: Runtime)
    requires SameRun(f, x, y)
    ensures MatchedJudge(f, b, x) == MatchedJudge(f, b, y)
    ensures FirstTask(b.tasks, x.taskId) == FirstTask(b.tasks, y.taskId)
    ensures FirstModel(b.models, true, x.agent, x.model) == FirstModel(b.models, true, y.agent, y.model)
  {
    hide Suffixes, FirstTask, FirstModel;
  }

  lemma OneLimits(req: Request, r: Rules, model: Option<ModelEntry>, a: Limits, b: Limits)
    requires IsEffective(req, r, model, a) && IsEffective(req, r, model, b)
    ensures a == b
  {
    hide TokenCap, CostCap;
  }

  /** A list of denials is not that of an admission. */
  lemma NeverAdmitted(f: Formats, req: Request, b: Bundle, x: Runtime, reasons: seq<Code>)
    requires ItemLists.Lists(reasons, DenialsOf(f, req, b, x), Place, 0, 50)
    ensures reasons != [Admitted]
  {
    assert !DenialsOf(f, req, b, x)(Admitted);
    assert reasons == [Admitted] ==> Admitted in reasons;
  }

  /** One preflight has one digest: a link fixes the preflight that it names. */
  lemma LinkFixesPreflight(h: Digests, p: PolicyDecision, q: PolicyDecision, execution: PolicyDecision)
    requires Collisionless(h)
    requires ValidateExecutionContinuity(h, p, execution).Continuous?
      && ValidateExecutionContinuity(h, q, execution).Continuous?
    ensures p == q
  {
    assert h.decision(p) == h.decision(q);
  }
}
