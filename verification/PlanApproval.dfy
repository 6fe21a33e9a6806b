/** Command digests and approval decisions of packages/contracts/research_plan_approval.py. */
module PlanApproval {
  import opened Outcomes
  import opened ResearchPlan

  const PAPER_ACCOUNT_DEFAULT_CASH := "100000.0000"

  function PaperAccountExecution(p: Plan): PaperExecution {
    var tail := if |p.taskId| > 12 then p.taskId[|p.taskId| - 12..] else p.taskId;
    PaperExecution(p.taskId, "research-paper-" + tail, PAPER_ACCOUNT_DEFAULT_CASH)
  }

  function PlanCommandDigest(p: Plan, action: ApprovalAction, kind: Kind, resourceId: string): Result<CommandDigest> {
    if !ValidPlan(p) then Err("research execution plan is invalid")
    else if action == ApprovePaperAccount then
      Ok(PaperCommand(p.taskId, action, kind, resourceId, PaperAccountExecution(p), p.references))
    else Ok(PlanCommand(p.taskId, p.planVersion, p.taskVersion, action, kind, resourceId, p.references))
  }

  function BindCommandDigest(p: Plan): Result<Plan> {
    if !ValidPlan(p) then Err("research execution plan is invalid")
    else if p.approval.None? then Ok(p)
    else
      var a := p.approval.value;
      match PlanCommandDigest(p, a.action, a.kind, a.resourceId)
      case Err(e) => Err(e)
      case Ok(digest) => Validated(p.(approval := Some(a.(digest := Some(digest)))))
  }

  function BoundApproval(action: ApprovalAction, kind: Kind, resourceId: string, planVersion: int, taskVersion: int,
                         digest: Option<CommandDigest>): Approval
  {
    Approval(action, kind, resourceId, planVersion, taskVersion, digest)
  }

  /** What a gate waits for, and where its approval leads. */
  datatype Target = Target(
    pendingAction: ApprovalAction, pendingKind: Kind, nextStage: Stage, status: Status,
    nextAction: ApprovalAction, nextKind: Kind)

  function ApprovalTarget(s: Stage): Option<Target> {
    match s
    case WaitingForStrategyApproval =>
      Some(Target(ApproveStrategy, StrategyVersion, WaitingForTaskCreateApproval, Waiting,
                  ApproveTaskCreate, StrategyVersion))
    case WaitingForTaskCreateApproval =>
      Some(Target(ApproveTaskCreate, StrategyVersion, ReadyToCreateBacktestTask, Active,
                  ApproveTaskCreate, StrategyVersion))
    case WaitingForTaskExecuteApproval =>
      Some(Target(ApproveExecute, BacktestTask, ReadyToExecuteBacktestTask, Active, ApproveExecute, BacktestTask))
    case WaitingForPaperAccountApproval =>
      Some(Target(ApprovePaperAccount, ResearchTask, ReadyToCreatePaperAccount, Active,
                  ApprovePaperAccount, ResearchTask))
    case _ => None
  }

  datatype Human = Approved | Rejected | Unknown

  datatype Decision =
    | Attention(reason: string)
    | Applied(nextStage: Stage, status: Status, references: References, kept: Option<Approval>)
    | Proceed(nextStage: Stage, status: Status, postcondition: Postcondition, references: References,
              approval: Approval)

  function ApplyApprovalDecision(p: Plan, decision: Human, action: ApprovalAction, kind: Kind, resourceId: string,
                                 digest: CommandDigest): Result<Decision>
  {
    if !ValidPlan(p) then Err("research execution plan is invalid")
    else if decision == Unknown then Ok(Attention("approval_decision_unknown"))
    else
      match ApprovalTarget(p.stage)
      case None => Ok(Attention("approval_action_not_applicable"))
      case Some(t) =>
        if p.approval.None?
           || action != t.pendingAction || kind != t.pendingKind || resourceId != p.approval.value.resourceId
           || p.approval.value.action != t.pendingAction || p.approval.value.kind != t.pendingKind then
          Ok(Attention("approval_binding_mismatch"))
        else if p.approval.value.digest.Some? && p.approval.value.digest.value != digest then
          Ok(Attention("approval_params_digest_mismatch"))
        else if PlanCommandDigest(p, action, kind, resourceId) != Ok(digest) then
          Ok(Attention("approval_params_digest_mismatch"))
        else if t.nextKind !in p.references then Ok(Attention("approval_resource_reference_missing"))
        else if decision == Rejected then Ok(Applied(p.stage, p.status, p.references, p.approval))
        else
          Ok(Proceed(t.nextStage, t.status, Spec(t.nextStage).postcondition, p.references,
                     BoundApproval(t.nextAction, t.nextKind, p.references[t.nextKind], p.planVersion + 1,
                                   p.taskVersion, None)))
  }

  // ----- a decision can be executed -----

  /** The advance a caller makes of a decision: its fields, the current iteration, a new key. */
  function RequestOf(p: Plan, d: Decision, key: string, progress: Option<string>): Request
    requires d.Proceed?
  {
    Request(p.planVersion, p.taskVersion, d.nextStage, p.iteration, d.status, d.postcondition, key,
            Some(d.references), None, Some(d.approval), progress)
  }

  /** Whenever a human approval proceeds, the advance it names is accepted, and its approval is bound to
      the new version and to a referenced resource. */
  lemma ApprovalDecisionExecutable(p: Plan, human: Human, action: ApprovalAction, kind: Kind, resourceId: string,
                                   digest: CommandDigest, key: string, progress: Option<string>)
    requires var d := ApplyApprovalDecision(p, human, action, kind, resourceId, digest); d.Ok? && d.value.Proceed?
    requires key != "" && (progress.Some? ==> IsDigest(progress.value))
    ensures var d := ApplyApprovalDecision(p, human, action, kind, resourceId, digest).value;
            var q := Advance(p, RequestOf(p, d, key, progress));
            && human == Approved && p.stage in APPROVAL_WAIT_STAGES
            && q.Ok? && ValidPlan(q.value) && q.value.planVersion == p.planVersion + 1
            && q.value.stage == d.nextStage && q.value.references == p.references
            && q.value.approval == Some(d.approval) && d.approval.planVersion == q.value.planVersion
            && d.approval.kind in q.value.references
            && q.value.references[d.approval.kind] == d.approval.resourceId
  {
    var d := ApplyApprovalDecision(p, human, action, kind, resourceId, digest).value;
    TargetsFit(p.stage);
    ProceedFacts(p, human, action, kind, resourceId, digest);
    ProceedAcceptable(p, d, ApprovalTarget(p.stage).value, key, progress);
    AdvanceExactly(p, RequestOf(p, d, key, progress));
    AdvanceEffects(p, RequestOf(p, d, key, progress));
  }

  lemma ProceedAcceptable(p: Plan, d: Decision, t: Target, key: string, progress: Option<string>)
    requires ValidPlan(p) && key != "" && (progress.Some? ==> IsDigest(progress.value))
    requires CanTransition(p.stage, t.nextStage) && t.status in Spec(t.nextStage).statuses
    requires Spec(t.nextStage).approval == Some(Requirement(t.nextAction, t.nextKind))
    requires t.nextStage !in {Completed, IterationComparison, FinalSelection} && t.nextKind in p.references
    requires p.stage != IterationComparison
    requires d == Proceed(t.nextStage, t.status, Spec(t.nextStage).postcondition, p.references,
                          BoundApproval(t.nextAction, t.nextKind, p.references[t.nextKind], p.planVersion + 1,
                                        p.taskVersion, None))
    ensures Acceptable(p, RequestOf(p, d, key, progress))
  {
  }

  /** What a proceeding decision carries. */
  lemma ProceedFacts(p: Plan, human: Human, action: ApprovalAction, kind: Kind, resourceId: string,
                     digest: CommandDigest)
    requires var d := ApplyApprovalDecision(p, human, action, kind, resourceId, digest); d.Ok? && d.value.Proceed?
    ensures ValidPlan(p) && ApprovalTarget(p.stage).Some? && human == Approved
    ensures var d := ApplyApprovalDecision(p, human, action, kind, resourceId, digest).value;
            var t := ApprovalTarget(p.stage).value;
            && d.nextStage == t.nextStage && d.status == t.status && d.references == p.references
            && d.postcondition == Spec(t.nextStage).postcondition && t.nextKind in p.references
            && d.approval == BoundApproval(t.nextAction, t.nextKind, p.references[t.nextKind], p.planVersion + 1,
                                           p.taskVersion, None)
  {
  }

  /** Each gate's target is a legal edge to a stage that waits for the very approval the target names. */
  lemma TargetsFit(s: Stage)
    ensures ApprovalTarget(s).Some? <==> s in APPROVAL_WAIT_STAGES
    ensures ApprovalTarget(s).Some? ==>
              var t := ApprovalTarget(s).value;
              && CanTransition(s, t.nextStage) && t.status in Spec(t.nextStage).statuses
              && Spec(t.nextStage).approval == Some(Requirement(t.nextAction, t.nextKind))
              && t.nextStage !in {Completed, IterationComparison, FinalSelection}
    ensures ApprovalTarget(s).Some? ==>
              var t := ApprovalTarget(s).value;
              Spec(s).approval == Some(Requirement(t.pendingAction, t.pendingKind)) && t.nextKind == t.pendingKind
  {
  }

  /** A valid plan at a gate carries the approval its gate waits for, bound to a reference. */
  lemma GateApproval(p: Plan)
    requires ValidPlan(p) && p.stage in APPROVAL_WAIT_STAGES
    ensures ApprovalTarget(p.stage).Some? && p.approval.Some?
    ensures var t, a := ApprovalTarget(p.stage).value, p.approval.value;
            a.action == t.pendingAction && a.kind == t.pendingKind && t.nextKind in p.references
  {
    TargetsFit(p.stage);
  }

  /** At a gate, exactly the bound command proceeds: the pending action, kind and resource, approved by
      a human against the digest of this very plan. */
  lemma ProceedsExactly(p: Plan, human: Human, action: ApprovalAction, kind: Kind, resourceId: string,
                        digest: CommandDigest)
    requires ValidPlan(p) && p.stage in APPROVAL_WAIT_STAGES
    ensures p.approval.Some?
    ensures var a := p.approval.value;
            var d := ApplyApprovalDecision(p, human, action, kind, resourceId, digest).value;
            d.Proceed? <==>
              && human == Approved && action == a.action && kind == a.kind && resourceId == a.resourceId
              && PlanCommandDigest(p, action, kind, resourceId) == Ok(digest)
              && (a.digest.Some? ==> a.digest.value == digest)
  {
    GateApproval(p);
  }

  // ----- digests -----

  /** Binding the digest keeps the plan valid and is idempotent. */
  lemma BindIdempotent(p: Plan)
    requires ValidPlan(p)
    ensures BindCommandDigest(p).Ok?
    ensures BindCommandDigest(BindCommandDigest(p).value) == BindCommandDigest(p)
    ensures var q := BindCommandDigest(p).value;
            p.approval.Some? ==>
              q.approval.value.digest == Some(PlanCommandDigest(p, p.approval.value.action, p.approval.value.kind,
                                                                p.approval.value.resourceId).value)
  {
    if p.approval.Some? {
      var a := p.approval.value;
      var digest := PlanCommandDigest(p, a.action, a.kind, a.resourceId).value;
      RebindValid(p, digest);
      DigestIgnoresApproval(p, p.(approval := Some(a.(digest := Some(digest)))), a.action, a.kind, a.resourceId);
    }
  }

  /** Any computed digest may stand in the approval of a valid plan. */
  lemma RebindValid(p: Plan, digest: CommandDigest)
    requires ValidPlan(p) && p.approval.Some? && WellFormedDigest(digest)
    ensures ValidPlan(p.(approval := Some(p.approval.value.(digest := Some(digest)))))
  {
  }

  lemma DigestIgnoresApproval(p: Plan, q: Plan, action: ApprovalAction, kind: Kind, resourceId: string)
    requires ValidPlan(p) && ValidPlan(q) && q == p.(approval := q.approval)
    ensures PlanCommandDigest(p, action, kind, resourceId) == PlanCommandDigest(q, action, kind, resourceId)
  {
  }

  /** A bound plan proceeds on its own digest. */
  lemma BoundPlanProceeds(p: Plan)
    requires ValidPlan(p) && p.stage in APPROVAL_WAIT_STAGES
    ensures BindCommandDigest(p).Ok? && BindCommandDigest(p).value.approval.Some?
    ensures BindCommandDigest(p).value.approval.value.digest.Some?
    ensures var q := BindCommandDigest(p).value;
            var a := q.approval.value;
            var d := ApplyApprovalDecision(q, Approved, a.action, a.kind, a.resourceId, a.digest.value);
            d.Ok? && d.value.Proceed?
  {
    BindIdempotent(p);
    var q := BindCommandDigest(p).value;
    GateApproval(p);
    ProceedsExactly(q, Approved, q.approval.value.action, q.approval.value.kind, q.approval.value.resourceId,
                    q.approval.value.digest.value);
  }

  /** For the three actions that are not paper accounts, a digest computed at `p` makes `q` proceed only
      where `q` has the same task, versions and references, and only for the same command. */
  lemma DigestNamesItsPlan(p: Plan, q: Plan, action: ApprovalAction, kind: Kind, resourceId: string, human: Human,
                           action': ApprovalAction, kind': Kind, resourceId': string)
    requires ValidPlan(p) && ValidPlan(q) && action != ApprovePaperAccount
    requires var digest := PlanCommandDigest(p, action, kind, resourceId).value;
             ApplyApprovalDecision(q, human, action', kind', resourceId', digest).value.Proceed?
    ensures q.taskId == p.taskId && q.planVersion == p.planVersion && q.taskVersion == p.taskVersion
    ensures q.references == p.references
    ensures (action', kind', resourceId') == (action, kind, resourceId)
  {
    var digest := PlanCommandDigest(p, action, kind, resourceId).value;
    TargetsFit(q.stage);
    ProceedsExactly(q, human, action', kind', resourceId', digest);
  }

  /** So at a plan of another version it is refused. */
  lemma DigestRefusedElsewhere(p: Plan, q: Plan, action: ApprovalAction, kind: Kind, resourceId: string, human: Human,
                               action': ApprovalAction, kind': Kind, resourceId': string)
    requires ValidPlan(p) && ValidPlan(q) && action != ApprovePaperAccount
    requires q.planVersion != p.planVersion || q.taskVersion != p.taskVersion || q.references != p.references
    ensures PlanCommandDigest(p, action, kind, resourceId).Ok?
    ensures var d := ApplyApprovalDecision(q, human, action', kind', resourceId',
                                           PlanCommandDigest(p, action, kind, resourceId).value);
            d.Ok? && !d.value.Proceed?
  {
    var digest := PlanCommandDigest(p, action, kind, resourceId).value;
    DecisionOfValidPlan(q, human, action', kind', resourceId', digest);
    if ApplyApprovalDecision(q, human, action', kind', resourceId', digest).value.Proceed? {
      DigestNamesItsPlan(p, q, action, kind, resourceId, human, action', kind', resourceId');
    }
  }

  lemma DecisionOfValidPlan(p: Plan, human: Human, action: ApprovalAction, kind: Kind, resourceId: string,
                            digest: CommandDigest)
    requires ValidPlan(p)
    ensures ApplyApprovalDecision(p, human, action, kind, resourceId, digest).Ok?
  {
  }

  /** The paper-account digest sees the task and the references, and no version. */
  lemma PaperDigestIgnoresVersions(p: Plan, q: Plan, kind: Kind, resourceId: string)
    requires ValidPlan(p) && ValidPlan(q)
    ensures PlanCommandDigest(p, ApprovePaperAccount, kind, resourceId)
            == PlanCommandDigest(q, ApprovePaperAccount, kind, resourceId)
            <==> p.taskId == q.taskId && p.references == q.references
  {
  }

  /** A human approves the pending command of a plan at the paper-account gate, and no other digest is bound. */
  predicate AtPaperGate(q: Plan, human: Human, action: ApprovalAction, kind: Kind, resourceId: string,
                        digest: CommandDigest)
  {
    && q.stage == WaitingForPaperAccountApproval && human == Approved
    && action == ApprovePaperAccount && kind == ResearchTask
    && q.approval.Some? && resourceId == q.approval.value.resourceId
    && (q.approval.value.digest.Some? ==> q.approval.value.digest.value == digest)
  }

  /** Exactly where a paper-account digest computed at `p` makes `q` proceed: the versions play no part. */
  lemma PaperDigestProceeds(p: Plan, q: Plan, kind: Kind, resourceId: string, human: Human, action': ApprovalAction,
                            kind': Kind, resourceId': string)
    requires ValidPlan(p) && ValidPlan(q)
    ensures PlanCommandDigest(p, ApprovePaperAccount, kind, resourceId).Ok?
    ensures var digest := PlanCommandDigest(p, ApprovePaperAccount, kind, resourceId).value;
            var d := ApplyApprovalDecision(q, human, action', kind', resourceId', digest);
            d.Ok? && (d.value.Proceed? <==>
              && AtPaperGate(q, human, action', kind', resourceId', digest)
              && kind' == kind && resourceId' == resourceId
              && p.taskId == q.taskId && p.references == q.references)
  {
    var digest := PlanCommandDigest(p, ApprovePaperAccount, kind, resourceId).value;
    DecisionOfValidPlan(q, human, action', kind', resourceId', digest);
    TargetsFit(q.stage);
    PaperDigestMatches(p, q, kind, resourceId, action', kind', resourceId');
    if q.stage in APPROVAL_WAIT_STAGES {
      GateApproval(q);
      ProceedsExactly(q, human, action', kind', resourceId', digest);
      PaperGateOnly(q.stage);
    } else {
      NoGateNoProceed(q, human, action', kind', resourceId', digest);
    }
  }

  lemma PaperDigestMatches(p: Plan, q: Plan, kind: Kind, resourceId: string, action': ApprovalAction, kind': Kind,
                           resourceId': string)
    requires ValidPlan(p) && ValidPlan(q)
    ensures PlanCommandDigest(q, action', kind', resourceId')
            == PlanCommandDigest(p, ApprovePaperAccount, kind, resourceId)
            <==> && action' == ApprovePaperAccount && kind' == kind && resourceId' == resourceId
                 && p.taskId == q.taskId && p.references == q.references
  {
  }

  lemma PaperGateOnly(s: Stage)
    requires s in APPROVAL_WAIT_STAGES
    ensures ApprovalTarget(s).Some?
    ensures ApprovalTarget(s).value.pendingAction == ApprovePaperAccount <==> s == WaitingForPaperAccountApproval
    ensures s == WaitingForPaperAccountApproval ==> ApprovalTarget(s).value.pendingKind == ResearchTask
  {
  }

  lemma NoGateNoProceed(q: Plan, human: Human, action: ApprovalAction, kind: Kind, resourceId: string,
                        digest: CommandDigest)
    requires ValidPlan(q) && q.stage !in APPROVAL_WAIT_STAGES
    ensures ApplyApprovalDecision(q, human, action, kind, resourceId, digest).Ok?
    ensures !ApplyApprovalDecision(q, human, action, kind, resourceId, digest).value.Proceed?
  {
    TargetsFit(q.stage);
  }
}
