/** Research proposals and the model-call fence of packages/contracts/research_judgment.py. */
module ResearchJudgment {
  import opened Outcomes
  import opened ResearchPlan
  import PlanApproval

  const JUDGMENT_STAGES := {StrategyDraft, BacktestAnalysis, IterationComparison, FinalSelection}
  const MAX_MODEL_CALLS_PER_STAGE := 2

  datatype ProposalKind = CommitDraft | CommitAnalysis | SelectIteration | ProposeRevision | Escalate

  datatype Direction = TightenRisk | ReduceTurnover | ImproveRobustness | ExtendEvidence | NoDirection

  /** A proposal's closed fields; its free texts play no part in the decision. */
  datatype Proposal = Proposal(
    taskId: string, planVersion: int, taskVersion: int, stage: Stage, iteration: int, kind: ProposalKind,
    evidenceSufficient: bool, escalate: bool, selected: Option<int>, direction: Option<Direction>)

  function ProposalKinds(s: Stage): set<ProposalKind> {
    match s
    case StrategyDraft => {CommitDraft, Escalate}
    case BacktestAnalysis => {CommitAnalysis, Escalate}
    case IterationComparison => {SelectIteration, ProposeRevision, Escalate}
    case FinalSelection => {SelectIteration, Escalate}
    case _ => {}
  }

  predicate ValidProposal(v: Proposal) {
    && v.stage in JUDGMENT_STAGES && IsIdentity(v.taskId)
    && v.planVersion >= 1 && v.taskVersion >= 1 && v.iteration >= 1
    && v.kind in ProposalKinds(v.stage)
    && (v.selected.Some? ==> 1 <= v.selected.value <= MAX_ROUNDS)
    && (v.kind == SelectIteration ==> v.selected.Some?)
    && (v.kind == ProposeRevision ==> v.direction.Some?)
    && (v.kind == Escalate ==> v.escalate)
  }

  datatype Commit =
    | Attention(reason: string)
    | Proceed(nextStage: Stage, status: Status, postcondition: Postcondition, iteration: Option<int>)

  function ProceedTo(s: Stage, status: Status, iteration: Option<int>): Commit {
    Proceed(s, status, Spec(s).postcondition, iteration)
  }

  /** Where a fitting proposal leads from a judgment stage. */
  function StageCommit(s: Stage, iteration: int, v: Proposal): Commit {
    match s
    case StrategyDraft => ProceedTo(WaitingForStrategyApproval, Waiting, None)
    case BacktestAnalysis => ProceedTo(IterationComparison, Active, None)
    case IterationComparison =>
      if v.kind == ProposeRevision then
        if iteration >= MAX_ROUNDS then Attention("revision_beyond_final_iteration")
        else ProceedTo(WaitingForTaskCreateApproval, Waiting, Some(iteration + 1))
      else if v.kind == SelectIteration then
        if v.selected.None? || !(1 <= v.selected.value <= iteration) then Attention("selected_iteration_out_of_range")
        else if iteration != MAX_ROUNDS then Attention("selection_requires_final_iteration")
        else ProceedTo(FinalSelection, Active, None)
      else Attention("proposal_kind_not_applicable")
    case FinalSelection =>
      if v.selected.None? || !(1 <= v.selected.value <= MAX_ROUNDS) then Attention("selected_iteration_out_of_range")
      else ProceedTo(WaitingForPaperAccountApproval, Waiting, None)
    case _ => Attention("proposal_stage_not_applicable")
  }

  function DeriveProposalCommit(p: Plan, v: Proposal): Result<Commit> {
    if !ValidPlan(p) then Err("research execution plan is invalid")
    else if !ValidProposal(v) then Err("research proposal is invalid")
    else if v.taskId != p.taskId then Ok(Attention("proposal_task_mismatch"))
    else if v.planVersion != p.planVersion then Ok(Attention("stale_plan_version"))
    else if v.taskVersion != p.taskVersion then Ok(Attention("stale_task_version"))
    else if v.stage != p.stage then Ok(Attention("proposal_stage_mismatch"))
    else if v.iteration != p.iteration then Ok(Attention("proposal_iteration_mismatch"))
    else if p.stage !in JUDGMENT_STAGES then Ok(Attention("proposal_for_deterministic_stage"))
    else if v.escalate || v.kind == Escalate then Ok(Attention("escalation_requested"))
    else if !v.evidenceSufficient then Ok(Attention("insufficient_evidence"))
    else Ok(StageCommit(p.stage, p.iteration, v))
  }

  /** The legality check made on a derived decision. */
  predicate CommitIsLegal(p: Plan, c: Commit) {
    c.Proceed? ==> CanTransition(p.stage, c.nextStage)
  }

  // ----- a decision can be executed -----

  /** The advance made of a commit: its fields, the approval its target stage requires, the plan's references. */
  function RequestOf(p: Plan, c: Commit, approval: Option<Approval>, key: string, progress: Option<string>): Request
    requires c.Proceed?
  {
    Request(p.planVersion, p.taskVersion, c.nextStage,
            if c.iteration.Some? then c.iteration.value else p.iteration,
            c.status, c.postcondition, key, None, None, approval, progress)
  }

  /** The approval a target stage requires, bound to the next version and to the plan's own reference. */
  function RequiredApproval(p: Plan, s: Stage): Option<Approval>
    requires Spec(s).approval.Some? ==> Spec(s).approval.value.kind in p.references
  {
    if Spec(s).approval.None? then None
    else
      var r := Spec(s).approval.value;
      Some(PlanApproval.BoundApproval(r.action, r.kind, p.references[r.kind], p.planVersion + 1, p.taskVersion, None))
  }

  /** Whenever a proposal proceeds, the commit is legal and its advance is accepted with the approval its
      target requires, given the reference that approval is bound to. */
  lemma ProposalCommitExecutable(p: Plan, v: Proposal, key: string, progress: Option<string>)
    requires var c := DeriveProposalCommit(p, v); c.Ok? && c.value.Proceed?
    requires var required := Spec(DeriveProposalCommit(p, v).value.nextStage).approval;
             required.Some? ==> required.value.kind in p.references
    requires key != "" && (progress.Some? ==> IsDigest(progress.value))
    ensures var c := DeriveProposalCommit(p, v).value;
            var q := Advance(p, RequestOf(p, c, RequiredApproval(p, c.nextStage), key, progress));
            && CommitIsLegal(p, c)
            && q.Ok? && ValidPlan(q.value) && q.value.planVersion == p.planVersion + 1
            && q.value.stage == c.nextStage && q.value.approval == RequiredApproval(p, c.nextStage)
            && (q.value.approval.Some? ==>
                  && q.value.approval.value.planVersion == q.value.planVersion
                  && q.value.approval.value.kind in q.value.references
                  && q.value.references[q.value.approval.value.kind] == q.value.approval.value.resourceId)
  {
    var c := DeriveProposalCommit(p, v).value;
    CommitFits(p, v);
    CommitAcceptable(p, c, key, progress);
    AdvanceExactly(p, RequestOf(p, c, RequiredApproval(p, c.nextStage), key, progress));
    AdvanceEffects(p, RequestOf(p, c, RequiredApproval(p, c.nextStage), key, progress));
  }

  lemma CommitAcceptable(p: Plan, c: Commit, key: string, progress: Option<string>)
    requires ValidPlan(p) && c.Proceed? && key != "" && (progress.Some? ==> IsDigest(progress.value))
    requires CanTransition(p.stage, c.nextStage) && c.nextStage != Completed
    requires c.status in Spec(c.nextStage).statuses && c.postcondition == Spec(c.nextStage).postcondition
    requires IterationAllowed(p, c.nextStage, if c.iteration.Some? then c.iteration.value else p.iteration)
    requires Spec(c.nextStage).approval.Some? ==> Spec(c.nextStage).approval.value.kind in p.references
    ensures Acceptable(p, RequestOf(p, c, RequiredApproval(p, c.nextStage), key, progress))
  {
  }

  /** Without that reference no approval makes the advance acceptable. */
  lemma ProposalNeedsReference(p: Plan, v: Proposal, a: Option<Approval>, key: string, progress: Option<string>)
    requires var c := DeriveProposalCommit(p, v); c.Ok? && c.value.Proceed?
    requires var required := Spec(DeriveProposalCommit(p, v).value.nextStage).approval;
             required.Some? && required.value.kind !in p.references
    ensures Advance(p, RequestOf(p, DeriveProposalCommit(p, v).value, a, key, progress)).Err?
  {
    CommitFits(p, v);
    AdvanceExactly(p, RequestOf(p, DeriveProposalCommit(p, v).value, a, key, progress));
  }

  lemma StageCommitFits(s: Stage, iteration: int, v: Proposal)
    requires 1 <= iteration <= MAX_ROUNDS && StageCommit(s, iteration, v).Proceed?
    ensures var c := StageCommit(s, iteration, v);
      && CanTransition(s, c.nextStage) && c.nextStage != Completed
      && c.status in Spec(c.nextStage).statuses && c.postcondition == Spec(c.nextStage).postcondition
    ensures var c := StageCommit(s, iteration, v);
      forall p: Plan :: p.stage == s && p.iteration == iteration ==>
        IterationAllowed(p, c.nextStage, if c.iteration.Some? then c.iteration.value else iteration)
  {
  }

  /** Each commit is a legal edge, in the target's own status, with an iteration the edge allows. */
  lemma CommitFits(p: Plan, v: Proposal)
    requires var c := DeriveProposalCommit(p, v); c.Ok? && c.value.Proceed?
    ensures var c := DeriveProposalCommit(p, v).value;
            && CanTransition(p.stage, c.nextStage) && c.nextStage != Completed
            && c.status in Spec(c.nextStage).statuses && c.postcondition == Spec(c.nextStage).postcondition
            && IterationAllowed(p, c.nextStage, if c.iteration.Some? then c.iteration.value else p.iteration)
  {
    CommitOfStage(p, v);
    StageCommitFits(p.stage, p.iteration, v);
  }

  /** A proposal that proceeds fits its plan, and goes where its stage sends it. */
  lemma CommitOfStage(p: Plan, v: Proposal)
    requires var c := DeriveProposalCommit(p, v); c.Ok? && c.value.Proceed?
    ensures ValidPlan(p) && ValidRound(p) && DeriveProposalCommit(p, v).value == StageCommit(p.stage, p.iteration, v)
  {
  }

  /** A proposal moves a plan only forward along its own stage, at its own version and round, and never
      past the last round: revisions stop at round three and selection waits for it. */
  lemma ProposalRouting(p: Plan, v: Proposal)
    requires var c := DeriveProposalCommit(p, v); c.Ok? && c.value.Proceed?
    ensures var c := DeriveProposalCommit(p, v).value;
            && v.stage == p.stage && v.planVersion == p.planVersion && v.taskVersion == p.taskVersion
            && v.evidenceSufficient && !v.escalate
            && (c.iteration.Some? <==> p.stage == IterationComparison && c.nextStage == WaitingForTaskCreateApproval)
            && (c.iteration.Some? ==> c.iteration.value == p.iteration + 1 <= MAX_ROUNDS)
            && (c.nextStage == FinalSelection ==> p.iteration == MAX_ROUNDS)
            && c.nextStage !in {Completed, NeedsAttention}
  {
    CommitOfStage(p, v);
    ProposalFitsPlan(p, v);
    StageRouting(p.stage, p.iteration, v);
  }

  lemma ProposalFitsPlan(p: Plan, v: Proposal)
    requires var c := DeriveProposalCommit(p, v); c.Ok? && c.value.Proceed?
    ensures v.stage == p.stage && v.planVersion == p.planVersion && v.taskVersion == p.taskVersion
    ensures v.evidenceSufficient && !v.escalate
  {
  }

  lemma StageRouting(s: Stage, iteration: int, v: Proposal)
    requires StageCommit(s, iteration, v).Proceed?
    ensures var c := StageCommit(s, iteration, v);
            && (c.iteration.Some? <==> s == IterationComparison && c.nextStage == WaitingForTaskCreateApproval)
            && (c.iteration.Some? ==> c.iteration.value == iteration + 1 <= MAX_ROUNDS)
            && (c.nextStage == FinalSelection ==> iteration == MAX_ROUNDS)
            && c.nextStage !in {Completed, NeedsAttention}
  {
  }

  // ----- the model-call fence -----

  datatype Fence = Stop(advance: bool, reason: string) | Continue

  /** The verdict after call number `callsUsed`, which did or did not leave durable progress. */
  function ModelCallOutcome(s: Stage, callsUsed: int, progressed: bool): Result<Fence> {
    if s !in JUDGMENT_STAGES then Err("a deterministic research stage must not start a model turn")
    else if callsUsed < 1 then Err("research stage model call count is invalid")
    else if callsUsed > MAX_MODEL_CALLS_PER_STAGE then Ok(Stop(false, "model_call_limit_exceeded"))
    else if callsUsed == 1 && !progressed then Ok(Stop(false, "no_durable_progress"))
    else if callsUsed >= MAX_MODEL_CALLS_PER_STAGE then Ok(Stop(true, "stage_within_model_call_bound"))
    else Ok(Continue)
  }

  /** The model calls of one stay at a stage, each recorded with its progress: a call is made only at a
      judgment stage, and a further one only after the verdict to continue. */
  ghost predicate FencedCalls(s: Stage, calls: seq<bool>) {
    && (calls != [] ==> s in JUDGMENT_STAGES)
    && forall i :: 0 <= i < |calls| - 1 ==> ModelCallOutcome(s, i + 1, calls[i]) == Ok(Continue)
  }

  /** The fence allows exactly: no call, one call, or a second one after progress. */
  lemma FenceBound(s: Stage, calls: seq<bool>)
    ensures FencedCalls(s, calls) <==>
            (calls != [] ==> s in JUDGMENT_STAGES) && |calls| <= 2 && (|calls| == 2 ==> calls[0])
  {
    if FencedCalls(s, calls) && |calls| > 1 {
      assert ModelCallOutcome(s, 0 + 1, calls[0]) == Ok(Continue);
      assert |calls| > 2 ==> ModelCallOutcome(s, 1 + 1, calls[1]) == Ok(Continue);
    }
  }
}
