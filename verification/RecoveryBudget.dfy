/** The budget decision and the recovery envelope of packages/contracts/business_recovery.py. */
module RecoveryBudget {
  import opened Outcomes
  import opened Ordering
  import opened BusinessRecovery

  // ----- the budget decision -----

  /** What the caller reports about the grant: its limit, other charges, and authoritative denials. */
  datatype Grant = Grant(
    limit: int, otherSettled: int, otherUnresolved: int, revoked: bool, expired: bool, blockedReason: bool,
    evidenceConflict: bool)

  datatype Decision =
    | Blocked(reason: string)
    | Paused(reason: string)
    | Eligible(available: int)

  function BudgetDecision(g: Grant, rLimit: int, cum: Option<int>, floor: int, ordinal: int, ordinalMax: int)
    : Result<Decision>
  {
    if g.limit < 0 || g.otherSettled < 0 || g.otherUnresolved < 0 || rLimit < 0 || floor < 0 || ordinal < 0
       || ordinalMax < 0 || (cum.Some? && cum.value < 0) then Err("invalid_budget_input")
    else if g.revoked then Ok(Blocked("permission_revoked"))
    else if g.expired then Ok(Blocked("permission_expired"))
    else if g.blockedReason then Ok(Blocked("continuation_blocked_reason"))
    else if ordinal >= ordinalMax then Ok(Blocked("ordinal_cap"))
    else if g.evidenceConflict then Ok(Blocked("authoritative_evidence_conflict"))
    else if g.otherSettled + g.otherUnresolved + rLimit > g.limit then Ok(Blocked("grant_invariant_violated"))
    else if cum.None? then Ok(Paused("unknown_attempt_charge"))
    else if rLimit - cum.value < 0 then Ok(Blocked("settlement_exceeds_reservation"))
    else if rLimit - cum.value < floor then Ok(Blocked("below_model_call_floor"))
    else Ok(Eligible(rLimit - cum.value))
  }

  // ----- runs of recoveries of one reservation -----

  /** One admitted recovery: the grant at its admission and its charge, unknown until reconciled. */
  datatype Recovery = Recovery(grant: Grant, charge: Option<nat>)

  /** The exact cumulative charge, unknown as soon as one charge is. */
  function Cumulative(original: Option<int>, run: seq<Recovery>): Option<int>
    decreases |run|
  {
    if run == [] then original
    else
      var before := Cumulative(original, run[..|run| - 1]);
      var charge := run[|run| - 1].charge;
      if before.Some? && charge.Some? then Some(before.value + charge.value) else None
  }

  /** Each recovery of the run was admitted in its turn, and a known charge is within its headroom. */
  ghost predicate AdmittedRun(rLimit: int, floor: int, original: Option<int>, ordinalMax: int, run: seq<Recovery>)
    decreases |run|
  {
    run != [] ==>
      var n := |run| - 1;
      var d := BudgetDecision(run[n].grant, rLimit, Cumulative(original, run[..n]), floor, n, ordinalMax);
      && AdmittedRun(rLimit, floor, original, ordinalMax, run[..n])
      && d.Ok? && d.value.Eligible?
      && (run[n].charge.Some? ==> run[n].charge.value <= d.value.available)
  }

  function TotalCharge(run: seq<Recovery>): nat {
    if run == [] then 0
    else TotalCharge(run[1..]) + (if run[0].charge.Some? then run[0].charge.value else 0)
  }

  /** Budget conservation at recovery `i` of an admitted run: the recovery starts with the floor, and
      what it and its predecessors charged stays within the reservation and the grant. */
  ghost predicate Conserved(rLimit: int, floor: int, original: Option<int>, run: seq<Recovery>, i: nat)
    requires i < |run|
  {
    var before, after := Cumulative(original, run[..i]), Cumulative(original, run[..i + 1]);
    && before.Some? && 0 <= before.value && rLimit - before.value >= floor
    && (run[i].charge.Some? <==> after.Some?)
    && (after.Some? ==>
          && after.value <= rLimit
          && run[i].grant.otherSettled + run[i].grant.otherUnresolved + after.value <= run[i].grant.limit)
  }

  lemma {:induction false} BudgetConserved(rLimit: int, floor: int, original: Option<int>, ordinalMax: int,
                                           run: seq<Recovery>)
    requires AdmittedRun(rLimit, floor, original, ordinalMax, run)
    ensures |run| <= ordinalMax || run == []
    ensures forall i :: 0 <= i < |run| ==> Conserved(rLimit, floor, original, run, i)
    decreases |run|
  {
    if run != [] {
      var n := |run| - 1;
      var init := run[..n];
      BudgetConserved(rLimit, floor, original, ordinalMax, init);
      assert run[..n + 1] == run;
      forall i | 0 <= i < n ensures Conserved(rLimit, floor, original, run, i) {
        assert Conserved(rLimit, floor, original, init, i);
        assert init[..i] == run[..i] && init[..i + 1] == run[..i + 1];
      }
    }
  }

  /** The cumulative charge is the original charge and every recovery's charge, and an unknown charge
      is the last: nothing is admitted after it. */
  lemma {:induction false} ChargesAddUp(rLimit: int, floor: int, original: Option<int>, ordinalMax: int,
                                        run: seq<Recovery>)
    requires AdmittedRun(rLimit, floor, original, ordinalMax, run)
    ensures Cumulative(original, run).Some? ==>
              original.Some? && Cumulative(original, run).value == original.value + TotalCharge(run)
    ensures forall i :: 0 <= i < |run| - 1 ==> run[i].charge.Some?
    decreases |run|
  {
    if run != [] {
      var n := |run| - 1;
      ChargesAddUp(rLimit, floor, original, ordinalMax, run[..n]);
      BudgetConserved(rLimit, floor, original, ordinalMax, run);
      TotalChargeLast(run);
      forall i | 0 <= i < n ensures run[i].charge.Some? {
        if i == n - 1 {
          assert Conserved(rLimit, floor, original, run, n);
          assert run[..n][..n - 1] == run[..n - 1] && run[..n][n - 1] == run[i];
        } else {
          assert run[..n][i] == run[i];
        }
      }
    }
  }

  lemma {:induction false} TotalChargeLast(run: seq<Recovery>)
    requires run != []
    ensures TotalCharge(run) == TotalCharge(run[..|run| - 1]) + TotalCharge([run[|run| - 1]])
  {
    if |run| > 1 {
      TotalChargeLast(run[1..]);
      assert run[1..][..|run| - 2] == run[..|run| - 1][1..];
    } else {
      assert run == [run[0]];
    }
  }

  /** With the contract's cap there are at most three recoveries, and each starts with the model-call floor. */
  lemma AtMostThreeRecoveries(rLimit: int, original: Option<int>, run: seq<Recovery>)
    requires AdmittedRun(rLimit, MODEL_CALL_FLOOR, original, RECOVERY_ATTEMPT_MAX, run)
    ensures |run| <= 3
    ensures run != [] ==> original.Some? && original.value + MODEL_CALL_FLOOR <= rLimit
    ensures run != [] && Cumulative(original, run).Some? ==> original.value + TotalCharge(run) <= rLimit
  {
    BudgetConserved(rLimit, MODEL_CALL_FLOOR, original, RECOVERY_ATTEMPT_MAX, run);
    ChargesAddUp(rLimit, MODEL_CALL_FLOOR, original, RECOVERY_ATTEMPT_MAX, run);
    if run != [] {
      assert run[..|run| - 1 + 1] == run && run[..0] == [];
      assert Conserved(rLimit, MODEL_CALL_FLOOR, original, run, |run| - 1);
      assert Conserved(rLimit, MODEL_CALL_FLOOR, original, run, 0);
    }
  }

  // ----- the recovery envelope -----

  datatype Call = Call(action: string, taskId: string, key: string, request: string, input: string)

  datatype Safety = Safety(idempotent: bool, resultVerifiable: bool, mayProduceNewKey: bool)

  const STEP_SAFETY: map<string, Safety> := map[
    "byq_strategy_validate" := Safety(true, true, false),
    "byq_factor_compute" := Safety(true, true, false),
    "byq_ml_strategy_create" := Safety(true, true, true),
    "byq_strategy_version_create" := Safety(true, true, true)
  ]

  datatype Envelope = Envelope(mode: string, eligible: bool, reasons: seq<string>)

  /** Why a replayed call is refused; `None` in `call` is a value that is not an object. */
  function Refusal(call: Option<Call>, occurred: seq<Call>): Option<string> {
    if call.None? then Some("invalid_call")
    else
      var c := call.value;
      if c.action !in STEP_SAFETY then Some("unknown_action")
      else if STEP_SAFETY[c.action].mayProduceNewKey then Some("new_key_action:" + c.action)
      else if !STEP_SAFETY[c.action].idempotent then Some("not_idempotent:" + c.action)
      else if !STEP_SAFETY[c.action].resultVerifiable then Some("not_result_verifiable:" + c.action)
      else if c !in occurred then Some("not_original_call:" + c.action)
      else None
  }

  /** An exact reuse of a call the lost root made, by an action that mints no key. */
  predicate ExactReuse(call: Option<Call>, occurred: seq<Call>) {
    call.Some? && call.value in occurred && call.value.action in {"byq_strategy_validate", "byq_factor_compute"}
  }

  method AdmissionEnvelope(readOnly: bool, replayed: seq<Option<Call>>, occurred: seq<Call>) returns (e: Envelope)
    ensures e.eligible <==> (forall c <- replayed :: ExactReuse(c, occurred)) && (readOnly || replayed != [])
    ensures e.eligible ==> e.mode == (if readOnly then "read_only" else "exact_reuse") && e.reasons == []
    ensures !e.eligible ==> e.mode == "blocked" && e.reasons != [] && Ascending(e.reasons)
    ensures !e.eligible && replayed == [] ==> e.reasons == ["no_replayable_work"]
    ensures !e.eligible && replayed != [] ==>
              forall r :: r in e.reasons <==> exists c <- replayed :: Refusal(c, occurred) == Some(r)
  {
    var reasons: seq<string> := [];
    for i := 0 to |replayed|
      invariant forall r :: r in reasons <==> exists c <- replayed[..i] :: Refusal(c, occurred) == Some(r)
      invariant reasons == [] <==> forall c <- replayed[..i] :: ExactReuse(c, occurred)
    {
      assert replayed[..i + 1] == replayed[..i] + [replayed[i]];
      RefusalExact(replayed[i], occurred);
      var reason := Refusal(replayed[i], occurred);
      if reason.Some? {
        reasons := reasons + [reason.value];
      }
    }
    assert replayed[..|replayed|] == replayed;
    if reasons != [] {
      var sorted := SortedSet(set r | r in reasons);
      assert reasons[0] in sorted;
      return Envelope("blocked", false, sorted);
    }
    if readOnly { return Envelope("read_only", true, []); }
    if replayed != [] { return Envelope("exact_reuse", true, []); }
    return Envelope("blocked", false, ["no_replayable_work"]);
  }

  /** The registry refuses everything but an exact reuse. */
  lemma RefusalExact(call: Option<Call>, occurred: seq<Call>)
    ensures Refusal(call, occurred).None? <==> ExactReuse(call, occurred)
  {
  }
}
