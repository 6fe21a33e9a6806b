/** The recovery contract of packages/contracts/business_recovery.py: loss identity, trigger-keyed
    allocation, the recovery envelope and the budget decision. */
module BusinessRecovery {
  import opened Outcomes
  import opened Decimals
  import opened Digests

  const RECOVERY_ATTEMPT_MAX := 3
  const MODEL_CALL_FLOOR := 1048576 + 8192
  const TRIGGER_DOMAIN := "recovery-trigger.v1:"
  const RESERVATION_PREFIX := "continuation_"
  const INT63 := 0x8000_0000_0000_0000

  // ----- identities -----

  /** A trigger: the digest of a loss's identity string. */
  type Trigger = Digest<string>

  /** `recovery_` and the head of a digest of a trigger and an ordinal, as a symbolic term. */
  datatype AttemptKey = AttemptKey(trigger: Trigger, ordinal: int)

  predicate IsReservation(s: string) {
    |s| == |RESERVATION_PREFIX| + 32 && s[..|RESERVATION_PREFIX|] == RESERVATION_PREFIX
    && IsHex(s[|RESERVATION_PREFIX|..], 32)
  }

  predicate Alphanumeric(c: char) { '0' <= c <= '9' || 'a' <= c <= 'z' || 'A' <= c <= 'Z' }

  /** The generation pattern: an alphanumeric, then up to 127 alphanumerics, `_`, `.`, `:` or `-`. */
  predicate IsGeneration(s: string) {
    1 <= |s| <= 128 && Alphanumeric(s[0])
    && forall c <- s[1..] :: Alphanumeric(c) || c in "_.:-"
  }

  predicate Positive63(n: int) { 1 <= n < INT63 }

  /** One fenced loss: the interrupted run, generation, attempt and executor epoch. */
  datatype Loss = Loss(runId: string, generation: string, attempt: int, epoch: int)

  predicate ValidLoss(reservation: string, l: Loss) {
    && IsReservation(reservation) && IsHex(l.runId, 32) && IsGeneration(l.generation)
    && Positive63(l.attempt) && Positive63(l.epoch)
  }

  function TriggerMaterial(reservation: string, l: Loss): string
    requires ValidLoss(reservation, l)
  {
    TRIGGER_DOMAIN + reservation + ":" + l.runId + ":" + l.generation + ":" + Decimal(l.attempt) + ":"
    + Decimal(l.epoch)
  }

  function TriggerKey(reservation: string, l: Loss): Result<Trigger> {
    if ValidLoss(reservation, l) then Ok(Sha256(TriggerMaterial(reservation, l)))
    else Err("invalid_trigger_input")
  }

  function KeyOfAttempt(trigger: Trigger, ordinal: int): Result<AttemptKey> {
    if 1 <= ordinal <= RECOVERY_ATTEMPT_MAX then Ok(AttemptKey(trigger, ordinal)) else Err("invalid_ordinal")
  }

  /** The hashed identity string determines the loss, although a generation may contain `:`. */
  lemma TriggerMaterialInjective(r1: string, l1: Loss, r2: string, l2: Loss)
    requires ValidLoss(r1, l1) && ValidLoss(r2, l2)
    requires TriggerMaterial(r1, l1) == TriggerMaterial(r2, l2)
    ensures r1 == r2 && l1 == l2
  {
    var head1 := TRIGGER_DOMAIN + r1 + ":" + l1.runId + ":" + l1.generation;
    var head2 := TRIGGER_DOMAIN + r2 + ":" + l2.runId + ":" + l2.generation;
    NoColonInDecimal(l1.attempt);
    NoColonInDecimal(l2.attempt);
    NoColonInDecimal(l1.epoch);
    NoColonInDecimal(l2.epoch);
    LastSeparator(head1 + ":" + Decimal(l1.attempt), Decimal(l1.epoch),
                  head2 + ":" + Decimal(l2.attempt), Decimal(l2.epoch), ':');
    LastSeparator(head1, Decimal(l1.attempt), head2, Decimal(l2.attempt), ':');
    DecimalInjective(l1.attempt, l2.attempt);
    DecimalInjective(l1.epoch, l2.epoch);
    FixedFields(r1, l1.runId, l1.generation, r2, l2.runId, l2.generation);
  }

  lemma NoColonInDecimal(n: nat)
    ensures ':' !in Decimal(n)
  {
    DecimalDigits(n);
  }

  /** The reservation and run have fixed lengths, so the generation is what is left. */
  lemma FixedFields(r1: string, run1: string, g1: string, r2: string, run2: string, g2: string)
    requires |r1| == |r2| && |run1| == |run2|
    requires TRIGGER_DOMAIN + r1 + ":" + run1 + ":" + g1 == TRIGGER_DOMAIN + r2 + ":" + run2 + ":" + g2
    ensures r1 == r2 && run1 == run2 && g1 == g2
  {
    var s1, s2 := TRIGGER_DOMAIN + r1 + ":" + run1 + ":" + g1, TRIGGER_DOMAIN + r2 + ":" + run2 + ":" + g2;
    var a, b := |TRIGGER_DOMAIN|, |TRIGGER_DOMAIN| + |r1| + 1;
    assert s1[a..a + |r1|] == r1 && s2[a..a + |r1|] == r2;
    assert s1[b..b + |run1|] == run1 && s2[b..b + |run1|] == run2;
    assert s1[b + |run1| + 1..] == g1 && s2[b + |run1| + 1..] == g2;
  }

  // ----- the carrier -----

  /** The closed carrier the Backend mints. */
  datatype Carrier = Carrier(
    key: AttemptKey, ordinal: int, trigger: Trigger, loss: Loss, tail: int, snapshot: string)

  /** What the Backend later records on an attempt; no part of its identity. */
  datatype Progress = Progress(
    status: string, runId: Option<string>, targetEpoch: Option<int>, targetGeneration: Option<string>,
    charged: Option<nat>)

  datatype Attempt = Attempt(carrier: Carrier, progress: Progress)

  const RESERVED := Progress("reserved", None, None, None, None)

  predicate ValidTail(tail: int) { 0 <= tail < INT63 }

  /** Shape and recomputed identity of a carrier. */
  function VerifyCarrierIdentity(c: Carrier, reservation: string): Result<Carrier> {
    if !(1 <= c.ordinal <= RECOVERY_ATTEMPT_MAX) then Err("invalid_ordinal")
    else if !IsHex(c.loss.runId, 32) then Err("invalid_interrupted_run_id")
    else if !IsGeneration(c.loss.generation) then Err("invalid_interrupted_generation")
    else if !Positive63(c.loss.attempt) then Err("invalid_containment_attempt")
    else if !Positive63(c.loss.epoch) then Err("invalid_interrupted_epoch")
    else if !ValidTail(c.tail) then Err("invalid_snapshot_tail")
    else if !IsHex(c.snapshot, 64) then Err("invalid_snapshot_digest")
    else if TriggerKey(reservation, c.loss).Err? then Err("invalid_trigger_input")
    else if TriggerKey(reservation, c.loss) != Ok(c.trigger) then Err("trigger_key_mismatch")
    else if KeyOfAttempt(c.trigger, c.ordinal) != Ok(c.key) then Err("attempt_key_mismatch")
    else Ok(c)
  }

  /** A carrier verifies for one reservation only. */
  lemma CarrierBindsReservation(c: Carrier, r1: string, r2: string)
    requires VerifyCarrierIdentity(c, r1).Ok? && VerifyCarrierIdentity(c, r2).Ok?
    ensures r1 == r2
  {
    TriggerMaterialInjective(r1, c.loss, r2, c.loss);
  }

  // ----- allocation -----

  /** The index of the stored attempt for a trigger, or the length of the list. */
  function FindTrigger(attempts: seq<Attempt>, trigger: Trigger): (i: nat)
    ensures i <= |attempts|
    ensures i < |attempts| ==> attempts[i].carrier.trigger == trigger
    ensures forall j :: 0 <= j < i ==> attempts[j].carrier.trigger != trigger
  {
    if attempts == [] || attempts[0].carrier.trigger == trigger then 0
    else 1 + FindTrigger(attempts[1..], trigger)
  }

  /** What an allocation call answers: an error, or an attempt and whether it is new. */
  function Allocation(reservation: string, attempts: seq<Attempt>, l: Loss, tail: int, snapshot: string,
                      ordinalMax: int): Result<(Attempt, bool)>
  {
    match TriggerKey(reservation, l)
    case Err(e) => Err(e)
    case Ok(trigger) =>
      if !IsHex(snapshot, 64) then Err("invalid_snapshot_digest")
      else if !ValidTail(tail) then Err("invalid_snapshot_tail")
      else
        var i := FindTrigger(attempts, trigger);
        if i < |attempts| then
          if attempts[i].carrier.tail != tail || attempts[i].carrier.snapshot != snapshot then
            Err("snapshot_changed_for_existing_trigger")
          else Ok((attempts[i], false))
        else if |attempts| + 1 > ordinalMax then Err("ordinal_cap")
        else
          match KeyOfAttempt(trigger, |attempts| + 1)
          case Err(e) => Err(e)
          case Ok(key) => Ok((Attempt(Carrier(key, |attempts| + 1, trigger, l, tail, snapshot), RESERVED), true))
  }

  /** The scan of the source, against `Allocation`. */
  method AllocateRecoveryAttempt(reservation: string, attempts: seq<Attempt>, l: Loss, tail: int,
                                 snapshot: string, ordinalMax: int)
    returns (r: Result<(Attempt, bool)>)
    ensures r == Allocation(reservation, attempts, l, tail, snapshot, ordinalMax)
  {
    var trigger := TriggerKey(reservation, l);
    if trigger.Err? { return Err(trigger.error); }
    if !IsHex(snapshot, 64) { return Err("invalid_snapshot_digest"); }
    if !ValidTail(tail) { return Err("invalid_snapshot_tail"); }
    assert attempts[0..] == attempts;
    for i := 0 to |attempts|
      invariant i + FindTrigger(attempts[i..], trigger.value) == FindTrigger(attempts, trigger.value)
    {
      assert attempts[i..][1..] == attempts[i + 1..];
      if attempts[i].carrier.trigger == trigger.value {
        if attempts[i].carrier.tail != tail || attempts[i].carrier.snapshot != snapshot {
          return Err("snapshot_changed_for_existing_trigger");
        }
        return Ok((attempts[i], false));
      }
    }
    var ordinal := |attempts| + 1;
    if ordinal > ordinalMax { return Err("ordinal_cap"); }
    var key := KeyOfAttempt(trigger.value, ordinal);
    if key.Err? { return Err(key.error); }
    return Ok((Attempt(Carrier(key.value, ordinal, trigger.value, l, tail, snapshot), RESERVED), true));
  }

  // ----- runs of one reservation -----

  /** What happens to the stored list: an allocation call, or the Backend recording progress. */
  datatype Event =
    | Allocate(loss: Loss, tail: int, snapshot: string, ordinalMax: int)
    | Record(index: nat, progress: Progress)

  function Step(reservation: string, attempts: seq<Attempt>, e: Event): seq<Attempt> {
    match e
    case Allocate(l, tail, snapshot, max) =>
      var r := Allocation(reservation, attempts, l, tail, snapshot, max);
      if r.Ok? && r.value.1 then attempts + [r.value.0] else attempts
    case Record(i, p) => if i < |attempts| then attempts[i := attempts[i].(progress := p)] else attempts
  }

  function Run(reservation: string, attempts: seq<Attempt>, events: seq<Event>): seq<Attempt>
    decreases |events|
  {
    if events == [] then attempts else Run(reservation, Step(reservation, attempts, events[0]), events[1..])
  }

  /** The carrier stored at a place: numbered by it, and with a verifiable identity. */
  ghost predicate Placed(reservation: string, c: Carrier, i: nat) {
    c.ordinal == i + 1 && VerifyCarrierIdentity(c, reservation) == Ok(c)
  }

  /** At most three attempts, numbered from 1, for distinct losses, each with a verifiable carrier. */
  ghost predicate Ledger(reservation: string, attempts: seq<Attempt>) {
    && |attempts| <= RECOVERY_ATTEMPT_MAX
    && (forall i :: 0 <= i < |attempts| ==> Placed(reservation, attempts[i].carrier, i))
    && (forall i, j :: 0 <= i < j < |attempts| ==> attempts[i].carrier.trigger != attempts[j].carrier.trigger)
  }

  /** The identities already handed out stay where they are. */
  ghost predicate SameCarriers(before: seq<Attempt>, after: seq<Attempt>) {
    |before| <= |after| && forall i :: 0 <= i < |before| ==> after[i].carrier == before[i].carrier
  }

  /** A created attempt is correctly placed, and its trigger is new. */
  lemma CreatedPlaced(reservation: string, attempts: seq<Attempt>, l: Loss, tail: int, snapshot: string, max: int)
    requires Allocation(reservation, attempts, l, tail, snapshot, max).Ok?
    requires Allocation(reservation, attempts, l, tail, snapshot, max).value.1
    ensures var c := Allocation(reservation, attempts, l, tail, snapshot, max).value.0.carrier;
            && Placed(reservation, c, |attempts|) && |attempts| < RECOVERY_ATTEMPT_MAX && |attempts| < max
            && c.loss == l && forall b <- attempts :: b.carrier.trigger != c.trigger
  {
  }

  lemma StepKeepsLedger(reservation: string, attempts: seq<Attempt>, e: Event)
    requires Ledger(reservation, attempts)
    ensures Ledger(reservation, Step(reservation, attempts, e))
    ensures SameCarriers(attempts, Step(reservation, attempts, e))
  {
    if e.Allocate? {
      AllocateKeepsLedger(reservation, attempts, e);
    } else {
      RecordKeepsLedger(reservation, attempts, e);
    }
  }

  lemma AllocateKeepsLedger(reservation: string, attempts: seq<Attempt>, e: Event)
    requires Ledger(reservation, attempts) && e.Allocate?
    ensures Ledger(reservation, Step(reservation, attempts, e))
    ensures SameCarriers(attempts, Step(reservation, attempts, e))
  {
    var r := Allocation(reservation, attempts, e.loss, e.tail, e.snapshot, e.ordinalMax);
    if r.Ok? && r.value.1 {
      CreatedPlaced(reservation, attempts, e.loss, e.tail, e.snapshot, e.ordinalMax);
    }
  }

  lemma RecordKeepsLedger(reservation: string, attempts: seq<Attempt>, e: Event)
    requires Ledger(reservation, attempts) && e.Record?
    ensures Ledger(reservation, Step(reservation, attempts, e))
    ensures SameCarriers(attempts, Step(reservation, attempts, e))
  {
  }

  /** Every run of calls on a fresh reservation keeps the ledger, whatever is asked. */
  lemma {:induction false} RunKeepsLedger(reservation: string, attempts: seq<Attempt>, events: seq<Event>)
    requires Ledger(reservation, attempts)
    ensures Ledger(reservation, Run(reservation, attempts, events))
    ensures SameCarriers(attempts, Run(reservation, attempts, events))
    decreases |events|
  {
    if events != [] {
      StepKeepsLedger(reservation, attempts, events[0]);
      RunKeepsLedger(reservation, Step(reservation, attempts, events[0]), events[1..]);
    }
  }

  /** Once a loss has an attempt, every later call for it returns that attempt, or, with another
      snapshot, is refused; neither changes the list. */
  lemma AllocationIdempotent(reservation: string, attempts: seq<Attempt>, i: nat, events: seq<Event>,
                             tail: int, snapshot: string, max: int)
    requires Ledger(reservation, attempts) && i < |attempts|
    ensures var later := Run(reservation, attempts, events);
            var c := attempts[i].carrier;
            var r := Allocation(reservation, later, c.loss, tail, snapshot, max);
            && i < |later|
            && Step(reservation, later, Allocate(c.loss, tail, snapshot, max)) == later
            && (tail == c.tail && snapshot == c.snapshot ==> r == Ok((later[i], false)) && later[i].carrier == c)
            && (tail != c.tail || snapshot != c.snapshot ==> r.Err?)
  {
    RunKeepsLedger(reservation, attempts, events);
    var later := Run(reservation, attempts, events);
    var c := attempts[i].carrier;
    assert later[i].carrier == c && TriggerKey(reservation, c.loss) == Ok(c.trigger);
    var k := FindTrigger(later, c.trigger);
    assert k == i;
  }

  /** An attempt is only ever returned for the loss it was created for: no two losses share one. */
  lemma AttemptNamesItsLoss(reservation: string, attempts: seq<Attempt>, l: Loss, tail: int, snapshot: string, max: int)
    requires Ledger(reservation, attempts)
    requires Allocation(reservation, attempts, l, tail, snapshot, max).Ok?
    ensures var (a, created) := Allocation(reservation, attempts, l, tail, snapshot, max).value;
            a.carrier.loss == l && (created <==> forall b <- attempts :: b.carrier.loss != l)
  {
    var trigger := TriggerKey(reservation, l).value;
    forall i | 0 <= i < |attempts| && attempts[i].carrier.trigger == trigger
      ensures attempts[i].carrier.loss == l
    {
      TriggerMaterialInjective(reservation, attempts[i].carrier.loss, reservation, l);
    }
    forall i | 0 <= i < |attempts| && attempts[i].carrier.loss == l
      ensures attempts[i].carrier.trigger == trigger
    {
    }
  }

  /** Distinct triggers are distinct losses. */
  lemma LedgerLossesDistinct(reservation: string, attempts: seq<Attempt>)
    requires Ledger(reservation, attempts)
    ensures forall i, j :: 0 <= i < j < |attempts| ==> attempts[i].carrier.loss != attempts[j].carrier.loss
    ensures forall i, j :: 0 <= i < j < |attempts| ==> attempts[i].carrier.key != attempts[j].carrier.key
  {
    forall i | 0 <= i < |attempts|
      ensures TriggerKey(reservation, attempts[i].carrier.loss) == Ok(attempts[i].carrier.trigger)
      ensures attempts[i].carrier.key.trigger == attempts[i].carrier.trigger
    {
      assert Placed(reservation, attempts[i].carrier, i);
    }
  }
}
