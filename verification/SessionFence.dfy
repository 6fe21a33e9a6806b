/** The write fence and terminal settlement of packages/contracts/session_failure_containment.py. */
module SessionFence {
  import opened BusinessRecovery

  datatype Terminal = Completed | Failed | Cancelled | Interrupted | Discarded | Closed

  /** What a check answers: the writer may proceed, is fenced, or the call is malformed. */
  datatype Verdict = Accepted | Fenced(reason: string) | Invalid(reason: string)

  /** The identity of an executor: its epoch, generation and attempt. */
  datatype Writer = Writer(epoch: int, generation: string, attempt: int)

  function AssertGenerationFenced(authority: Writer, writer: Writer): Verdict {
    if !IsGeneration(authority.generation) then Invalid("invalid authoritative generation")
    else if !IsGeneration(writer.generation) then Invalid("invalid write generation")
    else if writer.epoch != authority.epoch then Fenced("executor epoch changed; writer is fenced")
    else if writer.generation != authority.generation then Fenced("stale generation; writer is fenced")
    else Accepted
  }

  function AssertFenced(authority: Writer, writer: Writer): Verdict {
    var v := AssertGenerationFenced(authority, writer);
    if v != Accepted then v
    else if writer.attempt != authority.attempt then Fenced("stale or duplicate attempt; writer is fenced")
    else Accepted
  }

  type Settled = map<int, Terminal>

  /** The rule a settlement must meet: a real attempt beyond every settled one. */
  ghost predicate MaySettle(settled: Settled, attempt: int) {
    attempt >= 1 && (forall k <- settled :: k >= 1) && forall k <- settled :: k < attempt
  }

  method AnyOf<T>(s: set<T>) returns (k: T)
    requires s != {}
    ensures k in s
  {
    k :| k in s;
  }

  /** The loop of the source over the settled attempts, in any order, and its comparison with their maximum. */
  method AssertTerminalSettlement(settled: Settled, attempt: int) returns (v: Verdict)
    ensures v == Accepted <==> MaySettle(settled, attempt)
    ensures v.Invalid? ==> attempt < 1 || exists k <- settled :: k < 1
    ensures v.Fenced? ==> exists k <- settled :: k >= attempt
  {
    if attempt < 1 { return Invalid("invalid terminal settlement state"); }
    var pending: set<int>, highest := settled.Keys, 0;
    while pending != {}
      invariant pending <= settled.Keys
      invariant forall k: int :: k in settled && k !in pending ==> 1 <= k <= highest && k != attempt
      invariant highest == 0 || highest in settled
      decreases |pending|
    {
      var k := AnyOf(pending);
      if k < 1 { return Invalid("invalid settled terminal state"); }
      if k == attempt { return Fenced("attempt already has a terminal settlement"); }
      highest := if k > highest then k else highest;
      pending := pending - {k};
    }
    if settled.Keys != {} && attempt < highest {
      return Fenced("late settlement behind the authoritative attempt");
    }
    return Accepted;
  }

  // ----- runs -----

  /** The authoritative executor, the settlements, and the order in which they were accepted. */
  datatype State = State(authority: Writer, settled: Settled, log: seq<int>)

  /** The authority moves (takeover, new attempt, anything), or some writer tries to settle. */
  datatype Event = Authority(to: Writer) | Settle(writer: Writer, terminal: Terminal)

  ghost function Step(s: State, e: Event): State {
    match e
    case Authority(to) => s.(authority := to)
    case Settle(w, t) =>
      if AssertFenced(s.authority, w) == Accepted && MaySettle(s.settled, w.attempt)
      then State(s.authority, s.settled[w.attempt := t], s.log + [w.attempt])
      else s
  }

  ghost function Run(s: State, events: seq<Event>): State
    decreases |events|
  {
    if events == [] then s else Run(Step(s, events[0]), events[1..])
  }

  /** The accepted settlements are exactly the settled attempts, strictly increasing. */
  ghost predicate Consistent(s: State) {
    && (forall i, j :: 0 <= i < j < |s.log| ==> s.log[i] < s.log[j])
    && (forall k :: k in s.settled <==> k in s.log)
    && (forall k <- s.settled :: k >= 1)
  }

  /** Nothing settled is overwritten, and the log only grows. */
  ghost predicate Preserves(s: State, t: State) {
    && s.log <= t.log
    && forall k <- s.settled :: k in t.settled && t.settled[k] == s.settled[k]
  }

  lemma StepConsistent(s: State, e: Event)
    requires Consistent(s)
    ensures Consistent(Step(s, e)) && Preserves(s, Step(s, e))
  {
    var t := Step(s, e);
    if t.log != s.log {
      forall i | 0 <= i < |s.log| ensures s.log[i] < e.writer.attempt {
        assert s.log[i] in s.log;
      }
    }
  }

  /** Under every interleaving of takeovers, new attempts and writers. */
  lemma {:induction false} RunConsistent(s: State, events: seq<Event>)
    requires Consistent(s)
    ensures Consistent(Run(s, events)) && Preserves(s, Run(s, events))
    decreases |events|
  {
    if events != [] {
      StepConsistent(s, events[0]);
      RunConsistent(Step(s, events[0]), events[1..]);
    }
  }

  /** A writer is accepted exactly when it is the authority; any other changes nothing. */
  lemma StaleWriterChangesNothing(s: State, w: Writer, t: Terminal)
    ensures AssertFenced(s.authority, w) == Accepted <==> w == s.authority && IsGeneration(w.generation)
    ensures w != s.authority ==> Step(s, Settle(w, t)) == s
  {
  }

  /** After a run in which an attempt was settled, no writer at or behind it can settle anything. */
  lemma SettledAttemptIsFinal(s: State, events: seq<Event>, k: int, w: Writer, t: Terminal)
    requires Consistent(s) && k in s.settled && w.attempt <= k
    ensures Step(Run(s, events), Settle(w, t)) == Run(s, events)
  {
    RunConsistent(s, events);
  }
}
