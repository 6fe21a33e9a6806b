/** The chat admission gate: the operator of scripts/dsh/admission.py and the readers of
    packages/operations/admission.py, interleaved over one locked file, system call by system call. */
module AdmissionGate {
  import opened Outcomes

  const OPEN := "open\n"
  const CLOSED := "closed\n"
  const READ_SIZE := 16

  /** The line an operator writes. */
  function Line(open: bool): string { if open then OPEN else CLOSED }

  // ----- the file -----

  /** `read` of at most 16 bytes from the start. */
  function ReadHead(file: string): string {
    if |file| <= READ_SIZE then file else file[..READ_SIZE]
  }

  /** `write` of `data` at offset 0: the tail of a longer file stays. */
  function Overwrite(file: string, data: string): string {
    if |data| < |file| then data + file[|data|..] else data
  }

  /** `ftruncate` to `n` bytes, padding with zeros. */
  function Truncate(file: string, n: nat): string {
    if n <= |file| then file[..n] else file + seq(n - |file|, i => '\0')
  }

  /** Contents an operator accepts as a gate. */
  predicate WellFormed(file: string) { ReadHead(file) == OPEN || ReadHead(file) == CLOSED }

  /** The gate file as one process sees it between its own calls, under the exclusive lock. */
  class GateFile {
    var bytes: string

    constructor Initialize()
      ensures bytes == CLOSED
    {
      bytes := CLOSED;
    }

    /** `set_state` with the answers of successive lock attempts; `patience` of them fit the deadline. */
    method SetState(open: bool, lockAnswers: seq<bool>, patience: nat) returns (r: Result<()>)
      modifies this
      ensures r.Ok? <==>
                (exists i :: 0 <= i < |lockAnswers| && i <= patience && lockAnswers[i]) && WellFormed(old(bytes))
      ensures bytes == if r.Ok? then Line(open) else old(bytes)
    {
      var i := 0;
      while i < |lockAnswers| && !lockAnswers[i]
        invariant i <= |lockAnswers| && i <= patience
        invariant forall j :: 0 <= j < i ==> !lockAnswers[j]
      {
        if i >= patience { return Err("in-flight admission has not finished; gate unchanged"); }
        i := i + 1;
      }
      if i == |lockAnswers| { return Err("in-flight admission has not finished; gate unchanged"); }
      if !WellFormed(bytes) { return Err("invalid existing gate contents"); }
      bytes := Overwrite(bytes, Line(open));
      bytes := Truncate(bytes, |Line(open)|);
      return Ok(());
    }
  }

  // ----- the interleaved protocol -----

  datatype Reader = Outside | Locked | Admitted
  datatype Operator =
    | Idle | Waiting(open: bool) | Holding(open: bool) | Checked(open: bool) | Written(open: bool)
    | Truncated(open: bool)
  datatype Creator = NotRun | Created | Finished

  datatype State = State(
    file: Option<string>, shared: set<nat>, exclusive: Option<nat>,
    readers: map<nat, Reader>, operators: map<nat, Operator>, creator: Creator)

  const INITIAL := State(None, {}, None, map[], map[], NotRun)

  function ReaderOf(s: State, r: nat): Reader { if r in s.readers then s.readers[r] else Outside }
  function OperatorOf(s: State, o: nat): Operator { if o in s.operators then s.operators[o] else Idle }

  /** One system call of one process; `written` is how many bytes a write really wrote, and a release
      is a normal close of the descriptor or a crash, at any point. */
  datatype Call =
    | Create
    | CreatorWrite(written: nat)
    | ReaderLock(r: nat)
    | ReaderRead(r: nat)
    | ReaderRelease(r: nat)
    | OperatorStart(o: nat, open: bool)
    | OperatorLock(o: nat)
    | OperatorCheck(o: nat)
    | OperatorWrite(o: nat, written: nat)
    | OperatorTruncate(o: nat)
    | OperatorRelease(o: nat)

  /** Whether the call is the next one of its process and the kernel lets it through. */
  predicate Enabled(s: State, c: Call) {
    match c
    case Create => s.creator == NotRun && s.file.None?
    case CreatorWrite(n) => s.creator == Created && s.file.Some? && n <= |CLOSED|
    case ReaderLock(r) => s.file.Some? && ReaderOf(s, r) == Outside && s.exclusive.None?
    case ReaderRead(r) => s.file.Some? && ReaderOf(s, r) == Locked
    case ReaderRelease(r) => ReaderOf(s, r) != Outside
    case OperatorStart(o, _) => s.file.Some? && OperatorOf(s, o) == Idle
    case OperatorLock(o) => s.file.Some? && OperatorOf(s, o).Waiting? && s.exclusive.None? && s.shared == {}
    case OperatorCheck(o) => s.file.Some? && OperatorOf(s, o).Holding?
    case OperatorWrite(o, n) => s.file.Some? && OperatorOf(s, o).Checked? && n <= |Line(OperatorOf(s, o).open)|
    case OperatorTruncate(o) => s.file.Some? && OperatorOf(s, o).Written?
    case OperatorRelease(o) => OperatorOf(s, o) != Idle
  }

  function SetReader(s: State, r: nat, p: Reader, locked: bool): (t: State)
    ensures forall x :: ReaderOf(t, x) == if x == r then p else ReaderOf(s, x)
    ensures forall o :: OperatorOf(t, o) == OperatorOf(s, o)
  {
    s.(readers := s.readers[r := p], shared := if locked then s.shared + {r} else s.shared - {r})
  }

  function SetOperator(s: State, o: nat, p: Operator, exclusive: Option<nat>): (t: State)
    ensures forall x :: OperatorOf(t, x) == if x == o then p else OperatorOf(s, x)
    ensures forall r :: ReaderOf(t, r) == ReaderOf(s, r)
  {
    s.(operators := s.operators[o := p], exclusive := exclusive)
  }

  function SetFile(s: State, file: string, creator: Creator): (t: State)
    ensures forall o :: OperatorOf(t, o) == OperatorOf(s, o)
    ensures forall r :: ReaderOf(t, r) == ReaderOf(s, r)
  {
    s.(file := Some(file), creator := creator)
  }

  function DropExclusive(s: State, o: nat): State {
    SetOperator(s, o, Idle, if s.exclusive == Some(o) then None else s.exclusive)
  }

  function Apply(s: State, c: Call): State
    requires Enabled(s, c)
  {
    match c
    case Create => SetFile(s, "", Created)
    case CreatorWrite(n) => SetFile(s, Overwrite(s.file.value, CLOSED[..n]), Finished)
    case ReaderLock(r) => SetReader(s, r, Locked, true)
    case ReaderRead(r) =>
      if ReadHead(s.file.value) == OPEN then SetReader(s, r, Admitted, true) else SetReader(s, r, Outside, false)
    case ReaderRelease(r) => SetReader(s, r, Outside, false)
    case OperatorStart(o, open) => SetOperator(s, o, Waiting(open), s.exclusive)
    case OperatorLock(o) => SetOperator(s, o, Holding(OperatorOf(s, o).open), Some(o))
    case OperatorCheck(o) =>
      if WellFormed(s.file.value) then SetOperator(s, o, Checked(OperatorOf(s, o).open), s.exclusive)
      else DropExclusive(s, o)
    case OperatorWrite(o, n) =>
      var open := OperatorOf(s, o).open;
      SetFile(SetOperator(s, o, Written(open), s.exclusive), Overwrite(s.file.value, Line(open)[..n]), s.creator)
    case OperatorTruncate(o) =>
      var open := OperatorOf(s, o).open;
      SetFile(SetOperator(s, o, Truncated(open), s.exclusive), Truncate(s.file.value, |Line(open)|), s.creator)
    case OperatorRelease(o) => DropExclusive(s, o)
  }

  /** A history: states joined by enabled calls, from any state. */
  ghost predicate History(states: seq<State>, calls: seq<Call>) {
    && |states| == |calls| + 1
    && forall i :: 0 <= i < |calls| ==> Enabled(states[i], calls[i]) && states[i + 1] == Apply(states[i], calls[i])
  }

  // ----- torn contents -----

  /** What a write of `n` bytes of the line leaves of a well-formed gate. */
  ghost predicate TornFrom(file: string, open: bool, was: string, n: nat) {
    n <= |Line(open)| && (was == OPEN || was == CLOSED) && file == Overwrite(was, Line(open)[..n])
  }

  ghost predicate Torn(file: string, open: bool) {
    exists was, n :: TornFrom(file, open, was, n)
  }

  /** A write cut at any byte leaves the old line or something readers refuse; so does truncating it,
      unless the whole line `open` was written. */
  lemma CutWrite(was: string, open: bool, n: nat)
    requires (was == OPEN || was == CLOSED) && n <= |Line(open)|
    ensures var torn := Overwrite(was, Line(open)[..n]);
            && (ReadHead(torn) == OPEN ==> was == OPEN && torn == was)
            && (Truncate(torn, |Line(open)|) == OPEN ==> open && (n == |OPEN| || was == OPEN))
            && (n == |Line(open)| ==> Truncate(torn, |Line(open)|) == Line(open))
  {
    var torn := Overwrite(was, Line(open)[..n]);
    if open && was == CLOSED {
      assert n < 5 ==> torn[4] == CLOSED[4] == 'e' && Truncate(torn, 5)[4] == 'e' && OPEN[4] == '\n';
      assert n == 5 ==> torn == "open\nd\n";
    } else if open {
      assert torn == OPEN;
    } else if was == OPEN {
      assert n == 0 ==> torn == OPEN;
      assert n > 0 ==> torn[0] == 'c';
      assert |Truncate(torn, 7)| == 7;
    } else {
      assert torn == CLOSED;
    }
    assert n == |Line(open)| ==> Line(open)[..n] == Line(open);
  }

  // ----- safety -----

  predicate Holds(p: Operator) { p.Holding? || p.Checked? || p.Written? || p.Truncated? }

  /** The lock table agrees with the processes, and exclusive excludes shared. */
  ghost predicate LocksAgree(s: State) {
    && (forall o: nat :: Holds(OperatorOf(s, o)) <==> s.exclusive == Some(o))
    && (forall r: nat :: ReaderOf(s, r) != Outside <==> r in s.shared)
    && (s.exclusive.Some? ==> s.shared == {})
  }

  /** What each process knows about the file while it holds its lock. */
  ghost predicate FileKnown(s: State) {
    && (s.file.None? <==> s.creator == NotRun)
    && (s.creator == Created ==>
          s.file == Some("") && forall o: nat :: !OperatorOf(s, o).Checked? && !OperatorOf(s, o).Written?)
    && (forall r: nat :: ReaderOf(s, r) == Admitted ==> s.file == Some(OPEN))
    && (forall o: nat :: OperatorOf(s, o).Checked? ==> s.file == Some(OPEN) || s.file == Some(CLOSED))
    && (forall o: nat :: OperatorOf(s, o).Written? ==> s.file.Some? && Torn(s.file.value, OperatorOf(s, o).open))
    && (s.file.None? ==> s.shared == {} && s.exclusive.None?)
  }

  ghost predicate Safe(s: State) { LocksAgree(s) && FileKnown(s) }

  lemma HeadIsWhole(file: string)
    ensures ReadHead(file) == OPEN <==> file == OPEN
    ensures ReadHead(file) == CLOSED <==> file == CLOSED
  {
  }

  lemma LocksStep(s: State, c: Call)
    requires Safe(s) && Enabled(s, c)
    ensures LocksAgree(Apply(s, c))
  {
  }

  lemma FileStep(s: State, c: Call)
    requires Safe(s) && Enabled(s, c)
    ensures FileKnown(Apply(s, c))
  {
    match c
    case Create => CreatorFileStep(s, c);
    case CreatorWrite(_) => CreatorFileStep(s, c);
    case ReaderLock(_) => ReaderFileStep(s, c);
    case ReaderRead(_) => ReaderFileStep(s, c);
    case ReaderRelease(_) => ReaderFileStep(s, c);
    case OperatorWrite(_, _) => WritingFileStep(s, c);
    case OperatorTruncate(_) => WritingFileStep(s, c);
    case _ => OperatorFileStep(s, c);
  }

  lemma CreatorFileStep(s: State, c: Call)
    requires Safe(s) && Enabled(s, c) && (c.Create? || c.CreatorWrite?)
    ensures FileKnown(Apply(s, c))
  {
  }

  lemma ReaderFileStep(s: State, c: Call)
    requires Safe(s) && Enabled(s, c) && (c.ReaderLock? || c.ReaderRead? || c.ReaderRelease?)
    ensures FileKnown(Apply(s, c))
  {
    HeadIsWhole(s.file.value);
  }

  lemma OperatorFileStep(s: State, c: Call)
    requires Safe(s) && Enabled(s, c)
    requires c.OperatorStart? || c.OperatorLock? || c.OperatorCheck? || c.OperatorRelease?
    ensures FileKnown(Apply(s, c))
  {
    if s.file.Some? { HeadIsWhole(s.file.value); }
  }

  /** Under the exclusive lock there is no admitted reader and no other operator at work. */
  lemma WritingFileStep(s: State, c: Call)
    requires Safe(s) && Enabled(s, c) && (c.OperatorWrite? || c.OperatorTruncate?)
    ensures FileKnown(Apply(s, c))
  {
    assert forall r: nat :: ReaderOf(s, r) == Outside;
    assert c.OperatorWrite? ==> TornFrom(Apply(s, c).file.value, OperatorOf(s, c.o).open, s.file.value, c.written);
  }

  lemma StepSafe(s: State, c: Call)
    requires Safe(s) && Enabled(s, c)
    ensures Safe(Apply(s, c))
  {
    LocksStep(s, c);
    FileStep(s, c);
  }

  lemma {:induction false} HistorySafe(states: seq<State>, calls: seq<Call>, i: nat)
    requires History(states, calls) && Safe(states[0]) && i < |states|
    ensures Safe(states[i])
  {
    if i > 0 {
      HistorySafe(states, calls, i - 1);
      StepSafe(states[i - 1], calls[i - 1]);
    }
  }

  /** In every reachable state an admitted reader means the gate reads `open`, shared with no operator. */
  lemma AdmittedMeansOpen(states: seq<State>, calls: seq<Call>, i: nat, r: nat)
    requires History(states, calls) && states[0] == INITIAL && i < |states|
    requires ReaderOf(states[i], r) == Admitted
    ensures states[i].file == Some(OPEN) && states[i].exclusive.None?
  {
    HistorySafe(states, calls, i);
    assert r in states[i].shared;
  }

  /** The only call that turns a gate readers refuse into one they accept: the truncation ending an
      `open` whose line was written in full over a closed gate. */
  predicate CompletesOpen(s: State, c: Call) {
    c.OperatorTruncate? && OperatorOf(s, c.o) == Written(true) && s.file == Some(Overwrite(CLOSED, OPEN))
  }

  lemma OnlyOpenOpens(s: State, c: Call)
    requires Safe(s) && Enabled(s, c) && s.file != Some(OPEN) && Apply(s, c).file == Some(OPEN)
    ensures CompletesOpen(s, c)
  {
    HeadIsWhole(s.file.value);
    match c
    case CreatorWrite(n) =>
      InitialLineIsClosed(n);
    case OperatorWrite(o, n) =>
      CutWrite(s.file.value, OperatorOf(s, o).open, n);
    case OperatorTruncate(o) =>
      assert |Truncate(s.file.value, |CLOSED|)| == |CLOSED|;
      WholeOpen(s.file.value);
    case _ =>
  }

  /** Of the torn contents that truncate to `open`, only the one written in full over a closed gate was refused. */
  lemma WholeOpen(file: string)
    ensures Torn(file, true) && Truncate(file, |OPEN|) == OPEN && file != OPEN ==> file == Overwrite(CLOSED, OPEN)
  {
    if Torn(file, true) && Truncate(file, |OPEN|) == OPEN && file != OPEN {
      var was: string, n: nat :| TornFrom(file, true, was, n);
      CutWrite(was, true, n);
      assert was == OPEN ==> Overwrite(OPEN, OPEN[..n]) == OPEN;
      assert OPEN[..|OPEN|] == OPEN;
    }
  }

  lemma InitialLineIsClosed(n: nat)
    requires n <= |CLOSED|
    ensures Overwrite("", CLOSED[..n]) != OPEN
  {
    assert n > 0 ==> CLOSED[..n][0] == 'c';
  }

  lemma {:induction false} RefusedUntilOpened(states: seq<State>, calls: seq<Call>, i: nat, j: nat)
    requires History(states, calls) && Safe(states[0]) && i <= j < |states|
    requires states[i].file != Some(OPEN)
    requires forall k :: i <= k < j ==> !CompletesOpen(states[k], calls[k])
    ensures states[j].file != Some(OPEN)
    decreases j
  {
    if i < j {
      RefusedUntilOpened(states, calls, i, j - 1);
      HistorySafe(states, calls, j - 1);
      if Apply(states[j - 1], calls[j - 1]).file == Some(OPEN) {
        OnlyOpenOpens(states[j - 1], calls[j - 1]);
      }
    }
  }

  /** From a state the gate does not read `open` in, nobody is admitted until an `open` completes. */
  lemma ClosedUntilOpened(states: seq<State>, calls: seq<Call>, i: nat, j: nat, r: nat)
    requires History(states, calls) && states[0] == INITIAL && i <= j < |states|
    requires states[i].file != Some(OPEN)
    requires forall k :: i <= k < j ==> !CompletesOpen(states[k], calls[k])
    ensures ReaderOf(states[j], r) != Admitted
  {
    RefusedUntilOpened(states, calls, i, j);
    HistorySafe(states, calls, j);
  }

  /** A `close` whose truncation happened leaves the gate refused, however short its write was. */
  lemma CompletedCloseRefuses(s: State, o: nat)
    requires Safe(s) && Enabled(s, OperatorTruncate(o)) && OperatorOf(s, o) == Written(false)
    ensures Apply(s, OperatorTruncate(o)).file != Some(OPEN)
  {
    assert |Truncate(s.file.value, |CLOSED|)| == |CLOSED|;
  }

  /** After a `close` whose truncation happened, nobody is admitted until a later `open` completes. */
  lemma ClosedAfterClose(states: seq<State>, calls: seq<Call>, c: nat, j: nat, o: nat, r: nat)
    requires History(states, calls) && states[0] == INITIAL && c < j < |states|
    requires calls[c] == OperatorTruncate(o) && OperatorOf(states[c], o) == Written(false)
    requires forall k :: c < k < j ==> !CompletesOpen(states[k], calls[k])
    ensures ReaderOf(states[j], r) != Admitted
  {
    HistorySafe(states, calls, c);
    CompletedCloseRefuses(states[c], o);
    ClosedUntilOpened(states, calls, c + 1, j, r);
  }

  /** An operator that stops after a write of any number of bytes leaves the old line or one readers
      refuse; stopped after the truncation too, the new line if it was written whole, else the same. */
  lemma CrashLeavesOldOrRefused(s: State, o: nat, n: nat)
    requires Safe(s) && Enabled(s, OperatorWrite(o, n))
    ensures var written := Apply(s, OperatorWrite(o, n));
            var crashed := Apply(written, OperatorRelease(o));
            && crashed.exclusive.None?
            && (crashed.file == s.file || crashed.file != Some(OPEN))
    ensures var open := OperatorOf(s, o).open;
            var written := Apply(s, OperatorWrite(o, n));
            var crashed := Apply(Apply(written, OperatorTruncate(o)), OperatorRelease(o));
            && (n == |Line(open)| ==> crashed.file == Some(Line(open)))
            && (n < |Line(open)| ==> crashed.file != Some(OPEN) || (open && s.file == Some(OPEN)))
  {
    var open := OperatorOf(s, o).open;
    CutWrite(s.file.value, open, n);
    HeadIsWhole(Overwrite(s.file.value, Line(open)[..n]));
    assert s.exclusive == Some(o);
  }

  /** Contents no operator accepts are final: a crash in mid-write leaves the gate shut for good. */
  ghost predicate Stuck(s: State) {
    && s.file.Some? && !WellFormed(s.file.value) && s.creator == Finished
    && forall o: nat :: !OperatorOf(s, o).Checked? && !OperatorOf(s, o).Written?
  }

  lemma {:induction false} TornGateStaysShut(states: seq<State>, calls: seq<Call>, i: nat, j: nat)
    requires History(states, calls) && i <= j < |states| && Stuck(states[i])
    ensures Stuck(states[j]) && states[j].file == states[i].file
    decreases j
  {
    if i < j {
      TornGateStaysShut(states, calls, i, j - 1);
      StuckStep(states[j - 1], calls[j - 1]);
    }
  }

  lemma StuckStep(s: State, c: Call)
    requires Stuck(s) && Enabled(s, c)
    ensures Stuck(Apply(s, c)) && Apply(s, c).file == s.file
  {
  }

  // ----- one uninterrupted operator -----

  /** The state after a list of calls, if each is enabled in its turn. */
  function Follow(s: State, calls: seq<Call>): Option<State>
    decreases |calls|
  {
    if calls == [] then Some(s)
    else if Enabled(s, calls[0]) then Follow(Apply(s, calls[0]), calls[1..])
    else None
  }

  lemma FollowStep(s: State, c: Call, rest: seq<Call>)
    requires Enabled(s, c)
    ensures Follow(s, [c] + rest) == Follow(Apply(s, c), rest)
  {
    assert ([c] + rest)[1..] == rest;
  }

  lemma WholeLine(was: string, open: bool)
    requires WellFormed(was)
    ensures Truncate(Overwrite(was, Line(open)[..|Line(open)|]), |Line(open)|) == Line(open)
  {
    HeadIsWhole(was);
    CutWrite(was, open, |Line(open)|);
  }

  /** The calls of one operator that nothing interrupts: up to the check of the old contents, and after it. */
  function LockAndCheck(o: nat, open: bool): seq<Call> { [OperatorStart(o, open), OperatorLock(o), OperatorCheck(o)] }

  function WriteAndRelease(o: nat, open: bool): seq<Call> {
    [OperatorWrite(o, |Line(open)|), OperatorTruncate(o), OperatorRelease(o)]
  }

  /** No process holds the lock, and this operator is not at work. */
  predicate FreeFor(s: State, o: nat) {
    s.file.Some? && s.exclusive.None? && s.shared == {} && OperatorOf(s, o) == Idle
  }

  lemma CheckedGate(s: State, o: nat, open: bool) returns (t: State)
    requires Safe(s) && FreeFor(s, o)
    ensures Follow(s, LockAndCheck(o, open)) == Some(t) && t.file == s.file
    ensures WellFormed(s.file.value) ==> OperatorOf(t, o) == Checked(open) && t.exclusive == Some(o)
    ensures !WellFormed(s.file.value) ==> OperatorOf(t, o) == Idle && t.exclusive.None?
  {
    var started := Apply(s, OperatorStart(o, open));
    var locked := Apply(started, OperatorLock(o));
    t := Apply(locked, OperatorCheck(o));
    FollowStep(s, OperatorStart(o, open), [OperatorLock(o), OperatorCheck(o)]);
    FollowStep(started, OperatorLock(o), [OperatorCheck(o)]);
    FollowStep(locked, OperatorCheck(o), []);
    assert LockAndCheck(o, open) == [OperatorStart(o, open)] + [OperatorLock(o), OperatorCheck(o)];
  }

  lemma WrittenGate(s: State, o: nat, open: bool)
    requires OperatorOf(s, o) == Checked(open) && s.exclusive == Some(o) && s.file.Some? && WellFormed(s.file.value)
    ensures var t := Follow(s, WriteAndRelease(o, open));
      t.Some? && t.value.file == Some(Line(open)) && t.value.exclusive.None? && OperatorOf(t.value, o) == Idle
  {
    var n := |Line(open)|;
    var written := Apply(s, OperatorWrite(o, n));
    var truncated := Apply(written, OperatorTruncate(o));
    WholeLine(s.file.value, open);
    FollowStep(s, OperatorWrite(o, n), [OperatorTruncate(o), OperatorRelease(o)]);
    FollowStep(written, OperatorTruncate(o), [OperatorRelease(o)]);
    FollowStep(truncated, OperatorRelease(o), []);
    assert WriteAndRelease(o, open) == [OperatorWrite(o, n)] + [OperatorTruncate(o), OperatorRelease(o)];
  }

  /** An operator nothing interrupts does in the protocol what `GateFile.SetState` does to the file alone: it writes
      the line over a well-formed gate, leaves any other as it was, and gives the lock back. */
  lemma UninterruptedSetState(s: State, o: nat, open: bool) returns (checked: State)
    requires Safe(s) && FreeFor(s, o)
    ensures Follow(s, LockAndCheck(o, open)) == Some(checked)
    ensures WellFormed(s.file.value) ==>
              var t := Follow(checked, WriteAndRelease(o, open));
              t.Some? && t.value.file == Some(Line(open)) && t.value.exclusive.None? && OperatorOf(t.value, o) == Idle
    ensures !WellFormed(s.file.value) ==>
              checked.file == s.file && checked.exclusive.None? && OperatorOf(checked, o) == Idle
  {
    checked := CheckedGate(s, o, open);
    if WellFormed(s.file.value) {
      WrittenGate(checked, o, open);
    }
  }
}
