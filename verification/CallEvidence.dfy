/** Input evidence and receipts of packages/contracts/domain_call_admission.py. */
module CallEvidence {
  import opened Outcomes
  import opened Ordering
  import opened Digests
  import opened Utf8
  import opened CanonicalJson

  /** The digest of canonical bytes. */
  type ByteDigest = Digest<seq<byte>>

  const VALIDATE := "byq_strategy_validate"
  const CREATE := "byq_ml_strategy_create"
  const FACTOR := "byq_factor_compute"
  const VERSION := "byq_strategy_version_create"
  const ACTIONS := {VALIDATE, CREATE, FACTOR, VERSION}

  const RUN := "agent_run_id"
  const KEY := "idempotency_key"
  const TASK := "task_id"
  const TRACE := "trace_id"

  function LimitsOf(action: string): Limits {
    if action == FACTOR then Limits(4 * 1024 * 1024, 131072) else Limits(256 * 1024, 8192)
  }

  /** What `str.strip` removes. */
  predicate IsSpace(c: char) {
    var n := c as int;
    9 <= n <= 13 || 28 <= n <= 32 || n in {0x85, 0xA0, 0x1680, 0x2028, 0x2029, 0x202F, 0x205F, 0x3000}
    || 0x2000 <= n <= 0x200A
  }

  predicate IsControl(c: char) { c as int < 32 || c as int == 127 }

  predicate IdentityText(s: string) {
    1 <= |s| <= 128 && !IsSpace(s[0]) && !IsSpace(s[|s| - 1]) && forall c <- s :: !IsControl(c)
  }

  predicate IdentityValue(v: Json) { v.Str? && IdentityText(v.s) }

  function Required(action: string): set<string> {
    if action == FACTOR then
      {TASK, RUN, KEY, "as_of_date", "factor", "securities", "sessions", "bars", "universe_snapshots", "sources"}
    else if action == VERSION then {TASK, RUN, KEY, "draft_artifact_id"}
    else {TASK, RUN, KEY, "strategy"}
  }

  function Allowed(action: string): set<string> {
    Required(action) + {"experiment_id", TRACE} + (if action == FACTOR then {"statuses"} else {})
  }

  datatype Evidence = Evidence(
    action: string, task: string, run: string, key: string, request: ByteDigest, input: ByteDigest)

  /** The hashed pair of the action and its fields. */
  function Subject(action: string, fields: map<string, Json>): Json { Arr([Str(action), Obj(fields)]) }

  function Effective(payload: map<string, Json>, trace: string): map<string, Json> { payload[TRACE := Str(trace)] }

  /** Run and key are replay identities, not content. */
  function Content(payload: map<string, Json>, trace: string): map<string, Json> {
    Effective(payload, trace) - {RUN, KEY}
  }

  function Hashed(v: Json, limits: Limits): Result<ByteDigest> {
    if Accepted(v, limits) then Ok(Sha256(CanonicalForm(v)))
    else Err("private call input cannot be canonicalised")
  }

  function RequestEvidence(action: string, payload: Json, trace: Json): Result<Evidence> {
    if action !in ACTIONS || !payload.Obj? then Err("unsupported domain call")
    else if !(Required(action) <= payload.m.Keys <= Allowed(action)) then Err("exact domain call references required")
    else
      var m := payload.m;
      if !(IdentityValue(m[TASK]) && IdentityValue(m[RUN]) && IdentityValue(m[KEY]) && IdentityValue(trace)) then
        Err("invalid private call identity")
      else
        var request := Hashed(Subject(action, Effective(m, trace.s)), LimitsOf(action));
        var input := Hashed(Subject(action, Content(m, trace.s)), LimitsOf(action));
        if request.Err? then Err(request.error)
        else if input.Err? then Err(input.error)
        else Ok(Evidence(action, m[TASK].s, m[RUN].s, m[KEY].s, request.value, input.value))
  }

  lemma SubjectSame(a: string, x: map<string, Json>, b: string, y: map<string, Json>)
    ensures Same(Subject(a, x), Subject(b, y)) <==> a == b && Same(Obj(x), Obj(y))
  {
    var s, t := Subject(a, x).items, Subject(b, y).items;
    assert s[0] == Str(a) && t[0] == Str(b) && s[1] == Obj(x) && t[1] == Obj(y);
    assert Same(Subject(a, x), Subject(b, y)) <==> forall i :: 0 <= i < 2 ==> Same(s[i], t[i]);
  }

  lemma HashedExact(a: string, x: map<string, Json>, b: string, y: map<string, Json>, l: Limits, k: Limits)
    requires Hashed(Subject(a, x), l).Ok? && Hashed(Subject(b, y), k).Ok?
    ensures Hashed(Subject(a, x), l).value == Hashed(Subject(b, y), k).value <==> a == b && Same(Obj(x), Obj(y))
  {
    CanonicalExact(Subject(a, x), Subject(b, y), l, k);
    SubjectSame(a, x, b, y);
  }

  predicate Identified(m: map<string, Json>) {
    (TASK in m && m[TASK].Str?) && (RUN in m && m[RUN].Str?) && (KEY in m && m[KEY].Str?)
  }

  lemma EvidenceParts(a: string, p: Json, t: Json)
    requires RequestEvidence(a, p, t).Ok?
    ensures p.Obj? && t.Str? && Identified(p.m)
    ensures Hashed(Subject(a, Effective(p.m, t.s)), LimitsOf(a)).Ok?
    ensures Hashed(Subject(a, Content(p.m, t.s)), LimitsOf(a)).Ok?
    ensures RequestEvidence(a, p, t).value
            == Evidence(a, p.m[TASK].s, p.m[RUN].s, p.m[KEY].s,
                        Hashed(Subject(a, Effective(p.m, t.s)), LimitsOf(a)).value,
                        Hashed(Subject(a, Content(p.m, t.s)), LimitsOf(a)).value)
  {
  }

  /** Inputs have the same digest exactly when the action and everything but run and key have the same meaning. */
  lemma InputDigestExact(a: string, p: Json, t: Json, b: string, q: Json, u: Json)
    requires RequestEvidence(a, p, t).Ok? && RequestEvidence(b, q, u).Ok?
    ensures RequestEvidence(a, p, t).value.input == RequestEvidence(b, q, u).value.input
            <==> a == b && Same(Obj(Content(p.m, t.s)), Obj(Content(q.m, u.s)))
  {
    EvidenceParts(a, p, t);
    EvidenceParts(b, q, u);
    HashedExact(a, Content(p.m, t.s), b, Content(q.m, u.s), LimitsOf(a), LimitsOf(b));
  }

  /** Changing the run and the key of a call leaves the input digest alone. */
  lemma ReplayKeepsInput(a: string, p: Json, t: Json, run: string, key: string)
    requires p.Obj?
    requires RequestEvidence(a, p, t).Ok?
    requires RequestEvidence(a, Obj(p.m[RUN := Str(run)][KEY := Str(key)]), t).Ok?
    ensures RequestEvidence(a, Obj(p.m[RUN := Str(run)][KEY := Str(key)]), t).value.input
            == RequestEvidence(a, p, t).value.input
  {
    var other := p.m[RUN := Str(run)][KEY := Str(key)];
    EvidenceParts(a, p, t);
    EvidenceParts(a, Obj(other), t);
    assert Content(other, t.s) == Content(p.m, t.s);
  }

  lemma SameIdentity(m: map<string, Json>, t: string, n: map<string, Json>, u: string)
    requires Identified(m) && Identified(n) && Same(Obj(Effective(m, t)), Obj(Effective(n, u)))
    ensures m[TASK] == n[TASK] && m[RUN] == n[RUN] && m[KEY] == n[KEY] && t == u
  {
    var x, y := Effective(m, t), Effective(n, u);
    FieldsMeanTheSame(x, y, TASK);
    FieldsMeanTheSame(x, y, RUN);
    FieldsMeanTheSame(x, y, KEY);
    FieldsMeanTheSame(x, y, TRACE);
  }

  /** A request digest fixes the whole evidence: the action, the task, the run, the key and the input. */
  lemma RequestDigestBinds(a: string, p: Json, t: Json, b: string, q: Json, u: Json)
    requires RequestEvidence(a, p, t).Ok? && RequestEvidence(b, q, u).Ok?
    requires RequestEvidence(a, p, t).value.request == RequestEvidence(b, q, u).value.request
    ensures RequestEvidence(a, p, t) == RequestEvidence(b, q, u) && t == u
  {
    EvidenceParts(a, p, t);
    EvidenceParts(b, q, u);
    HashedExact(a, Effective(p.m, t.s), b, Effective(q.m, u.s), LimitsOf(a), LimitsOf(b));
    SameIdentity(p.m, t.s, q.m, u.s);
    ContentSame(Effective(p.m, t.s), Effective(q.m, u.s));
    HashedExact(a, Content(p.m, t.s), b, Content(q.m, u.s), LimitsOf(a), LimitsOf(b));
  }

  lemma FieldsMeanTheSame(x: map<string, Json>, y: map<string, Json>, k: string)
    requires Same(Obj(x), Obj(y)) && k in x && x[k].Str?
    ensures k in y && x[k] == y[k]
  {
    assert Same(x[k], y[k]);
  }

  lemma ContentSame(x: map<string, Json>, y: map<string, Json>)
    requires Same(Obj(x), Obj(y))
    ensures Same(Obj(x - {RUN, KEY}), Obj(y - {RUN, KEY}))
  {
    var s, t := x - {RUN, KEY}, y - {RUN, KEY};
    assert s.Keys == t.Keys;
    forall k | k in s ensures Same(s[k], t[k]) {
      assert Same(x[k], y[k]);
    }
  }

  // ----- leaving fields out keeps a call acceptable -----

  /** The bytes a tree takes. */
  function Size(t: Tree): nat { |Encode(Print(t))| }

  function SizeOfMore(cells: seq<Tree>): nat { |Encode(PrintMore(cells))| }

  lemma {:induction false} EncodeConcat(s: string, t: string)
    ensures |Encode(s + t)| == |Encode(s)| + |Encode(t)|
  {
    if s == "" {
      assert s + t == t;
    } else {
      EncodeConcat(s[1..], t);
      assert (s + t)[0] == s[0] && (s + t)[1..] == s[1..] + t;
    }
  }

  lemma SizeOfNext(cell: Tree, cells: seq<Tree>)
    ensures SizeOfMore([cell] + cells) == 1 + Size(cell) + SizeOfMore(cells)
    ensures SizeOfMore([]) == 1 && SizeOfMore(cells) >= 1
  {
    assert ([cell] + cells)[1..] == cells;
    EncodeConcat(",", Print(cell) + PrintMore(cells));
    EncodeConcat(Print(cell), PrintMore(cells));
    MoreIsNotEmpty(cells);
  }

  lemma MoreIsNotEmpty(cells: seq<Tree>)
    ensures SizeOfMore(cells) >= 1 && SizeOfMore([]) == 1
  {
    EncodeConcat(PrintMore(cells)[..1], PrintMore(cells)[1..]);
    assert PrintMore(cells) == PrintMore(cells)[..1] + PrintMore(cells)[1..];
  }

  lemma SizeOfRow(cells: seq<Tree>)
    ensures Size(Row(cells)) == 1 + SizeOfMore(cells) - (if cells == [] then 0 else 1)
  {
    EncodeConcat("[", PrintCells(cells));
    if cells != [] {
      EncodeConcat(",", PrintCells(cells));
      assert PrintMore(cells) == "," + PrintCells(cells);
    }
  }

  lemma SizeOfPair(a: Tree, b: Tree)
    ensures Size(Row([a, b])) == Size(a) + Size(b) + 3
  {
    SizeOfRow([a, b]);
    assert [a, b] == [a] + [b] && [b] == [b] + [];
    SizeOfNext(a, [b]);
    SizeOfNext(b, []);
  }

  /** One ascending key list within another. */
  predicate KeysWithin(ls: seq<string>, ks: seq<string>) {
    Ascending(ls) && Ascending(ks) && forall l <- ls :: l in ks
  }

  lemma KeysWithinStep(ls: seq<string>, ks: seq<string>)
    requires KeysWithin(ls, ks) && ls != []
    ensures ks != []
    ensures ls[0] == ks[0] ==> KeysWithin(ls[1..], ks[1..])
    ensures ls[0] != ks[0] ==> KeysWithin(ls, ks[1..])
  {
    StringOrder();
    assert ls[0] in ks;
    if ls[0] == ks[0] {
      assert forall l <- ls[1..] :: l in ls && l != ls[0];
    } else {
      var i :| 0 <= i < |ks| && ks[i] == ls[0];
      forall j | 0 <= j < |ls| ensures ls[j] != ks[0] {
        assert StrLe(ks[0], ls[0]) && (j > 0 ==> StrLe(ls[0], ls[j]));
      }
    }
  }

  /** Fewer fields: no more nodes and no more bytes. */
  lemma {:induction false} FewerFields(x: Json, ks: seq<string>, y: Json, ls: seq<string>)
    requires x.Obj? && y.Obj? && KeysWithin(ls, ks)
    requires (forall k <- ks :: k in x.m) && forall l <- ls :: l in y.m && l in x.m && y.m[l] == x.m[l]
    ensures NodesOfFields(y, ls) <= NodesOfFields(x, ks)
    ensures SizeOfMore(TaggedFields(y, ls)) <= SizeOfMore(TaggedFields(x, ks))
    decreases |ks|
  {
    if ls == [] {
      MoreIsNotEmpty(TaggedFields(x, ks));
    } else {
      KeysWithinStep(ls, ks);
      var row := FieldRow(ks[0], x.m[ks[0]]);
      SizeOfNext(row, TaggedFields(x, ks[1..]));
      if ls[0] == ks[0] {
        FewerFields(x, ks[1..], y, ls[1..]);
        SizeOfNext(row, TaggedFields(y, ls[1..]));
      } else {
        FewerFields(x, ks[1..], y, ls);
      }
    }
  }

  lemma SizeOfLabelled(cells: seq<Tree>)
    ensures Size(Row([Word("object"), Row(cells)]))
            == Size(Word("object")) + 4 + SizeOfMore(cells) - (if cells == [] then 0 else 1)
  {
    SizeOfPair(Word("object"), Row(cells));
    SizeOfRow(cells);
  }

  lemma NoFields(x: map<string, Json>)
    ensures TaggedFields(Obj(x), SortedSet(x.Keys)) == [] <==> x == map[]
  {
    FieldsAt(Obj(x), SortedSet(x.Keys));
    SortedSetLength(x.Keys);
    assert x.Keys == {} <==> x == map[];
  }

  lemma SizeOfObject(x: map<string, Json>)
    ensures Size(Tagged(Obj(x)))
            == Size(Word("object")) + 4 + SizeOfMore(TaggedFields(Obj(x), SortedSet(x.Keys)))
               - (if x == map[] then 0 else 1)
  {
    SizeOfLabelled(TaggedFields(Obj(x), SortedSet(x.Keys)));
    NoFields(x);
    TaggedObject(Obj(x));
  }

  lemma FieldsShrink(x: map<string, Json>, y: map<string, Json>)
    requires y.Keys <= x.Keys && forall k <- y :: y[k] == x[k]
    ensures NodeCount(Obj(y)) <= NodeCount(Obj(x))
    ensures SizeOfMore(TaggedFields(Obj(y), SortedSet(y.Keys))) <= SizeOfMore(TaggedFields(Obj(x), SortedSet(x.Keys)))
  {
    FewerFields(Obj(x), SortedSet(x.Keys), Obj(y), SortedSet(y.Keys));
  }

  lemma ObjectShrinks(x: map<string, Json>, y: map<string, Json>)
    requires y.Keys <= x.Keys && forall k <- y :: y[k] == x[k]
    ensures NodeCount(Obj(y)) <= NodeCount(Obj(x))
    ensures Size(Tagged(Obj(y))) <= Size(Tagged(Obj(x)))
  {
    SizeOfObject(x);
    SizeOfObject(y);
    FieldsShrink(x, y);
    if y == map[] && x != map[] {
      SizeOfFirst(x);
      MoreOfNothing(y);
    }
  }

  lemma SizeOfFirst(x: map<string, Json>)
    requires x != map[]
    ensures SizeOfMore(TaggedFields(Obj(x), SortedSet(x.Keys))) >= 2
  {
    var keys := SortedSet(x.Keys);
    assert exists k :: k in x;
    var k :| k in x;
    assert k in keys;
    SizeOfNext(FieldRow(keys[0], x[keys[0]]), TaggedFields(Obj(x), keys[1..]));
  }

  lemma MoreOfNothing(y: map<string, Json>)
    requires y == map[]
    ensures SizeOfMore(TaggedFields(Obj(y), SortedSet(y.Keys))) == 1
  {
    assert y.Keys == {};
    MoreIsNotEmpty([]);
  }

  lemma PairOfItems(u: Json, v: Json)
    ensures NodesOfItems([u, v]) == NodeCount(u) + NodeCount(v)
    ensures TaggedItems([u, v]) == [Tagged(u), Tagged(v)]
  {
    assert [u, v][1..] == [v] && [v][1..] == [];
    assert NodesOfItems([v]) == NodeCount(v) + NodesOfItems([]);
    assert TaggedItems([v]) == [Tagged(v)] + TaggedItems([]);
    assert TaggedItems([u, v]) == [Tagged(u)] + TaggedItems([v]);
  }

  lemma SubjectShape(a: string, x: map<string, Json>)
    ensures NodeCount(Subject(a, x)) == 2 + NodeCount(Obj(x))
    ensures Tagged(Subject(a, x)) == Row([Word("array"), Row([Tagged(Str(a)), Tagged(Obj(x))])])
  {
    PairOfItems(Str(a), Obj(x));
  }

  lemma SubjectSize(a: string, x: map<string, Json>)
    ensures |CanonicalForm(Subject(a, x))| == Size(Word("array")) + Size(Tagged(Str(a))) + Size(Tagged(Obj(x))) + 6
  {
    SubjectShape(a, x);
    SizeOfPair(Tagged(Str(a)), Tagged(Obj(x)));
    SizeOfPair(Word("array"), Row([Tagged(Str(a)), Tagged(Obj(x))]));
  }

  lemma SubjectFits(a: string, x: map<string, Json>)
    ensures Fits(Subject(a, x), 0) <==> Fits(Obj(x), 1)
  {
    var v := Subject(a, x);
    assert v.items[0] == Str(a) && v.items[1] == Obj(x);
    PairFits(v, Str(a), Obj(x));
  }

  lemma PairFits(v: Json, first: Json, second: Json)
    requires v == Arr([first, second]) && Fits(first, 1)
    ensures Fits(v, 0) <==> Fits(second, 1)
  {
    assert first in v.items && second in v.items;
    assert forall x <- v.items :: x == first || x == second;
    assert Sound(v) <==> Sound(second);
    assert Within(v, MAX_DEPTH) <==> Within(second, MAX_DEPTH - 1);
  }

  lemma FewerFieldsFit(x: map<string, Json>, y: map<string, Json>)
    requires y.Keys <= x.Keys && (forall k <- y :: y[k] == x[k]) && Fits(Obj(x), 1)
    ensures Fits(Obj(y), 1)
  {
  }

  lemma SubjectShrinks(a: string, x: map<string, Json>, y: map<string, Json>, limits: Limits)
    requires y.Keys <= x.Keys && (forall k <- y :: y[k] == x[k]) && Accepted(Subject(a, x), limits)
    ensures Accepted(Subject(a, y), limits)
  {
    SubjectFits(a, x);
    SubjectFits(a, y);
    FewerFieldsFit(x, y);
    ObjectShrinks(x, y);
    SubjectShape(a, x);
    SubjectShape(a, y);
    SubjectSize(a, x);
    SubjectSize(a, y);
  }

  /** The references a call must carry. */
  predicate Referenced(action: string, payload: Json, trace: Json) {
    && action in ACTIONS && payload.Obj? && Required(action) <= payload.m.Keys <= Allowed(action)
    && IdentityValue(payload.m[TASK]) && IdentityValue(payload.m[RUN]) && IdentityValue(payload.m[KEY])
    && IdentityValue(trace)
  }

  /** Evidence exists exactly for a referenced call whose request is acceptable: hashing the input cannot fail then. */
  lemma RequestEvidenceExact(action: string, payload: Json, trace: Json)
    ensures RequestEvidence(action, payload, trace).Ok?
            <==> Referenced(action, payload, trace)
                 && Accepted(Subject(action, Effective(payload.m, trace.s)), LimitsOf(action))
  {
    if Referenced(action, payload, trace)
       && Accepted(Subject(action, Effective(payload.m, trace.s)), LimitsOf(action)) {
      SubjectShrinks(action, Effective(payload.m, trace.s), Content(payload.m, trace.s), LimitsOf(action));
    }
  }
}
