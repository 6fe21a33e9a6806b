/** The receipt of an observed call: `validate_call_evidence` and `call_evidence_receipt`. */
module CallReceipt {
  import opened Outcomes
  import opened Ordering
  import opened JsonText
  import opened Decimals
  import opened Digests
  import opened Doubles
  import opened Utf8
  import opened CanonicalJson
  import opened CallEvidence

  datatype Observed = Observed(
    schema: string, sequence: int, root: string, generation: string, call: string, action: string,
    task: string, run: string, key: string, request: string, input: string)

  datatype Receipt = Receipt(sequence: int, root: string, event: ByteDigest)

  predicate Valid(o: Observed) {
    && o.schema == "domain-call-observed.v1" && o.action in ACTIONS
    && 1 <= o.sequence < 0x8000000000000000
    && IsHex(o.root, 32) && IsHex(o.request, 64) && IsHex(o.input, 64)
    && IdentityText(o.generation) && IdentityText(o.call) && IdentityText(o.task)
    && IdentityText(o.run) && IdentityText(o.key)
  }

  function Fields(o: Observed): map<string, Json> {
    map["schema_version" := Str(o.schema), "sequence" := Int(o.sequence), "root_run_id" := Str(o.root),
        "generation" := Str(o.generation), "call_id" := Str(o.call), "action" := Str(o.action), TASK := Str(o.task),
        RUN := Str(o.run), KEY := Str(o.key), "request_sha256" := Str(o.request), "input_sha256" := Str(o.input)]
  }

  /** The receipt uses the default limits, whatever the action. */
  function ReceiptOf(o: Observed): Result<Receipt> {
    if !Valid(o) then Err("invalid private domain call evidence")
    else
      var event := Hashed(Obj(Fields(o)), LimitsOf(VALIDATE));
      if event.Err? then Err(event.error) else Ok(Receipt(o.sequence, o.root, event.value))
  }

  /** A receipt's event digest determines the evidence. */
  lemma ReceiptInjective(o: Observed, p: Observed)
    requires ReceiptOf(o).Ok? && ReceiptOf(p).Ok? && ReceiptOf(o).value.event == ReceiptOf(p).value.event
    ensures o == p
  {
    CanonicalExact(Obj(Fields(o)), Obj(Fields(p)), LimitsOf(VALIDATE), LimitsOf(VALIDATE));
    SameFields(o, p);
  }

  lemma SameFields(o: Observed, p: Observed)
    requires Same(Obj(Fields(o)), Obj(Fields(p)))
    ensures o == p
  {
    var x, y := Fields(o), Fields(p);
    assert Same(x["sequence"], y["sequence"]);
    assert o.sequence as real == p.sequence as real;
    SameNames(x, y);
    FieldsMeanTheSame(x, y, "schema_version");
    FieldsMeanTheSame(x, y, "root_run_id");
    FieldsMeanTheSame(x, y, "request_sha256");
    FieldsMeanTheSame(x, y, "input_sha256");
  }

  /** The five identities of an evidence. */
  lemma SameNames(x: map<string, Json>, y: map<string, Json>)
    requires Same(Obj(x), Obj(y)) && forall k <- IDENTITIES :: k in x && x[k].Str?
    ensures forall k <- IDENTITIES :: k in y && x[k] == y[k]
  {
    forall k | k in IDENTITIES ensures k in y && x[k] == y[k] {
      FieldsMeanTheSame(x, y, k);
    }
  }

  const IDENTITIES := {"generation", "call_id", "action", TASK, RUN, KEY}

  // ----- every valid evidence within the safe integers has a receipt -----

  /** A short string or a number. */
  predicate Small(v: Json) { (v.Str? && |v.s| <= 128) || v.Int? }

  lemma {:induction false} EncodeLength(s: string)
    ensures |Encode(s)| <= 4 * |s|
  {
    if s != "" {
      EncodeLength(s[1..]);
    }
  }

  lemma {:induction false} EscapeLength(s: string)
    ensures |EscapeAll(s)| <= 6 * |s|
  {
    if s != "" {
      EscapeLength(s[1..]);
    }
  }

  lemma WordLength(s: string)
    requires |s| <= 128
    ensures |Print(Word(s))| <= 770
  {
    EscapeLength(s);
  }

  lemma SmallDecimal(n: nat)
    requires n < 10000
    ensures |Decimal(n)| <= 4
  {
    assert n / 10 < 1000 && n / 10 / 10 < 100 && n / 10 / 10 / 10 < 10;
    assert |Decimal(n / 10 / 10 / 10)| == 1;
    assert |Decimal(n / 10 / 10)| <= 2;
  }

  lemma NumberLength(n: int)
    ensures |NumberText(Int(n))| <= 128
  {
    if SafeNumber(Int(n)) {
      var d := FromInt(n);
      var x := Scale(d) + 52;
      SmallDecimal(if x < 0 then -x else x);
    }
  }

  lemma TwoCells(a: Tree, b: Tree)
    ensures |Print(Row([a, b]))| == |Print(a)| + |Print(b)| + 3
  {
    var cells := [a, b];
    assert cells[1..] == [b] && cells[1..][1..] == [];
    assert |PrintMore([b])| == 2 + |Print(b)|;
  }

  /** A tag and a word, as `["string","..."]`. */
  lemma PairLength(tag: string, text: string)
    requires |tag| <= 10 && |text| <= 128
    ensures |Print(Row([Word(tag), Word(text)]))| <= 850
  {
    EscapeLength(tag);
    WordLength(text);
    TwoCells(Word(tag), Word(text));
  }

  lemma FieldLength(key: string, child: Json)
    requires |key| <= 128 && Small(child)
    ensures |Print(FieldRow(key, child))| <= 1800
  {
    PairLength("string", key);
    if child.Int? {
      NumberLength(child.n);
      PairLength("number", NumberText(child));
    } else {
      PairLength("string", child.s);
    }
    TwoCells(Row([Word("string"), Word(key)]), Tagged(child));
  }

  predicate SmallObject(v: Json) { v.Obj? && forall k <- v.m :: |k| <= 128 && Small(v.m[k]) }

  lemma {:induction false} FieldsLength(v: Json, keys: seq<string>)
    requires SmallObject(v) && forall k <- keys :: k in v.m
    ensures |PrintMore(TaggedFields(v, keys))| <= 1 + 1801 * |keys|
    decreases |keys|
  {
    if keys != [] {
      FieldsLength(v, keys[1..]);
      FieldLength(keys[0], v.m[keys[0]]);
      var cells := TaggedFields(v, keys);
      assert cells[0] == FieldRow(keys[0], v.m[keys[0]]) && cells[1..] == TaggedFields(v, keys[1..]);
    }
  }

  lemma CellsLength(cells: seq<Tree>)
    ensures |PrintCells(cells)| <= |PrintMore(cells)|
  {
  }

  lemma {:induction false} SmallNodes(v: Json, keys: seq<string>)
    requires SmallObject(v) && forall k <- keys :: k in v.m
    ensures NodesOfFields(v, keys) == 2 * |keys|
    decreases |keys|
  {
    if keys != [] {
      SmallNodes(v, keys[1..]);
    }
  }

  lemma ObjectLength(cells: seq<Tree>)
    ensures |Print(Row([Word("object"), Row(cells)]))| <= 50 + |PrintMore(cells)|
  {
    CellsLength(cells);
    EscapeLength("object");
    TwoCells(Word("object"), Row(cells));
  }

  lemma SmallObjectBytes(v: Json)
    requires SmallObject(v) && |v.m.Keys| <= 20
    ensures |CanonicalForm(v)| <= 256 * 1024
  {
    SmallObjectText(v);
    EncodeLength(Print(Tagged(v)));
  }

  lemma SmallObjectText(v: Json)
    requires SmallObject(v) && |v.m.Keys| <= 20
    ensures |Print(Tagged(v))| <= 36071
  {
    SortedSetLength(v.m.Keys);
    FieldsLength(v, SortedSet(v.m.Keys));
    TaggedObject(v);
    ObjectLength(TaggedFields(v, SortedSet(v.m.Keys)));
  }

  lemma SmallObjectNodes(v: Json)
    requires SmallObject(v) && |v.m.Keys| <= 20
    ensures NodeCount(v) <= 41
  {
    SortedSetLength(v.m.Keys);
    SmallNodes(v, SortedSet(v.m.Keys));
  }

  lemma SmallObjectWithin(v: Json)
    requires SmallObject(v)
    ensures Within(v, MAX_DEPTH)
  {
    forall k | k in v.m ensures Within(v.m[k], MAX_DEPTH - 1) {
      assert Small(v.m[k]);
    }
  }

  /** A small object fits the default limits; only an unsafe number can keep it out. */
  lemma SmallObjectAccepted(v: Json, limits: Limits)
    requires SmallObject(v) && |v.m.Keys| <= 20 && limits.bytes >= 256 * 1024 && limits.nodes >= 41
    ensures Accepted(v, limits) <==> Sound(v)
  {
    SmallObjectBytes(v);
    SmallObjectNodes(v);
    SmallObjectWithin(v);
  }

  const NAMES := {"schema_version", "sequence", "root_run_id", "generation", "call_id", "action", TASK, RUN, KEY,
                  "request_sha256", "input_sha256"}

  lemma NamesCount()
    ensures |NAMES| <= 20
  {
    var some := {"schema_version", "sequence", "root_run_id", "generation", "call_id", "action"};
    var more := {TASK, RUN, KEY, "request_sha256", "input_sha256"};
    assert |some| <= 6 && |more| <= 5;
    assert NAMES == some + more;
    UnionAtMost(some, more);
  }

  lemma UnionAtMost(a: set<string>, b: set<string>)
    ensures |a + b| <= |a| + |b|
  {
    assert |a + b| + |a * b| == |a| + |b|;
  }

  lemma ShortNames()
    ensures forall k <- NAMES :: |k| <= 128
  {
  }

  lemma FieldNames(o: Observed)
    ensures Fields(o).Keys == NAMES
  {
  }

  lemma SmallTexts(o: Observed)
    requires Valid(o)
    ensures forall k <- Fields(o) :: Small(Fields(o)[k])
  {
    assert forall a <- ACTIONS :: |a| <= 128;
    assert Small(Str(o.schema)) && Small(Str(o.action)) && Small(Str(o.root)) && Small(Str(o.generation));
    assert Small(Str(o.call)) && Small(Str(o.task)) && Small(Str(o.run)) && Small(Str(o.key));
    assert Small(Str(o.request)) && Small(Str(o.input)) && Small(Int(o.sequence));
  }

  lemma ShortFields(o: Observed)
    requires Valid(o)
    ensures SmallObject(Obj(Fields(o))) && |Fields(o).Keys| <= 20
  {
    NamesCount();
    ShortNames();
    FieldNames(o);
    SmallTexts(o);
    SmallObjectOf(Fields(o));
  }

  lemma SmallObjectOf(m: map<string, Json>)
    requires (forall k <- m.Keys :: |k| <= 128) && forall k <- m :: Small(m[k])
    ensures SmallObject(Obj(m))
  {
  }

  lemma FieldsSound(o: Observed)
    ensures Sound(Obj(Fields(o))) <==> SafeNumber(Int(o.sequence))
  {
    var m := Fields(o);
    assert m["sequence"] == Int(o.sequence);
    assert forall k <- m :: k != "sequence" ==> m[k].Str?;
  }

  lemma ReceiptNeedsAccepted(o: Observed)
    requires Valid(o)
    ensures ReceiptOf(o).Ok? <==> Accepted(Obj(Fields(o)), LimitsOf(VALIDATE))
  {
  }

  lemma FieldsAccepted(o: Observed)
    requires Valid(o)
    ensures Accepted(Obj(Fields(o)), LimitsOf(VALIDATE)) <==> Sound(Obj(Fields(o)))
  {
    ShortFields(o);
    SmallObjectAccepted(Obj(Fields(o)), LimitsOf(VALIDATE));
  }

  lemma ReceiptNeedsSound(o: Observed)
    requires Valid(o)
    ensures ReceiptOf(o).Ok? <==> Sound(Obj(Fields(o)))
  {
    FieldsAccepted(o);
    ReceiptNeedsAccepted(o);
  }

  /**
   * Valid evidence has a receipt exactly when its sequence is a safe integer: the validator lets sequences up to
   * 2 ** 63 - 1 through, the canonical form only those up to 2 ** 53 - 1.
   */
  lemma ReceiptExact(o: Observed)
    requires Valid(o)
    ensures ReceiptOf(o).Ok? <==> o.sequence <= MAX_SAFE
  {
    ReceiptNeedsSound(o);
    FieldsSound(o);
  }

  /** The first sequence past the safe integers: valid evidence without a receipt. */
  lemma UnsafeSequenceHasNoReceipt() returns (o: Observed)
    ensures Valid(o) && o.sequence == MAX_SAFE + 1 && ReceiptOf(o).Err?
  {
    var hex := seq(64, i => '0');
    var root := seq(32, i => '0');
    o := Observed("domain-call-observed.v1", MAX_SAFE + 1, root, "g", "c", VALIDATE, "t", "r", "k", hex, hex);
    ReceiptExact(o);
  }
}
