/** The canonical form of packages/contracts/domain_call_admission.py, hashed by both sides of a call. */
module CanonicalJson {
  import opened Outcomes
  import opened Ordering
  import opened JsonText
  import opened Utf8
  import opened Doubles

  /**
   * What reaches `_canonical`. `NonFinite` stands for the infinities and NaN, `Foreign` for any value that is
   * not JSON, a dictionary with a key that is not a string included.
   */
  datatype Json =
    | Null
    | Bool(b: bool)
    | Int(n: int)
    | Float(d: Double)
    | NonFinite
    | Str(s: string)
    | Arr(items: seq<Json>)
    | Obj(m: map<string, Json>)
    | Foreign

  /** The tagged tree handed to `json.dumps`. */
  datatype Tree = Word(s: string) | Flag(b: bool) | Row(cells: seq<Tree>)

  const MAX_DEPTH := 24

  // ----- the tagged tree -----

  predicate IsNumber(v: Json) { v.Int? || v.Float? || v.NonFinite? }

  predicate SafeNumber(v: Json) {
    (v.Int? && -MAX_SAFE <= v.n <= MAX_SAFE)
    || (v.Float? && -(MAX_SAFE as real) <= RealOf(v.d) <= MAX_SAFE as real)
  }

  /** The real number a JSON number spells. */
  function NumberValue(v: Json): real { if v.Int? then v.n as real else if v.Float? then RealOf(v.d) else 0.0 }

  function NumberText(v: Json): string {
    if v.Int? && SafeNumber(v) then HexText(FromInt(v.n))
    else if v.Float? then HexText(if IsZero(v.d) then ZERO else v.d)
    else ""
  }

  /** Every number can be represented safely, and everything is JSON. */
  predicate Sound(v: Json) {
    match v
    case Arr(items) => forall x <- items :: Sound(x)
    case Obj(m) => forall k <- m :: Sound(m[k])
    case Foreign => false
    case _ => IsNumber(v) ==> SafeNumber(v)
  }

  function Tagged(v: Json): Tree
    decreases v, 1, 0
  {
    match v
    case Null => Row([Word("null")])
    case Bool(b) => Row([Word("bool"), Flag(b)])
    case Str(s) => Row([Word("string"), Word(s)])
    case Arr(items) => Row([Word("array"), Row(TaggedItems(items))])
    case Obj(m) => Row([Word("object"), Row(TaggedFields(v, SortedSet(m.Keys)))])
    case _ => Row([Word("number"), Word(NumberText(v))])
  }

  function TaggedItems(items: seq<Json>): seq<Tree>
    decreases items, 2, |items|
  {
    if items == [] then [] else [Tagged(items[0])] + TaggedItems(items[1..])
  }

  function TaggedFields(v: Json, keys: seq<string>): seq<Tree>
    requires v.Obj? && forall k <- keys :: k in v.m
    decreases v, 0, |keys|
  {
    if keys == [] then []
    else [Row([Row([Word("string"), Word(keys[0])]), Tagged(v.m[keys[0]])])] + TaggedFields(v, keys[1..])
  }

  // ----- the structural measure the shared counter enforces -----

  /** Nodes of a tree, every key of every object counted. */
  function NodeCount(v: Json): nat
    decreases v, 1, 0
  {
    match v
    case Arr(items) => 1 + NodesOfItems(items)
    case Obj(m) => 1 + NodesOfFields(v, SortedSet(m.Keys))
    case _ => 1
  }

  function NodesOfItems(items: seq<Json>): nat
    decreases items, 2, |items|
  {
    if items == [] then 0 else NodeCount(items[0]) + NodesOfItems(items[1..])
  }

  function NodesOfFields(v: Json, keys: seq<string>): nat
    requires v.Obj? && forall k <- keys :: k in v.m
    decreases v, 0, |keys|
  {
    if keys == [] then 0 else 1 + NodeCount(v.m[keys[0]]) + NodesOfFields(v, keys[1..])
  }

  /** No node lies deeper than `d` below the root; an object's keys are nodes below it. */
  predicate Within(v: Json, d: int)
    decreases v
  {
    d >= 0
    && (v.Arr? ==> forall x <- v.items :: Within(x, d - 1))
    && (v.Obj? ==> forall k <- v.m :: Within(v.m[k], d - 1))
  }

  // ----- the traversal -----

  /** What `visit` returns for anything that is neither a list nor a dictionary. */
  function Leaf(v: Json): (r: Result<Tree>)
    requires !v.Arr? && !v.Obj?
    ensures r.Ok? <==> Sound(v)
    ensures r.Ok? ==> r.value == Tagged(v)
  {
    match v
    case Null => Ok(Row([Word("null")]))
    case Bool(b) => Ok(Row([Word("bool"), Flag(b)]))
    case Str(s) => Ok(Row([Word("string"), Word(s)]))
    case Foreign => Err("private call input is not JSON")
    case _ =>
      if SafeNumber(v) then Ok(Row([Word("number"), Word(NumberText(v))]))
      else Err("private call number cannot be represented safely")
  }

  lemma LeafFits(v: Json, depth: int)
    requires !v.Arr? && !v.Obj?
    ensures Fits(v, depth) <==> Sound(v) && depth <= MAX_DEPTH
    ensures NodeCount(v) == 1
  {
  }

  lemma ItemsFit(v: Json, depth: int)
    requires v.Arr?
    ensures Fits(v, depth) <==> (forall x <- v.items :: Fits(x, depth + 1)) && depth <= MAX_DEPTH
    ensures NodeCount(v) == 1 + NodesOfItems(v.items)
    ensures Tagged(v) == Row([Word("array"), Row(TaggedItems(v.items))])
  {
  }

  lemma TaggedObject(v: Json)
    requires v.Obj?
    ensures Tagged(v) == Row([Word("object"), Row(TaggedFields(v, SortedSet(v.m.Keys)))])
    ensures NodeCount(v) == 1 + NodesOfFields(v, SortedSet(v.m.Keys))
  {
  }

  /** `visit` with its shared counter. */
  class Walker {
    var nodes: nat
    const maxNodes: nat

    constructor (maxNodes: nat)
      ensures nodes == 0 && this.maxNodes == maxNodes
    {
      this.nodes := 0;
      this.maxNodes := maxNodes;
    }

    method Visit(v: Json, depth: nat) returns (r: Result<Tree>)
      modifies this
      ensures r.Ok? <==> Fits(v, depth) && old(nodes) + NodeCount(v) <= maxNodes
      ensures r.Ok? ==> nodes == old(nodes) + NodeCount(v) && r.value == Tagged(v)
      decreases v, 1
    {
      nodes := nodes + 1;
      if nodes > maxNodes || depth > MAX_DEPTH {
        return Err("private call input exceeds structural bound");
      }
      if v.Arr? {
        var cells := VisitItems(v, depth + 1);
        ItemsFit(v, depth);
        if cells.Err? { return Err(cells.error); }
        return Ok(Row([Word("array"), Row(cells.value)]));
      }
      if v.Obj? {
        var keys := SortedSet(v.m.Keys);
        FieldsFit(v, depth);
        var cells := VisitFields(v, keys, depth + 1);
        TaggedObject(v);
        if cells.Err? { return Err(cells.error); }
        return Ok(Row([Word("object"), Row(cells.value)]));
      }
      LeafFits(v, depth);
      return Leaf(v);
    }

    method VisitItems(v: Json, depth: nat) returns (r: Result<seq<Tree>>)
      requires v.Arr? && nodes <= maxNodes
      modifies this
      ensures r.Ok? <==> (forall x <- v.items :: Fits(x, depth)) && old(nodes) + NodesOfItems(v.items) <= maxNodes
      ensures r.Ok? ==> nodes == old(nodes) + NodesOfItems(v.items) && r.value == TaggedItems(v.items)
      decreases v, 0
    {
      var items := v.items;
      var cells: seq<Tree> := [];
      assert items[0..] == items;
      for i := 0 to |items|
        invariant nodes + NodesOfItems(items[i..]) == old(nodes) + NodesOfItems(items) && nodes <= maxNodes
        invariant forall j :: 0 <= j < i ==> Fits(items[j], depth)
        invariant cells + TaggedItems(items[i..]) == TaggedItems(items)
      {
        assert items[i] in items && items[i..][1..] == items[i + 1..];
        var cell := Visit(items[i], depth);
        if cell.Err? { return Err(cell.error); }
        cells := cells + [cell.value];
      }
      return Ok(cells);
    }

    /** A key is visited like any other string. */
    method VisitKey(key: string, depth: nat) returns (r: Result<Tree>)
      modifies this
      ensures r.Ok? <==> depth <= MAX_DEPTH && old(nodes) < maxNodes
      ensures r.Ok? ==> nodes == old(nodes) + 1 && r.value == Tagged(Str(key))
    {
      nodes := nodes + 1;
      if nodes > maxNodes || depth > MAX_DEPTH {
        return Err("private call input exceeds structural bound");
      }
      return Ok(Row([Word("string"), Word(key)]));
    }

    method VisitFields(v: Json, keys: seq<string>, depth: nat) returns (r: Result<seq<Tree>>)
      requires v.Obj? && nodes <= maxNodes && forall k <- keys :: k in v.m
      modifies this
      ensures r.Ok? <==> (forall k <- keys :: Fits(v.m[k], depth)) && old(nodes) + NodesOfFields(v, keys) <= maxNodes
      ensures r.Ok? ==> nodes == old(nodes) + NodesOfFields(v, keys) && r.value == TaggedFields(v, keys)
      decreases v, 0
    {
      var cells: seq<Tree> := [];
      assert keys[0..] == keys;
      for i := 0 to |keys|
        invariant nodes + NodesOfFields(v, keys[i..]) == old(nodes) + NodesOfFields(v, keys) && nodes <= maxNodes
        invariant forall j :: 0 <= j < i ==> Fits(v.m[keys[j]], depth)
        invariant cells + TaggedFields(v, keys[i..]) == TaggedFields(v, keys)
      {
        FieldsStep(v, keys, i, cells);
        var key := VisitKey(keys[i], depth);
        if key.Err? { return Err(key.error); }
        var child := Visit(v.m[keys[i]], depth);
        if child.Err? { return Err(child.error); }
        cells := cells + [Row([key.value, child.value])];
      }
      return Ok(cells);
    }
  }

  lemma FieldsStep(v: Json, keys: seq<string>, i: nat, cells: seq<Tree>)
    requires v.Obj? && i < |keys| && forall k <- keys :: k in v.m
    ensures NodesOfFields(v, keys[i..]) == 1 + NodeCount(v.m[keys[i]]) + NodesOfFields(v, keys[i + 1..])
    ensures cells + TaggedFields(v, keys[i..])
            == cells + [Row([Tagged(Str(keys[i])), Tagged(v.m[keys[i]])])] + TaggedFields(v, keys[i + 1..])
  {
    assert keys[i..][1..] == keys[i + 1..];
  }

  /** Sound, and no node deeper than the bound when it stands at `depth`. */
  predicate Fits(v: Json, depth: int) { Sound(v) && Within(v, MAX_DEPTH - depth) }

  lemma FieldsFit(v: Json, depth: int)
    requires v.Obj?
    ensures (forall k <- SortedSet(v.m.Keys) :: Fits(v.m[k], depth + 1)) && depth <= MAX_DEPTH <==> Fits(v, depth)
  {
    if forall k <- SortedSet(v.m.Keys) :: Fits(v.m[k], depth + 1) {
      forall k | k in v.m ensures Fits(v.m[k], depth + 1) {
        assert k in SortedSet(v.m.Keys);
      }
    }
  }

  // ----- the text -----

  /** `json.dumps` with compact separators. */
  function Print(t: Tree): string
    decreases t, 1, 0
  {
    match t
    case Word(s) => Quote(s)
    case Flag(b) => if b then "true" else "false"
    case Row(cells) => "[" + PrintCells(cells)
  }

  /** A row's text after its opening bracket. */
  function PrintCells(cells: seq<Tree>): string
    decreases cells, 3, |cells|
  {
    if cells == [] then "]" else Print(cells[0]) + PrintMore(cells[1..])
  }

  function PrintMore(cells: seq<Tree>): string
    decreases cells, 2, |cells|
  {
    if cells == [] then "]" else "," + (Print(cells[0]) + PrintMore(cells[1..]))
  }

  lemma PrintStarts(t: Tree)
    ensures Print(t) != ""
    ensures Print(t)[0] == (match t case Word(_) => '"' case Flag(b) => (if b then 't' else 'f') case Row(_) => '[')
  {
  }

  lemma Assoc(a: string, b: string, c: string)
    ensures (a + b) + c == a + (b + c)
  {
  }

  lemma SameFirst(x: string, r: string, y: string, q: string)
    requires x != "" && y != "" && x + r == y + q
    ensures x[0] == y[0] && x[1..] + r == y[1..] + q
  {
    assert (x + r)[0] == x[0] && (y + q)[0] == y[0];
    assert (x + r)[1..] == x[1..] + r && (y + q)[1..] == y[1..] + q;
  }

  /** A text is read back whatever follows it. */
  lemma {:induction false} PrintDelimited(t: Tree, u: Tree, r: string, q: string)
    requires Print(t) + r == Print(u) + q
    ensures t == u && r == q
    decreases t, 1, 0
  {
    PrintStarts(t);
    PrintStarts(u);
    SameFirst(Print(t), r, Print(u), q);
    if t.Word? {
      QuoteDelimited(t.s, u.s, r, q);
    } else if t.Flag? {
      assert (Print(t) + r)[|Print(t)|..] == r && (Print(u) + q)[|Print(t)|..] == q;
    } else {
      assert Print(t)[1..] == PrintCells(t.cells) && Print(u)[1..] == PrintCells(u.cells);
      CellsDelimited(t.cells, u.cells, r, q);
    }
  }

  lemma {:induction false} CellsDelimited(s: seq<Tree>, t: seq<Tree>, r: string, q: string)
    requires PrintCells(s) + r == PrintCells(t) + q
    ensures s == t && r == q
    decreases s, 3, |s|
  {
    if s != [] { PrintStarts(s[0]); }
    if t != [] { PrintStarts(t[0]); }
    assert (PrintCells(s) + r)[0] == PrintCells(s)[0] && (PrintCells(t) + q)[0] == PrintCells(t)[0];
    if s == [] {
      assert ("]" + r)[1..] == r && ("]" + q)[1..] == q;
    } else {
      Assoc(Print(s[0]), PrintMore(s[1..]), r);
      Assoc(Print(t[0]), PrintMore(t[1..]), q);
      PrintDelimited(s[0], t[0], PrintMore(s[1..]) + r, PrintMore(t[1..]) + q);
      MoreDelimited(s[1..], t[1..], r, q);
      assert s == [s[0]] + s[1..] && t == [t[0]] + t[1..];
    }
  }

  lemma {:induction false} MoreDelimited(s: seq<Tree>, t: seq<Tree>, r: string, q: string)
    requires PrintMore(s) + r == PrintMore(t) + q
    ensures s == t && r == q
    decreases s, 2, |s|
  {
    SameFirst(PrintMore(s), r, PrintMore(t), q);
    if s == [] {
      assert "]"[1..] + r == r && "]"[1..] + q == q;
    } else {
      var x, y := Print(s[0]) + PrintMore(s[1..]), Print(t[0]) + PrintMore(t[1..]);
      assert ("," + x)[1..] == x && ("," + y)[1..] == y;
      Assoc(Print(s[0]), PrintMore(s[1..]), r);
      Assoc(Print(t[0]), PrintMore(t[1..]), q);
      PrintDelimited(s[0], t[0], PrintMore(s[1..]) + r, PrintMore(t[1..]) + q);
      MoreDelimited(s[1..], t[1..], r, q);
      assert s == [s[0]] + s[1..] && t == [t[0]] + t[1..];
    }
  }

  /** Different trees have different texts. */
  lemma PrintInjective(t: Tree, u: Tree)
    requires Print(t) == Print(u)
    ensures t == u
  {
    assert Print(t) + "" == Print(u) + "";
    PrintDelimited(t, u, "", "");
  }

  // ----- JSON meaning -----

  /** The double a safe number is turned into. */
  function DoubleOf(v: Json): Double
    requires SafeNumber(v)
  {
    if v.Int? then FromInt(v.n) else if IsZero(v.d) then ZERO else v.d
  }

  lemma DoubleOfExact(v: Json)
    requires SafeNumber(v)
    ensures RealOf(DoubleOf(v)) == NumberValue(v) && (IsZero(DoubleOf(v)) ==> DoubleOf(v) == ZERO)
  {
    MagnitudeSign(ZERO);
    MagnitudeSign(DoubleOf(v));
    if v.Int? {
      FromIntExact(v.n);
    } else {
      MagnitudeSign(v.d);
    }
  }

  /** Numbers have the same text exactly when they are the same real: 1 is 1.0, and -0.0 is 0. */
  lemma NumberTextExact(v: Json, w: Json)
    requires SafeNumber(v) && SafeNumber(w)
    ensures NumberText(v) == NumberText(w) <==> NumberValue(v) == NumberValue(w)
  {
    DoubleOfExact(v);
    DoubleOfExact(w);
    RealInjective(DoubleOf(v), DoubleOf(w));
    if NumberText(v) == NumberText(w) {
      HexTextInjective(DoubleOf(v), DoubleOf(w));
    }
  }

  /** The same JSON value: objects regardless of key order, numbers by value, a bool never a number. */
  predicate Same(v: Json, w: Json)
    decreases v
  {
    match v
    case Null => w.Null?
    case Bool(b) => w == v
    case Str(s) => w == v
    case Arr(items) => w.Arr? && |items| == |w.items| && forall i :: 0 <= i < |items| ==> Same(items[i], w.items[i])
    case Obj(m) => w.Obj? && m.Keys == w.m.Keys && forall k <- m :: Same(m[k], w.m[k])
    case Int(_) => (w.Int? || w.Float?) && NumberValue(v) == NumberValue(w)
    case Float(_) => (w.Int? || w.Float?) && NumberValue(v) == NumberValue(w)
    case _ => false
  }

  lemma {:induction false} ItemsAt(items: seq<Json>)
    ensures |TaggedItems(items)| == |items|
    ensures forall i :: 0 <= i < |items| ==> TaggedItems(items)[i] == Tagged(items[i])
  {
    if items != [] {
      ItemsAt(items[1..]);
    }
  }

  function FieldRow(key: string, child: Json): Tree { Row([Row([Word("string"), Word(key)]), Tagged(child)]) }

  lemma {:induction false} FieldsAt(v: Json, keys: seq<string>)
    requires v.Obj? && forall k <- keys :: k in v.m
    ensures |TaggedFields(v, keys)| == |keys|
    ensures forall i :: 0 <= i < |keys| ==> TaggedFields(v, keys)[i] == FieldRow(keys[i], v.m[keys[i]])
    decreases |keys|
  {
    if keys != [] {
      FieldsAt(v, keys[1..]);
    }
  }

  /** The tagged tree determines the JSON value, and the JSON value the tagged tree. */
  lemma {:induction false} TaggedExact(v: Json, w: Json)
    requires Sound(v) && Sound(w)
    ensures Tagged(v) == Tagged(w) <==> Same(v, w)
    decreases v, 1
  {
    if IsNumber(v) && IsNumber(w) {
      NumberTextExact(v, w);
    } else if v.Arr? && w.Arr? {
      ItemsExact(v, w);
    } else if v.Obj? && w.Obj? {
      FieldsExact(v, w);
    }
  }

  lemma {:induction false} ItemsExact(v: Json, w: Json)
    requires v.Arr? && w.Arr? && Sound(v) && Sound(w)
    ensures Tagged(v) == Tagged(w) <==> Same(v, w)
    decreases v, 0
  {
    var s, t := TaggedItems(v.items), TaggedItems(w.items);
    ItemsAt(v.items);
    ItemsAt(w.items);
    if |v.items| == |w.items| {
      forall i | 0 <= i < |v.items| ensures s[i] == t[i] <==> Same(v.items[i], w.items[i]) {
        TaggedExact(v.items[i], w.items[i]);
      }
      assert s == t <==> forall i :: 0 <= i < |s| ==> s[i] == t[i];
    }
    assert Tagged(v) == Tagged(w) <==> s == t;
  }

  lemma {:induction false} FieldsExact(v: Json, w: Json)
    requires v.Obj? && w.Obj? && Sound(v) && Sound(w)
    ensures Tagged(v) == Tagged(w) <==> Same(v, w)
    decreases v, 0
  {
    var s, t := TaggedFields(v, SortedSet(v.m.Keys)), TaggedFields(w, SortedSet(w.m.Keys));
    assert Tagged(v) == Tagged(w) <==> s == t;
    if s == t {
      SameRowsSameKeys(v, SortedSet(v.m.Keys), w, SortedSet(w.m.Keys));
      SameKeys(v, w);
    }
    if v.m.Keys == w.m.Keys {
      SameFields(v, w);
      forall k | k in v.m ensures Tagged(v.m[k]) == Tagged(w.m[k]) <==> Same(v.m[k], w.m[k]) {
        TaggedExact(v.m[k], w.m[k]);
      }
    }
  }

  lemma SameRowsSameKeys(v: Json, ks: seq<string>, w: Json, ls: seq<string>)
    requires v.Obj? && (forall k <- ks :: k in v.m) && w.Obj? && (forall k <- ls :: k in w.m)
    requires TaggedFields(v, ks) == TaggedFields(w, ls)
    ensures ks == ls
  {
    FieldsAt(v, ks);
    FieldsAt(w, ls);
    forall i | 0 <= i < |ks| ensures ks[i] == ls[i] {
      assert FieldRow(ks[i], v.m[ks[i]]) == FieldRow(ls[i], w.m[ls[i]]);
      assert FieldRow(ks[i], v.m[ks[i]]).cells[0].cells[1].s == ks[i];
      assert FieldRow(ls[i], w.m[ls[i]]).cells[0].cells[1].s == ls[i];
    }
  }

  lemma SameKeys(v: Json, w: Json)
    requires v.Obj? && w.Obj? && SortedSet(v.m.Keys) == SortedSet(w.m.Keys)
    ensures v.m.Keys == w.m.Keys
  {
    assert forall k :: k in v.m.Keys <==> k in SortedSet(v.m.Keys);
    assert forall k :: k in w.m.Keys <==> k in SortedSet(w.m.Keys);
  }

  /** Field rows agree exactly when the children's trees do. */
  lemma SameFields(v: Json, w: Json)
    requires v.Obj? && w.Obj? && v.m.Keys == w.m.Keys
    ensures TaggedFields(v, SortedSet(v.m.Keys)) == TaggedFields(w, SortedSet(w.m.Keys))
            <==> forall k <- v.m :: Tagged(v.m[k]) == Tagged(w.m[k])
  {
    var ks := SortedSet(v.m.Keys);
    RowsAgree(v, w, ks);
    assert forall k :: k in v.m <==> k in ks;
  }

  lemma {:induction false} RowsAgree(v: Json, w: Json, keys: seq<string>)
    requires v.Obj? && w.Obj? && forall k <- keys :: k in v.m && k in w.m
    ensures TaggedFields(v, keys) == TaggedFields(w, keys) <==> forall k <- keys :: Tagged(v.m[k]) == Tagged(w.m[k])
    decreases |keys|
  {
    if keys != [] {
      var rest := keys[1..];
      RowsAgree(v, w, rest);
      var a, b := FieldRow(keys[0], v.m[keys[0]]), FieldRow(keys[0], w.m[keys[0]]);
      FirstRow(a, TaggedFields(v, rest), b, TaggedFields(w, rest));
      assert a == b <==> a.cells[1] == b.cells[1];
      assert forall k :: k in keys <==> k == keys[0] || k in rest;
    }
  }

  lemma FirstRow(a: Tree, s: seq<Tree>, b: Tree, t: seq<Tree>)
    ensures [a] + s == [b] + t <==> a == b && s == t
  {
    if [a] + s == [b] + t {
      assert ([a] + s)[0] == ([b] + t)[0] && ([a] + s)[1..] == s && ([b] + t)[1..] == t;
    }
  }

  // ----- the canonical bytes -----

  function CanonicalForm(v: Json): seq<byte> { Encode(Print(Tagged(v))) }

  datatype Limits = Limits(bytes: nat, nodes: nat)

  /** What `_canonical` accepts under the limits of an action. */
  predicate Accepted(v: Json, limits: Limits) {
    Fits(v, 0) && NodeCount(v) <= limits.nodes && |CanonicalForm(v)| <= limits.bytes
  }

  /** `_canonical`: the shared counter accepts exactly the trees within the measure. */
  method Canonical(v: Json, limits: Limits) returns (r: Result<seq<byte>>)
    ensures r.Ok? <==> Accepted(v, limits)
    ensures r.Ok? ==> r.value == CanonicalForm(v)
  {
    var walker := new Walker(limits.nodes);
    var tree := walker.Visit(v, 0);
    if tree.Err? { return Err(tree.error); }
    var raw := Encode(Print(tree.value));
    if |raw| > limits.bytes { return Err("private call input exceeds byte bound"); }
    return Ok(raw);
  }

  /** Two accepted values have the same bytes exactly when they are the same JSON value. */
  lemma CanonicalExact(v: Json, w: Json, limits: Limits, other: Limits)
    requires Accepted(v, limits) && Accepted(w, other)
    ensures CanonicalForm(v) == CanonicalForm(w) <==> Same(v, w)
  {
    TaggedExact(v, w);
    if CanonicalForm(v) == CanonicalForm(w) {
      EncodeInjective(Print(Tagged(v)), Print(Tagged(w)));
      PrintInjective(Tagged(v), Tagged(w));
    }
  }
}
