/** The indentation printer of scripts/dsh/plugin_registry.py. */
module YamlPrinter {
  import opened Outcomes
  import opened Ordering
  import opened JsonText

  /** A configuration value; a number is known by what `str` prints for it. */
  datatype Value =
    | Null
    | Bool(b: bool)
    | Number(text: string)
    | Text(s: string)
    | Map(m: map<string, Value>)
    | List(items: seq<Value>)

  predicate Container(v: Value) { v.Map? || v.List? }

  /** `str` of a list, which the printer quotes where a list stands directly in a list. */
  type Repr = Value -> string

  function Scalar(v: Value, repr: Repr): string {
    match v
    case Null => "null"
    case Bool(b) => if b then "true" else "false"
    case Number(text) => text
    case Text(s) => Quote(s)
    case _ => Quote(repr(v))
  }

  function Spaces(n: nat): string { seq(n, i => ' ') }

  // ----- the printer -----

  /** One key with its value: a nested block at `indent`, or a scalar on the line. */
  function EntryLines(head: string, child: Value, indent: nat, repr: Repr): seq<string>
    decreases child, 2, 0
  {
    if Container(child) then [head + ":"] + Lines(child, indent, repr)
    else [head + ": " + Scalar(child, repr)]
  }

  /** The entries of a map for a list of its keys. */
  function MapLines(v: Value, keys: seq<string>, indent: nat, repr: Repr): seq<string>
    requires v.Map? && forall k <- keys :: k in v.m
    decreases v, 0, |keys|
  {
    if keys == [] then []
    else
      EntryLines(Spaces(indent) + keys[0], v.m[keys[0]], indent + 2, repr) + MapLines(v, keys[1..], indent, repr)
  }

  /** One list item: a map whose first key follows the dash, or a scalar. */
  function ItemLines(item: Value, indent: nat, repr: Repr): seq<string>
    decreases item, 2, 0
  {
    if item.Map? then
      var keys := SortedSet(item.m.Keys);
      if keys == [] then []
      else
        EntryLines(Spaces(indent) + "- " + keys[0], item.m[keys[0]], indent + 4, repr)
        + MapLines(item, keys[1..], indent + 2, repr)
    else [Spaces(indent) + "- " + Scalar(item, repr)]
  }

  function ListLines(items: seq<Value>, indent: nat, repr: Repr): seq<string>
    decreases items, 3, |items|
  {
    if items == [] then [] else ItemLines(items[0], indent, repr) + ListLines(items[1..], indent, repr)
  }

  function Lines(v: Value, indent: nat, repr: Repr): seq<string>
    decreases v, 1, 0
  {
    match v
    case Map(m) => MapLines(v, SortedSet(m.Keys), indent, repr)
    case List(items) => ListLines(items, indent, repr)
    case _ => [Spaces(indent) + Scalar(v, repr)]
  }

  /** The printer fails only on an empty map standing in a list, whose first key it asks for. */
  predicate Printable(v: Value)
    decreases v, 0
  {
    match v
    case Map(m) => forall k <- m :: Printable(m[k])
    case List(items) => forall x <- items :: PrintableItem(x)
    case _ => true
  }

  predicate PrintableItem(x: Value)
    decreases x, 1
  {
    x.Map? ==> x.m != map[] && Printable(x)
  }

  /** The loops of the source over sorted keys and items, appending to a list of lines. */
  method YamlLines(v: Value, indent: nat, repr: Repr) returns (r: Result<seq<string>>)
    ensures r.Ok? <==> Printable(v)
    ensures r.Ok? ==> r.value == Lines(v, indent, repr)
    decreases v, 1
  {
    if v.Map? {
      r := YamlMap(v, SortedSet(v.m.Keys), indent, repr);
      KeysCoverMap(v);
    } else if v.List? {
      r := YamlList(v, indent, repr);
    } else {
      r := Ok([Spaces(indent) + Scalar(v, repr)]);
    }
  }

  lemma KeysCoverMap(v: Value)
    requires v.Map?
    ensures Printable(v) <==> forall k <- SortedSet(v.m.Keys) :: Printable(v.m[k])
  {
  }

  method YamlMap(v: Value, keys: seq<string>, indent: nat, repr: Repr) returns (r: Result<seq<string>>)
    requires v.Map? && forall k <- keys :: k in v.m
    ensures r.Ok? <==> forall k <- keys :: Printable(v.m[k])
    ensures r.Ok? ==> r.value == MapLines(v, keys, indent, repr)
    decreases v, 0
  {
    var lines: seq<string> := [];
    assert keys[0..] == keys;
    for i := 0 to |keys|
      invariant lines + MapLines(v, keys[i..], indent, repr) == MapLines(v, keys, indent, repr)
      invariant forall j :: 0 <= j < i ==> Printable(v.m[keys[j]])
    {
      assert keys[i..][1..] == keys[i + 1..];
      var entry := YamlEntry(Spaces(indent) + keys[i], v.m[keys[i]], indent + 2, repr);
      if entry.Err? { return entry; }
      lines := lines + entry.value;
    }
    return Ok(lines);
  }

  method YamlList(v: Value, indent: nat, repr: Repr) returns (r: Result<seq<string>>)
    requires v.List?
    ensures r.Ok? <==> Printable(v)
    ensures r.Ok? ==> r.value == ListLines(v.items, indent, repr)
    decreases v, 0
  {
    var items := v.items;
    var lines: seq<string> := [];
    assert items[0..] == items;
    for i := 0 to |items|
      invariant lines + ListLines(items[i..], indent, repr) == ListLines(items, indent, repr)
      invariant forall j :: 0 <= j < i ==> PrintableItem(items[j])
    {
      ListLinesStep(lines, items, i, indent, repr);
      assert items[i] in items;
      var block := YamlItem(items[i], indent, repr);
      if block.Err? { return block; }
      lines := lines + block.value;
    }
    return Ok(lines);
  }

  lemma ListLinesStep(lines: seq<string>, items: seq<Value>, i: nat, indent: nat, repr: Repr)
    requires i < |items|
    ensures lines + ListLines(items[i..], indent, repr)
            == lines + ItemLines(items[i], indent, repr) + ListLines(items[i + 1..], indent, repr)
  {
    assert items[i..][1..] == items[i + 1..];
  }

  method YamlEntry(head: string, child: Value, indent: nat, repr: Repr) returns (r: Result<seq<string>>)
    ensures r.Ok? <==> Printable(child)
    ensures r.Ok? ==> r.value == EntryLines(head, child, indent, repr)
    decreases child, 2
  {
    if Container(child) {
      var nested := YamlLines(child, indent, repr);
      if nested.Err? { return nested; }
      return Ok([head + ":"] + nested.value);
    }
    return Ok([head + ": " + Scalar(child, repr)]);
  }

  method YamlItem(item: Value, indent: nat, repr: Repr) returns (r: Result<seq<string>>)
    ensures r.Ok? <==> PrintableItem(item)
    ensures r.Ok? ==> r.value == ItemLines(item, indent, repr)
    decreases item, 1
  {
    if !item.Map? { return Ok([Spaces(indent) + "- " + Scalar(item, repr)]); }
    var keys := SortedSet(item.m.Keys);
    if keys == [] {
      assert forall k <- item.m :: k in keys;
      return Err("IndexError");
    }
    assert keys[0] in item.m;
    KeysCoverMap(item);
    assert forall k <- keys :: k == keys[0] || k in keys[1..];
    var first := YamlEntry(Spaces(indent) + "- " + keys[0], item.m[keys[0]], indent + 4, repr);
    if first.Err? { return first; }
    var rest := YamlMap(item, keys[1..], indent + 2, repr);
    if rest.Err? { return rest; }
    return Ok(first.value + rest.value);
  }

  // ----- the printer is injective -----

  /** A key that reads as one: no colon in it, and not starting like an indentation, a dash or a string. */
  predicate KeyText(k: string) { k != "" && ':' !in k && k[0] !in {' ', '-', '"'} }

  /** What `str` prints for a number is neither a word of the printer nor like a key or a string. */
  predicate NumberText(t: string) {
    t != "" && ':' !in t && ' ' !in t && t[0] != '"' && t !in {"true", "false", "null"}
  }

  /** The values the registry prints: no empty block, keys that read as keys, no list directly in a list. */
  predicate Regular(v: Value) {
    match v
    case Number(t) => NumberText(t)
    case Map(m) => m != map[] && forall k <- m :: KeyText(k) && Regular(m[k])
    case List(items) => items != [] && forall x <- items :: !x.List? && Regular(x)
    case _ => true
  }

  lemma ScalarInjective(a: Value, b: Value, repr: Repr)
    requires Regular(a) && Regular(b) && !Container(a) && !Container(b)
    requires Scalar(a, repr) == Scalar(b, repr)
    ensures a == b
  {
    assert a.Text? <==> Scalar(a, repr)[0] == '"';
    assert b.Text? <==> Scalar(b, repr)[0] == '"';
    if a.Text? {
      QuoteInjective(a.s, b.s);
    }
  }

  /** A scalar holds neither colon nor space unless it is a string literal. */
  lemma ScalarIsNoEntry(a: Value, repr: Repr)
    requires Regular(a) && !Container(a)
    ensures Scalar(a, repr) != ""
    ensures Scalar(a, repr)[0] == '"' || (':' !in Scalar(a, repr) && ' ' !in Scalar(a, repr))
  {
  }

  /** The part before the first colon is determined. */
  lemma FirstColon(k1: string, t1: string, k2: string, t2: string)
    requires ':' !in k1 && ':' !in k2 && k1 + ":" + t1 == k2 + ":" + t2
    ensures k1 == k2 && t1 == t2
  {
    var s, t := k1 + ":" + t1, k2 + ":" + t2;
    assert s[|k1|] == ':' && t[|k2|] == ':';
    assert forall i :: 0 <= i < |k1| ==> s[i] == k1[i];
    assert forall i :: 0 <= i < |k2| ==> t[i] == k2[i];
    assert |k1| == |k2|;
    assert s[..|k1|] == k1 && t[..|k1|] == k2 && s[|k1| + 1..] == t1 && t[|k1| + 1..] == t2;
  }

  /** The leading spaces of a line. */
  function Indentation(line: string): nat {
    if line == "" || line[0] != ' ' then 0 else 1 + Indentation(line[1..])
  }

  lemma {:induction false} IndentationIs(n: nat, text: string)
    requires text != "" && text[0] != ' '
    ensures Indentation(Spaces(n) + text) == n
  {
    if n == 0 {
      assert Spaces(0) + text == text;
    } else {
      IndentationIs(n - 1, text);
      assert (Spaces(n) + text)[1..] == Spaces(n - 1) + text;
    }
  }

  /** The lines that follow a block at `n` belong to something further out. */
  predicate Stops(rest: seq<string>, n: nat) { rest == [] || Indentation(rest[0]) < n }

  /** The first line of an entry, split at its key's colon. */
  function EntryTail(child: Value, repr: Repr): string {
    if Container(child) then "" else " " + Scalar(child, repr)
  }

  lemma Concat3<T>(a: seq<T>, b: seq<T>, c: seq<T>)
    ensures (a + b) + c == a + (b + c)
  {
  }

  lemma EntryFirstLine(p: string, k: string, child: Value, indent: nat, repr: Repr)
    ensures EntryLines(p + k, child, indent, repr) != []
    ensures EntryLines(p + k, child, indent, repr)[0] == p + (k + (":" + EntryTail(child, repr)))
  {
    Concat3(p, k, ":" + EntryTail(child, repr));
    if Container(child) {
      assert ":" + EntryTail(child, repr) == ":";
    } else {
      var text := Scalar(child, repr);
      assert ":" + (" " + text) == ": " + text;
      Concat3(p + k, ": ", text);
    }
  }

  /** A line of a list at `n`: a dash after the indentation. */
  predicate Dashed(line: string, n: nat) { Indentation(line) == n && |line| > n + 1 && line[n..n + 2] == "- " }

  lemma NotDashed(n: nat, text: string)
    requires text != "" && text[0] != '-'
    ensures !Dashed(Spaces(n) + text, n)
  {
    var line := Spaces(n) + text;
    assert |line| > n + 1 ==> line[n..n + 2][0] == text[0];
  }

  /** The first line of a map's entries, and of a list's items, stands at their own indentation. */
  lemma MapFirstLine(v: Value, keys: seq<string>, n: nat, repr: Repr)
    requires v.Map? && (forall k <- keys :: k in v.m && KeyText(k)) && keys != []
    ensures MapLines(v, keys, n, repr) != [] && Indentation(MapLines(v, keys, n, repr)[0]) == n
    ensures !Dashed(MapLines(v, keys, n, repr)[0], n)
  {
    var child := v.m[keys[0]];
    NotDashed(n, keys[0] + (":" + EntryTail(child, repr)));
    EntryFirstLine(Spaces(n), keys[0], child, n + 2, repr);
    IndentationIs(n, keys[0] + (":" + EntryTail(child, repr)));
  }

  lemma KeysOfMap(v: Value)
    requires v.Map? && Regular(v)
    ensures SortedSet(v.m.Keys) != [] && forall k <- SortedSet(v.m.Keys) :: k in v.m && KeyText(k) && Regular(v.m[k])
  {
    var k :| k in v.m;
    assert k in SortedSet(v.m.Keys);
  }

  lemma DashedIs(n: nat, text: string)
    ensures Dashed((Spaces(n) + "- ") + text, n)
  {
    Concat3(Spaces(n), "- ", text);
    assert (Spaces(n) + ("- " + text))[n..n + 2] == "- ";
    IndentationIs(n, "- " + text);
  }

  lemma MapItemFirstLine(item: Value, n: nat, repr: Repr)
    requires item.Map? && Regular(item)
    ensures ItemLines(item, n, repr) != [] && Dashed(ItemLines(item, n, repr)[0], n)
  {
    KeysOfMap(item);
    var keys := SortedSet(item.m.Keys);
    var k := keys[0];
    EntryFirstLine(Spaces(n) + "- ", k, item.m[k], n + 4, repr);
    DashedIs(n, k + (":" + EntryTail(item.m[k], repr)));
  }

  lemma ItemFirstLine(item: Value, n: nat, repr: Repr)
    requires Regular(item) && !item.List?
    ensures ItemLines(item, n, repr) != [] && Dashed(ItemLines(item, n, repr)[0], n)
  {
    if item.Map? {
      MapItemFirstLine(item, n, repr);
    } else {
      DashedIs(n, Scalar(item, repr));
    }
  }

  /** Splitting equal line lists whose first lines are known. */
  lemma SplitFirst(x: seq<string>, r: seq<string>, y: seq<string>, q: seq<string>)
    requires x != [] && y != [] && x + r == y + q
    ensures x[0] == y[0] && x[1..] + r == y[1..] + q
  {
    assert (x + r)[0] == x[0] && (y + q)[0] == y[0];
    assert (x + r)[1..] == x[1..] + r && (y + q)[1..] == y[1..] + q;
  }

  /** What follows a block starts further out than the block's own lines. */
  lemma MapFollows(v: Value, keys: seq<string>, n: nat, rest: seq<string>, m: nat, repr: Repr)
    requires v.Map? && (forall k <- keys :: k in v.m && KeyText(k)) && Stops(rest, m) && n < m
    ensures Stops(MapLines(v, keys, n, repr) + rest, m)
  {
    if keys == [] {
      assert MapLines(v, keys, n, repr) + rest == rest;
    } else {
      MapFirstLine(v, keys, n, repr);
      assert (MapLines(v, keys, n, repr) + rest)[0] == MapLines(v, keys, n, repr)[0];
    }
  }

  lemma ListFirstLine(items: seq<Value>, n: nat, repr: Repr)
    requires items != [] && Regular(items[0]) && !items[0].List?
    ensures ListLines(items, n, repr) != [] && Dashed(ListLines(items, n, repr)[0], n)
  {
    ItemFirstLine(items[0], n, repr);
  }

  lemma ListFollows(items: seq<Value>, n: nat, rest: seq<string>, repr: Repr)
    requires (forall x <- items :: Regular(x) && !x.List?) && Stops(rest, n)
    ensures Stops(ListLines(items, n, repr) + rest, n + 1)
  {
    if items == [] {
      assert ListLines(items, n, repr) + rest == rest;
    } else {
      ListFirstLine(items, n, repr);
      assert (ListLines(items, n, repr) + rest)[0] == ListLines(items, n, repr)[0];
    }
  }

  /** An entry's first line names its key and tells a block from a scalar. */
  lemma EntryHead(p: string, k: string, c: Value, l: string, d: Value, n: nat, repr: Repr)
    requires KeyText(k) && KeyText(l)
    requires EntryLines(p + k, c, n, repr)[0] == EntryLines(p + l, d, n, repr)[0]
    ensures k == l && (Container(c) <==> Container(d))
    ensures !Container(c) ==> Scalar(c, repr) == Scalar(d, repr)
  {
    var s, t := EntryTail(c, repr), EntryTail(d, repr);
    EntryFirstLine(p, k, c, n, repr);
    EntryFirstLine(p, l, d, n, repr);
    assert (p + (k + (":" + s)))[|p|..] == k + (":" + s) && (p + (l + (":" + t)))[|p|..] == l + (":" + t);
    Concat3(k, ":", s);
    Concat3(l, ":", t);
    FirstColon(k, s, l, t);
    assert s != "" ==> s[1..] == Scalar(c, repr);
    assert t != "" ==> t[1..] == Scalar(d, repr);
  }

  lemma {:induction false} EntryDelimited(p: string, k: string, c: Value, l: string, d: Value, n: nat,
      r: seq<string>, q: seq<string>, repr: Repr)
    requires KeyText(k) && KeyText(l) && Regular(c) && Regular(d) && Stops(r, n) && Stops(q, n)
    requires EntryLines(p + k, c, n, repr) + r == EntryLines(p + l, d, n, repr) + q
    ensures k == l && c == d && r == q
    decreases c, 2, 0
  {
    SplitFirst(EntryLines(p + k, c, n, repr), r, EntryLines(p + l, d, n, repr), q);
    EntryHead(p, k, c, l, d, n, repr);
    if Container(c) {
      BlockDelimited(c, d, n, r, q, repr);
    } else {
      ScalarInjective(c, d, repr);
      assert EntryLines(p + k, c, n, repr)[1..] + r == r && EntryLines(p + l, d, n, repr)[1..] + q == q;
    }
  }

  lemma {:induction false} BlockDelimited(v: Value, w: Value, n: nat, r: seq<string>, q: seq<string>, repr: Repr)
    requires Container(v) && Container(w) && Regular(v) && Regular(w) && Stops(r, n) && Stops(q, n)
    requires Lines(v, n, repr) + r == Lines(w, n, repr) + q
    ensures v == w && r == q
    decreases v, 1, 0
  {
    BlockFirstLine(v, n, repr);
    BlockFirstLine(w, n, repr);
    SplitFirst(Lines(v, n, repr), r, Lines(w, n, repr), q);
    if v.Map? {
      KeysOfMap(v);
      KeysOfMap(w);
      MapDelimited(v, SortedSet(v.m.Keys), w, SortedSet(w.m.Keys), n, r, q, repr);
      SameMap(v, w);
    } else {
      ListDelimited(v.items, w.items, n, r, q, repr);
    }
  }

  lemma BlockFirstLine(v: Value, n: nat, repr: Repr)
    requires Container(v) && Regular(v)
    ensures Lines(v, n, repr) != [] && (Dashed(Lines(v, n, repr)[0], n) <==> v.List?)
  {
    if v.Map? {
      KeysOfMap(v);
      MapFirstLine(v, SortedSet(v.m.Keys), n, repr);
    } else {
      ListFirstLine(v.items, n, repr);
    }
  }

  lemma SameMap(v: Value, w: Value)
    requires v.Map? && w.Map? && SortedSet(v.m.Keys) == SortedSet(w.m.Keys)
    requires forall k <- SortedSet(v.m.Keys) :: k in v.m && k in w.m && v.m[k] == w.m[k]
    ensures v == w
  {
    forall k ensures k in v.m <==> k in w.m {
      assert k in v.m <==> k in SortedSet(v.m.Keys);
      assert k in w.m <==> k in SortedSet(w.m.Keys);
    }
    forall k | k in v.m ensures v.m[k] == w.m[k] {
      assert k in SortedSet(v.m.Keys);
    }
    assert v.m == w.m;
  }

  /** Some keys of a map, with children that are regular. */
  predicate RegularEntries(v: Value, ks: seq<string>) {
    v.Map? && forall k <- ks :: k in v.m && KeyText(k) && Regular(v.m[k])
  }

  predicate SameChildren(v: Value, w: Value, ks: seq<string>) {
    v.Map? && w.Map? && forall k <- ks :: k in v.m && k in w.m && v.m[k] == w.m[k]
  }

  lemma EntriesTail(v: Value, ks: seq<string>)
    requires RegularEntries(v, ks) && ks != []
    ensures RegularEntries(v, ks[1..]) && KeyText(ks[0]) && ks[0] in v.m && Regular(v.m[ks[0]])
  {
    assert ks[0] in ks && forall k <- ks[1..] :: k in ks;
  }

  /** A map's first entry, and what follows it. */
  lemma MapUnfold(v: Value, ks: seq<string>, n: nat, r: seq<string>, repr: Repr)
    requires RegularEntries(v, ks) && ks != [] && Stops(r, n)
    ensures MapLines(v, ks, n, repr) + r
            == EntryLines(Spaces(n) + ks[0], v.m[ks[0]], n + 2, repr) + (MapLines(v, ks[1..], n, repr) + r)
    ensures Stops(MapLines(v, ks[1..], n, repr) + r, n + 2)
  {
    Concat3(EntryLines(Spaces(n) + ks[0], v.m[ks[0]], n + 2, repr), MapLines(v, ks[1..], n, repr), r);
    EntriesTail(v, ks);
    MapFollows(v, ks[1..], n, r, n + 2, repr);
  }

  lemma {:induction false} MapDelimited(v: Value, ks: seq<string>, w: Value, ls: seq<string>, n: nat,
      r: seq<string>, q: seq<string>, repr: Repr)
    requires RegularEntries(v, ks) && RegularEntries(w, ls)
    requires Stops(r, n) && Stops(q, n)
    requires MapLines(v, ks, n, repr) + r == MapLines(w, ls, n, repr) + q
    ensures ks == ls && r == q && SameChildren(v, w, ks)
    decreases v, 0, |ks|
  {
    if ks == [] || ls == [] {
      MapEnds(v, ks, w, ls, n, r, q, repr);
      MapEnds(w, ls, v, ks, n, q, r, repr);
    } else {
      var x, y := MapLines(v, ks[1..], n, repr) + r, MapLines(w, ls[1..], n, repr) + q;
      EntriesTail(v, ks);
      EntriesTail(w, ls);
      MapUnfold(v, ks, n, r, repr);
      MapUnfold(w, ls, n, q, repr);
      EntryDelimited(Spaces(n), ks[0], v.m[ks[0]], ls[0], w.m[ls[0]], n + 2, x, y, repr);
      MapDelimited(v, ks[1..], w, ls[1..], n, r, q, repr);
      SameFromTail(v, w, ks, ls);
    }
  }

  lemma SameFromTail(v: Value, w: Value, ks: seq<string>, ls: seq<string>)
    requires RegularEntries(v, ks) && RegularEntries(w, ls) && ks != [] && ls != []
    requires ks[0] == ls[0] && v.m[ks[0]] == w.m[ks[0]] && ks[1..] == ls[1..] && SameChildren(v, w, ks[1..])
    ensures ks == ls && SameChildren(v, w, ks)
  {
    assert ks == [ks[0]] + ks[1..] && ls == [ls[0]] + ls[1..];
  }

  lemma StartsNotStopped(x: seq<string>, q: seq<string>, n: nat)
    requires x != [] && Indentation(x[0]) == n
    ensures !Stops(x + q, n)
  {
    assert (x + q)[0] == x[0];
  }

  /** A block that has ended cannot be read as one that goes on. */
  lemma MapEnds(v: Value, ks: seq<string>, w: Value, ls: seq<string>, n: nat,
      r: seq<string>, q: seq<string>, repr: Repr)
    requires v.Map? && (forall k <- ks :: k in v.m && KeyText(k))
    requires w.Map? && (forall k <- ls :: k in w.m && KeyText(k))
    requires Stops(r, n) && MapLines(v, ks, n, repr) + r == MapLines(w, ls, n, repr) + q
    ensures ks == [] ==> ls == [] && r == q
  {
    if ks == [] {
      assert MapLines(v, ks, n, repr) + r == r;
      if ls == [] {
        assert MapLines(w, ls, n, repr) + q == q;
      } else {
        MapFirstLine(w, ls, n, repr);
        StartsNotStopped(MapLines(w, ls, n, repr), q, n);
      }
    }
  }

  lemma {:induction false} ListDelimited(xs: seq<Value>, ys: seq<Value>, n: nat,
      r: seq<string>, q: seq<string>, repr: Repr)
    requires (forall x <- xs :: Regular(x) && !x.List?) && (forall y <- ys :: Regular(y) && !y.List?)
    requires Stops(r, n) && Stops(q, n)
    requires ListLines(xs, n, repr) + r == ListLines(ys, n, repr) + q
    ensures xs == ys && r == q
    decreases xs, 3, |xs|
  {
    if xs == [] || ys == [] {
      ListEnds(xs, ys, n, r, q, repr);
      ListEnds(ys, xs, n, q, r, repr);
    } else {
      var a, b := ListLines(xs[1..], n, repr), ListLines(ys[1..], n, repr);
      Concat3(ItemLines(xs[0], n, repr), a, r);
      Concat3(ItemLines(ys[0], n, repr), b, q);
      ListFollows(xs[1..], n, r, repr);
      ListFollows(ys[1..], n, q, repr);
      ItemDelimited(xs[0], ys[0], n, a + r, b + q, repr);
      ListDelimited(xs[1..], ys[1..], n, r, q, repr);
      assert xs == [xs[0]] + xs[1..] && ys == [ys[0]] + ys[1..];
    }
  }

  lemma ListEnds(xs: seq<Value>, ys: seq<Value>, n: nat, r: seq<string>, q: seq<string>, repr: Repr)
    requires (forall y <- ys :: Regular(y) && !y.List?)
    requires Stops(r, n) && ListLines(xs, n, repr) + r == ListLines(ys, n, repr) + q
    ensures xs == [] ==> ys == [] && r == q
  {
    if xs == [] {
      assert ListLines(xs, n, repr) + r == r;
      if ys == [] {
        assert ListLines(ys, n, repr) + q == q;
      } else {
        ListFirstLine(ys, n, repr);
        StartsNotStopped(ListLines(ys, n, repr), q, n);
      }
    }
  }

  /** A key with its colon is told from a scalar. */
  lemma EntryIsNoScalar(p: string, k: string, c: Value, n: nat, b: Value, repr: Repr)
    requires KeyText(k) && Regular(b) && !Container(b)
    ensures EntryLines(p + k, c, n, repr) != [] && EntryLines(p + k, c, n, repr)[0] != p + Scalar(b, repr)
  {
    var text := k + (":" + EntryTail(c, repr));
    EntryFirstLine(p, k, c, n, repr);
    ScalarIsNoEntry(b, repr);
    assert text[|k|] == ':' && text[0] != '"' && ':' in text;
    assert (p + text)[|p|..] == text && (p + Scalar(b, repr))[|p|..] == Scalar(b, repr);
  }

  lemma ItemKinds(a: Value, b: Value, n: nat, repr: Repr)
    requires Regular(a) && Regular(b) && a.Map? && !Container(b)
    ensures ItemLines(a, n, repr) != [] && ItemLines(a, n, repr)[0] != (Spaces(n) + "- ") + Scalar(b, repr)
  {
    KeysOfMap(a);
    var k := SortedSet(a.m.Keys)[0];
    EntryIsNoScalar(Spaces(n) + "- ", k, a.m[k], n + 4, b, repr);
  }

  lemma ScalarIsNotDashed(b: Value, n: nat, repr: Repr)
    requires Regular(b) && !Container(b)
    ensures !Dashed(Spaces(n) + Scalar(b, repr), n)
  {
    var text := Scalar(b, repr);
    ScalarIsNoEntry(b, repr);
    if |text| >= 2 {
      assert (Spaces(n) + text)[n..n + 2] == [text[0], text[1]];
      assert text[1] in text;
    }
  }

  lemma FirstEntryIsNoScalar(v: Value, keys: seq<string>, b: Value, n: nat, repr: Repr)
    requires v.Map? && keys != [] && (forall k <- keys :: k in v.m && KeyText(k)) && Regular(b) && !Container(b)
    ensures MapLines(v, keys, n, repr) != [Spaces(n) + Scalar(b, repr)]
  {
    var entry, more := EntryLines(Spaces(n) + keys[0], v.m[keys[0]], n + 2, repr), MapLines(v, keys[1..], n, repr);
    EntryIsNoScalar(Spaces(n), keys[0], v.m[keys[0]], n + 2, b, repr);
    assert MapLines(v, keys, n, repr) == entry + more;
    assert (entry + more)[0] == entry[0];
  }

  lemma BlockIsNoScalar(v: Value, b: Value, n: nat, repr: Repr)
    requires Regular(v) && Container(v) && Regular(b) && !Container(b)
    ensures Lines(v, n, repr) != Lines(b, n, repr)
  {
    if v.Map? {
      KeysOfMap(v);
      FirstEntryIsNoScalar(v, SortedSet(v.m.Keys), b, n, repr);
    } else {
      BlockFirstLine(v, n, repr);
      ScalarIsNotDashed(b, n, repr);
      assert Lines(b, n, repr) == [Spaces(n) + Scalar(b, repr)];
    }
  }

  lemma {:induction false} ItemDelimited(a: Value, b: Value, n: nat, r: seq<string>, q: seq<string>, repr: Repr)
    requires Regular(a) && Regular(b) && !a.List? && !b.List? && Stops(r, n + 1) && Stops(q, n + 1)
    requires ItemLines(a, n, repr) + r == ItemLines(b, n, repr) + q
    ensures a == b && r == q
    decreases a, 2, 0
  {
    ItemFirstLine(a, n, repr);
    ItemFirstLine(b, n, repr);
    var x, y := ItemLines(a, n, repr), ItemLines(b, n, repr);
    SplitFirst(x, r, y, q);
    if a.Map? && b.Map? {
      MapItemDelimited(a, b, n, r, q, repr);
    } else if a.Map? {
      ItemKinds(a, b, n, repr);
    } else if b.Map? {
      ItemKinds(b, a, n, repr);
    } else {
      var p := Spaces(n) + "- ";
      assert (p + Scalar(a, repr))[|p|..] == Scalar(a, repr) && (p + Scalar(b, repr))[|p|..] == Scalar(b, repr);
      ScalarInjective(a, b, repr);
      assert x[1..] + r == r && y[1..] + q == q;
    }
  }

  lemma {:induction false} MapItemDelimited(a: Value, b: Value, n: nat, r: seq<string>, q: seq<string>, repr: Repr)
    requires Regular(a) && Regular(b) && a.Map? && b.Map? && Stops(r, n + 1) && Stops(q, n + 1)
    requires ItemLines(a, n, repr) + r == ItemLines(b, n, repr) + q
    ensures a == b && r == q
    decreases a, 1, 0
  {
    KeysOfMap(a);
    KeysOfMap(b);
    var ks, ls := SortedSet(a.m.Keys), SortedSet(b.m.Keys);
    var x, y := MapLines(a, ks[1..], n + 2, repr), MapLines(b, ls[1..], n + 2, repr);
    var c, d := a.m[ks[0]], b.m[ls[0]];
    var p := Spaces(n) + "- ";
    Concat3(EntryLines(p + ks[0], c, n + 4, repr), x, r);
    Concat3(EntryLines(p + ls[0], d, n + 4, repr), y, q);
    MapFollows(a, ks[1..], n + 2, r, n + 4, repr);
    MapFollows(b, ls[1..], n + 2, q, n + 4, repr);
    EntryDelimited(p, ks[0], c, ls[0], d, n + 4, x + r, y + q, repr);
    MapDelimited(a, ks[1..], b, ls[1..], n + 2, r, q, repr);
    assert ks == [ks[0]] + ks[1..] && ls == [ls[0]] + ls[1..];
    SameMap(a, b);
  }

  /** Different values never print the same lines, at any indentation and before any lines further out. */
  lemma LinesInjective(v: Value, w: Value, n: nat, repr: Repr)
    requires Regular(v) && Regular(w) && Lines(v, n, repr) == Lines(w, n, repr)
    ensures v == w
  {
    if Container(v) && Container(w) {
      assert Lines(v, n, repr) + [] == Lines(w, n, repr) + [];
      BlockDelimited(v, w, n, [], [], repr);
    } else if Container(v) {
      BlockIsNoScalar(v, w, n, repr);
    } else if Container(w) {
      BlockIsNoScalar(w, v, n, repr);
    } else {
      assert (Spaces(n) + Scalar(v, repr))[n..] == Scalar(v, repr);
      assert (Spaces(n) + Scalar(w, repr))[n..] == Scalar(w, repr);
      ScalarInjective(v, w, repr);
    }
  }

  // ----- where injectivity ends: the shapes `Regular` leaves out -----

  /** A list directly in a list prints like the string literal of its `str`. */
  lemma {:induction false} NestedListCollides(items: seq<Value>, i: nat, n: nat, repr: Repr)
    requires i < |items| && items[i].List?
    ensures List(items) != List(items[i := Text(repr(items[i]))])
    ensures ListLines(items, n, repr) == ListLines(items[i := Text(repr(items[i]))], n, repr)
  {
    var other := items[i := Text(repr(items[i]))];
    assert other[i] != items[i];
    if i == 0 {
      assert items[1..] == other[1..];
    } else {
      NestedListCollides(items[1..], i - 1, n, repr);
      assert items[1..][i - 1 := Text(repr(items[i]))] == other[1..];
    }
  }

  /** Maps whose entries print alike print alike. */
  lemma {:induction false} SameEntriesSameLines(v: Value, w: Value, keys: seq<string>, n: nat, repr: Repr)
    requires v.Map? && w.Map? && (forall k <- keys :: k in v.m && k in w.m)
    requires forall k <- keys :: (Container(v.m[k]) <==> Container(w.m[k]))
    requires forall k <- keys :: v.m[k] == w.m[k] || (Lines(v.m[k], n + 2, repr) == Lines(w.m[k], n + 2, repr) == [])
    requires forall k <- keys :: v.m[k] == w.m[k] || Container(v.m[k])
    ensures MapLines(v, keys, n, repr) == MapLines(w, keys, n, repr)
    decreases |keys|
  {
    if keys != [] {
      SameEntriesSameLines(v, w, keys[1..], n, repr);
    }
  }

  /** An empty map and an empty list under the same key print alike. */
  lemma EmptyBlocksCollide(v: Value, k: string, n: nat, repr: Repr)
    requires v.Map? && k in v.m && v.m[k] == Map(map[])
    ensures v != Map(v.m[k := List([])])
    ensures Lines(v, n, repr) == Lines(Map(v.m[k := List([])]), n, repr)
  {
    var w := Map(v.m[k := List([])]);
    assert w.m[k] != v.m[k];
    assert w.m.Keys == v.m.Keys;
    EmptyBlockPrintsNothing(n + 2, repr);
    SameEntriesSameLines(v, w, SortedSet(v.m.Keys), n, repr);
  }

  lemma EmptyBlockPrintsNothing(n: nat, repr: Repr)
    ensures Lines(Map(map[]), n, repr) == [] && Lines(List([]), n, repr) == []
  {
    var none: map<string, Value> := map[];
    assert none.Keys == {};
  }
}
