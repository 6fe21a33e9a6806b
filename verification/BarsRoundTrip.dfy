/** Round trips and canonicity of the columnar frames. */
module BarsRoundTrip {
  import opened Outcomes
  import opened Ordering
  import opened BarsFrame

  // ----- order and distinctness -----

  lemma EntryOrder(symbols: seq<string>, dates: seq<string>)
    ensures TotalPreorder(LeOf(symbols, dates))
  {
  }

  lemma KeySetStep(s: seq<Entry>)
    requires s != []
    ensures KeySet(s) == KeySet(s[1..]) + {Key(s[0])}
    ensures Key(s[0]) in KeySet(s[1..]) ==> KeySet(s) == KeySet(s[1..])
  {
    assert s == [s[0]] + s[1..];
  }

  lemma {:induction false} PairsAtMost(s: seq<Entry>)
    ensures |KeySet(s)| <= |s|
  {
    if s != [] {
      PairsAtMost(s[1..]);
      KeySetStep(s);
    }
  }

  /** As many pairs as rows: no two rows share one. */
  lemma {:induction false} PairsDiffer(s: seq<Entry>)
    requires DistinctPairs(s)
    ensures forall i, j :: 0 <= i < j < |s| ==> Key(s[i]) != Key(s[j])
  {
    if s != [] {
      var rest := s[1..];
      KeySetStep(s);
      PairsAtMost(rest);
      assert Key(s[0]) !in KeySet(rest);
      PairsDiffer(rest);
      forall i, j | 0 <= i < j < |s| ensures Key(s[i]) != Key(s[j]) {
        assert s[j] == rest[j - 1] && rest[j - 1] in rest;
        if i > 0 { assert s[i] == rest[i - 1]; }
      }
    }
  }

  lemma SymbolsAndDates(entries: seq<Entry>)
    ensures forall e <- entries :: e.bar.symbol in Symbols(entries) && e.bar.date in Dates(entries)
  {
    var s, d := SymbolSet(entries), DateSet(entries);
    forall e | e in entries ensures e.bar.symbol in Symbols(entries) && e.bar.date in Dates(entries) {
      assert e.bar.symbol in s && e.bar.date in d;
    }
  }

  lemma SamePlace(s: seq<string>, x: string, y: string)
    requires x in s && y in s && IndexOf(s, x) == IndexOf(s, y)
    ensures x == y
  {
  }

  lemma PairNamesRow(entries: seq<Entry>, x: Entry, y: Entry)
    requires DistinctPairs(entries) && x in entries && y in entries && Key(x) == Key(y)
    ensures x == y
  {
    PairsDiffer(entries);
  }

  lemma TiesAreEqual(entries: seq<Entry>, symbols: seq<string>, dates: seq<string>, x: Entry, y: Entry)
    requires DistinctPairs(entries) && x in entries && y in entries
    requires x.bar.symbol in symbols && y.bar.symbol in symbols && x.bar.date in dates && y.bar.date in dates
    requires EntryLe(symbols, dates, x, y) && EntryLe(symbols, dates, y, x)
    ensures x == y
  {
    SamePlace(symbols, x.bar.symbol, y.bar.symbol);
    SamePlace(dates, x.bar.date, y.bar.date);
    PairNamesRow(entries, x, y);
  }

  /** Rows told apart by their pairs are told apart by the sort key. */
  lemma PairsAreKeys(entries: seq<Entry>)
    requires DistinctPairs(entries)
    ensures DistinctKeys(entries, LeOf(Symbols(entries), Dates(entries)))
  {
    SymbolsAndDates(entries);
    PairsAreKeysIn(entries, Symbols(entries), Dates(entries));
  }

  lemma PairsAreKeysIn(entries: seq<Entry>, symbols: seq<string>, dates: seq<string>)
    requires DistinctPairs(entries)
    requires forall e <- entries :: e.bar.symbol in symbols && e.bar.date in dates
    ensures DistinctKeys(entries, LeOf(symbols, dates))
  {
    forall x, y | x in entries && y in entries && EntryLe(symbols, dates, x, y) && EntryLe(symbols, dates, y, x)
      ensures x == y
    {
      TiesAreEqual(entries, symbols, dates, x, y);
    }
  }

  // ----- permutation invariance -----

  lemma SameMembers(a: seq<Entry>, b: seq<Entry>)
    requires multiset(a) == multiset(b)
    ensures |a| == |b| && forall e :: e in a <==> e in b
  {
    assert |multiset(a)| == |a| && |multiset(b)| == |b|;
    assert forall e :: e in a <==> e in multiset(a);
    assert forall e :: e in b <==> e in multiset(b);
  }

  /** What the encoder derives from the rows as a set. */
  lemma SameSummaries(a: seq<Entry>, b: seq<Entry>)
    requires |a| == |b| && forall e :: e in a <==> e in b
    ensures Symbols(a) == Symbols(b) && Dates(a) == Dates(b)
    ensures BarFields(a) == BarFields(b) && ResearchFieldSet(a) == ResearchFieldSet(b)
    ensures DistinctPairs(a) <==> DistinctPairs(b)
  {
    assert SymbolSet(a) == SymbolSet(b) && DateSet(a) == DateSet(b) && KeySet(a) == KeySet(b);
  }

  lemma SameOrder(a: seq<Entry>, b: seq<Entry>)
    requires multiset(a) == multiset(b) && DistinctPairs(a)
    ensures Ordered(a) == Ordered(b)
  {
    SameMembers(a, b);
    SameSummaries(a, b);
    var le := LeOf(Symbols(a), Dates(a));
    EntryOrder(Symbols(a), Dates(a));
    SortByCorrect(a, le);
    SortByCorrect(b, le);
    PairsAreKeys(a);
    SameMembers(a, Ordered(a));
    SortedUnique(Ordered(a), SortBy(b, le), le);
  }

  lemma SameVerdict(a: seq<Entry>, b: seq<Entry>, basis: Basis, scale: Scaling)
    requires |a| == |b| && forall e :: e in a <==> e in b
    ensures Encodable(a, basis, scale) <==> Encodable(b, basis, scale)
  {
    SameSummaries(a, b);
    assert AllFields(a) == AllFields(b);
    assert forall f :: ColumnFinite(f, basis, a) <==> ColumnFinite(f, basis, b);
  }

  /** Permuting bars, research rows and multipliers together: the same frame, or rejected both times. */
  lemma PermutationInvariant(a: seq<Entry>, b: seq<Entry>, basis: Basis, scale: Scaling)
    requires multiset(a) == multiset(b)
    ensures Encodable(a, basis, scale) <==> Encodable(b, basis, scale)
    ensures Encodable(a, basis, scale) ==> FrameOf(a, basis) == FrameOf(b, basis)
  {
    SameMembers(a, b);
    SameVerdict(a, b, basis, scale);
    if Encodable(a, basis, scale) {
      SameOrder(a, b);
      SameSummaries(a, b);
      assert AllFields(a) == AllFields(b);
      var x, y := FrameOf(a, basis), FrameOf(b, basis);
      assert x.columns == y.columns;
    }
  }

  // ----- what a decoded row holds -----

  lemma ColumnsValid(entries: seq<Entry>, basis: Basis, scale: Scaling)
    requires Encodable(entries, basis, scale)
    ensures forall f <- FrameOf(entries, basis).columns :: |FrameOf(entries, basis).columns[f]| == |entries|
    ensures forall f <- FrameOf(entries, basis).columns :: forall c <- FrameOf(entries, basis).columns[f] :: Finite(c)
  {
    SameEntries(entries);
    var frame, ordered := FrameOf(entries, basis), Ordered(entries);
    forall f, c | f in frame.columns && c in frame.columns[f] ensures Finite(c) {
      assert ColumnFinite(f, basis, entries);
      var i :| 0 <= i < |frame.columns[f]| && frame.columns[f][i] == c;
      assert c == ColumnValue(basis, f, ordered[i]) && ordered[i] in entries;
    }
  }

  /** Index lists point at each row's symbol and date. */
  lemma IndicesPoint(entries: seq<Entry>, basis: Basis, i: nat)
    requires i < |Ordered(entries)|
    ensures 0 <= FrameOf(entries, basis).symbolIndex[i] < |Symbols(entries)|
    ensures 0 <= FrameOf(entries, basis).dateIndex[i] < |Dates(entries)|
    ensures Symbols(entries)[FrameOf(entries, basis).symbolIndex[i]] == Ordered(entries)[i].bar.symbol
    ensures Dates(entries)[FrameOf(entries, basis).dateIndex[i]] == Ordered(entries)[i].bar.date
  {
    var o := Ordered(entries)[i];
    SameEntries(entries);
    SymbolsAndDates(entries);
    assert o in entries;
  }

  lemma FactorsPoint(entries: seq<Entry>)
    requires forall e <- entries :: e.factor.Some?
    ensures var m := FrameOf(entries, Raw).multipliers;
      m.Some? && |m.value| == |Ordered(entries)| && forall f <- m.value :: f.Some?
  {
    SameEntries(entries);
  }

  lemma AllIndicesPoint(entries: seq<Entry>, basis: Basis)
    ensures forall i :: 0 <= i < |Ordered(entries)| ==>
              0 <= FrameOf(entries, basis).symbolIndex[i] < |Symbols(entries)|
              && 0 <= FrameOf(entries, basis).dateIndex[i] < |Dates(entries)|
  {
    forall i | 0 <= i < |Ordered(entries)|
      ensures 0 <= FrameOf(entries, basis).symbolIndex[i] < |Symbols(entries)|
      ensures 0 <= FrameOf(entries, basis).dateIndex[i] < |Dates(entries)|
    {
      IndicesPoint(entries, basis, i);
    }
  }

  lemma FrameShape(entries: seq<Entry>, basis: Basis)
    ensures var frame := FrameOf(entries, basis);
      |frame.symbolIndex| == |frame.dateIndex| == |Ordered(entries)| && frame.basis == basis
      && frame.symbols == Symbols(entries) && frame.dates == Dates(entries)
      && frame.columns.Keys == AllFields(entries)
  {
  }

  /** An accepted frame with a field passes the decoder's checks, and one without does not. */
  lemma FrameValid(entries: seq<Entry>, basis: Basis, scale: Scaling)
    requires Encodable(entries, basis, scale)
    ensures Validated(FrameOf(entries, basis)) <==> AllFields(entries) != {}
  {
    SameEntries(entries);
    FrameShape(entries, basis);
    ColumnsValid(entries, basis, scale);
    AllIndicesPoint(entries, basis);
    FactorsPoint(entries);
    var frame := FrameOf(entries, basis);
    assert frame.columns != map[] <==> frame.columns.Keys != {};
    ValidWhenAligned(frame);
  }

  lemma ValidWhenAligned(frame: Frame)
    requires |frame.symbolIndex| == |frame.dateIndex|
    requires forall f <- frame.columns :: |frame.columns[f]| == |frame.symbolIndex|
    requires forall f <- frame.columns :: forall c <- frame.columns[f] :: Finite(c)
    requires forall i :: 0 <= i < |frame.symbolIndex| ==>
               0 <= frame.symbolIndex[i] < |frame.symbols| && 0 <= frame.dateIndex[i] < |frame.dates|
    requires frame.basis == Raw ==>
               frame.multipliers.Some? && |frame.multipliers.value| == |frame.symbolIndex|
               && forall m <- frame.multipliers.value :: m.Some?
    ensures Validated(frame) <==> frame.columns != map[]
  {
  }

  function PanelFieldSet(entries: seq<Entry>, target: Basis): set<string> {
    if target == Research then ResearchFieldSet(entries) else BarFields(entries)
  }

  function PanelMap(entries: seq<Entry>, basis: Basis, target: Basis, e: Entry): map<string, Cell> {
    map f | f in PanelFieldSet(entries, target) :: ColumnValue(basis, f, e)
  }

  lemma FrameColumn(entries: seq<Entry>, basis: Basis, f: string)
    ensures f in FrameOf(entries, basis).columns <==> f in AllFields(entries)
    ensures f in AllFields(entries) ==> FrameOf(entries, basis).columns[f] == Column(basis, f, Ordered(entries))
  {
  }

  lemma FieldList(entries: seq<Entry>, basis: Basis, target: Basis, f: string)
    ensures f in PanelFields(FrameOf(entries, basis), target) <==> f in PanelFieldSet(entries, target)
  {
  }

  lemma StoredFields(entries: seq<Entry>, basis: Basis, target: Basis, i: nat)
    requires Validated(FrameOf(entries, basis)) && i < |Ordered(entries)|
    requires |FrameOf(entries, basis).symbolIndex| == |Ordered(entries)|
    ensures StoredRow(FrameOf(entries, basis), target, i).fields
            == PanelMap(entries, basis, target, Ordered(entries)[i])
  {
    var frame, m := FrameOf(entries, basis), PanelMap(entries, basis, target, Ordered(entries)[i]);
    forall f
      ensures f in m <==> f in PanelFields(frame, target) && f in frame.columns
      ensures f in m ==> frame.columns[f] == Column(basis, f, Ordered(entries))
    {
      FrameColumn(entries, basis, f);
      FieldList(entries, basis, target, f);
    }
    FieldsAre(frame, target, i, m);
  }

  lemma FieldsAre(frame: Frame, target: Basis, i: nat, m: map<string, Cell>)
    requires Validated(frame) && i < |frame.symbolIndex|
    requires forall f :: f in m <==> f in PanelFields(frame, target) && f in frame.columns
    requires forall f <- m :: frame.columns[f][i] == m[f]
    ensures StoredRow(frame, target, i).fields == m
  {
  }

  /** A stored row has its bar's symbol and date, and every field of the panel with its column's value. */
  lemma StoredRowIs(entries: seq<Entry>, basis: Basis, target: Basis, i: nat)
    requires Validated(FrameOf(entries, basis)) && i < |Ordered(entries)|
    ensures |FrameOf(entries, basis).symbolIndex| == |Ordered(entries)|
    ensures StoredRow(FrameOf(entries, basis), target, i)
            == Row(Ordered(entries)[i].bar.symbol, Ordered(entries)[i].bar.date,
                   PanelMap(entries, basis, target, Ordered(entries)[i]))
  {
    IndicesPoint(entries, basis, i);
    StoredFields(entries, basis, target, i);
  }

  // ----- round trips -----

  function SortedBars(entries: seq<Entry>): seq<Row> {
    seq(|Ordered(entries)|, i requires 0 <= i < |Ordered(entries)| => Ordered(entries)[i].bar)
  }

  function SortedResearch(entries: seq<Entry>): seq<Row> {
    seq(|Ordered(entries)|, i requires 0 <= i < |Ordered(entries)| => Ordered(entries)[i].research)
  }

  /** Every bar has every field of its panel. */
  predicate RectangularBars(entries: seq<Entry>) {
    forall e <- entries :: e.bar.fields.Keys == BarFields(entries)
  }

  lemma BarMatches(entries: seq<Entry>, e: Entry, basis: Basis)
    requires basis != Research && e in entries
    ensures e.bar == Row(e.bar.symbol, e.bar.date, PanelMap(entries, basis, basis, e))
            <==> e.bar.fields.Keys == BarFields(entries)
  {
    var m := PanelMap(entries, basis, basis, e);
    assert m.Keys == BarFields(entries);
    if e.bar.fields.Keys == BarFields(entries) {
      assert e.bar.fields == m;
    }
  }

  lemma DecodedBar(entries: seq<Entry>, basis: Basis, i: nat, scale: Scaling)
    requires basis != Research && Validated(FrameOf(entries, basis)) && i < |Ordered(entries)|
    ensures |FrameOf(entries, basis).symbolIndex| == |Ordered(entries)|
    ensures DecodedRow(FrameOf(entries, basis), basis, i, scale) == Ordered(entries)[i].bar
            <==> Ordered(entries)[i].bar.fields.Keys == BarFields(entries)
  {
    SameEntries(entries);
    StoredRowIs(entries, basis, basis, i);
    assert Ordered(entries)[i] in entries;
    BarMatches(entries, Ordered(entries)[i], basis);
  }

  lemma BarsDecodable(entries: seq<Entry>, basis: Basis, scale: Scaling)
    requires basis != Research && Encodable(entries, basis, scale) && AllFields(entries) != {}
    ensures Decodable(FrameOf(entries, basis), basis, scale)
  {
    FrameValid(entries, basis, scale);
  }

  /** The raw panel, or a snapshot, decodes to the sorted bars exactly when they are rectangular. */
  lemma BarsPanelExact(entries: seq<Entry>, basis: Basis, scale: Scaling)
    requires basis != Research && Encodable(entries, basis, scale) && AllFields(entries) != {}
    ensures Decodable(FrameOf(entries, basis), basis, scale)
    ensures DecodedRows(FrameOf(entries, basis), basis, scale) == SortedBars(entries) <==> RectangularBars(entries)
  {
    BarsDecodable(entries, basis, scale);
    SameEntries(entries);
    var ordered, bars := Ordered(entries), SortedBars(entries);
    var rows := DecodedRows(FrameOf(entries, basis), basis, scale);
    forall i | 0 <= i < |ordered|
      ensures i < |rows| && (rows[i] == bars[i] <==> ordered[i].bar.fields.Keys == BarFields(entries))
    {
      DecodedBar(entries, basis, i, scale);
    }
    RowByRow(entries, rows, bars, (e: Entry) => e.bar.fields.Keys == BarFields(entries));
  }

  /** Lists agree row by row exactly when every entry is as it should be. */
  lemma RowByRow(entries: seq<Entry>, rows: seq<Row>, panel: seq<Row>, good: Entry -> bool)
    requires |rows| == |panel| == |Ordered(entries)|
    requires forall i :: 0 <= i < |rows| ==> (rows[i] == panel[i] <==> good(Ordered(entries)[i]))
    ensures rows == panel <==> forall e <- entries :: good(e)
  {
    SameEntries(entries);
    var ordered := Ordered(entries);
    if rows == panel {
      forall e | e in entries ensures good(e) {
        assert e in ordered;
      }
    } else {
      var i :| 0 <= i < |rows| && rows[i] != panel[i];
      assert ordered[i] in entries;
    }
  }

  /** The research row repeats its bar's key, has every research field, and keeps the bar's other values. */
  predicate ResearchAgrees(entries: seq<Entry>, e: Entry) {
    && e.research.symbol == e.bar.symbol && e.research.date == e.bar.date
    && e.research.fields.Keys == ResearchFieldSet(entries)
    && forall f <- e.research.fields ::
         f !in ADJUSTED && f in e.bar.fields ==> e.bar.fields[f] == e.research.fields[f]
  }

  /** The stored value, multiplied where the decoder does. */
  function Rebuilt(e: Entry, f: string, factor: real, scale: Scaling): Cell {
    var c := ColumnValue(Raw, f, e);
    if f in ADJUSTED && c != Null && scale(c, factor).Some? then scale(c, factor).value else c
  }

  lemma RebuiltAdjusted(e: Entry, f: string, scale: Scaling)
    requires e.factor.Some? && f in ADJUSTED && Reproduces(e, f, scale)
    ensures Rebuilt(e, f, e.factor.value, scale) == Get(e.research, f)
    ensures ColumnValue(Raw, f, e) != Null ==> scale(ColumnValue(Raw, f, e), e.factor.value).Some?
  {
  }

  function RebuiltMap(entries: seq<Entry>, e: Entry, factor: real, scale: Scaling): map<string, Cell> {
    map f | f in ResearchFieldSet(entries) :: Rebuilt(e, f, factor, scale)
  }

  lemma RebuiltExact(entries: seq<Entry>, e: Entry, scale: Scaling)
    requires e in entries && e.factor.Some? && forall f <- ADJUSTED :: Reproduces(e, f, scale)
    ensures Row(e.bar.symbol, e.bar.date, RebuiltMap(entries, e, e.factor.value, scale)) == e.research
            <==> ResearchAgrees(entries, e)
  {
    var m := RebuiltMap(entries, e, e.factor.value, scale);
    forall f | f in ADJUSTED ensures Rebuilt(e, f, e.factor.value, scale) == Get(e.research, f) {
      RebuiltAdjusted(e, f, scale);
    }
    assert m.Keys == ResearchFieldSet(entries);
    if ResearchAgrees(entries, e) {
      assert forall f <- m :: m[f] == e.research.fields[f];
      assert m == e.research.fields;
    }
  }

  lemma DecodedResearch(entries: seq<Entry>, i: nat, scale: Scaling)
    requires Encodable(entries, Raw, scale) && Validated(FrameOf(entries, Raw)) && i < |Ordered(entries)|
    ensures var frame, o := FrameOf(entries, Raw), Ordered(entries)[i];
      |frame.symbolIndex| == |Ordered(entries)| && o.factor.Some?
      && frame.multipliers.value[i] == o.factor
      && StoredRow(frame, Research, i) == Row(o.bar.symbol, o.bar.date, PanelMap(entries, Raw, Research, o))
  {
    SameEntries(entries);
    StoredRowIs(entries, Raw, Research, i);
    assert Ordered(entries)[i] in entries;
  }

  lemma AdjustedPanel(entries: seq<Entry>, e: Entry, scale: Scaling)
    requires e in entries && e.factor.Some? && forall f <- ADJUSTED :: Reproduces(e, f, scale)
    ensures var row := Row(e.bar.symbol, e.bar.date, PanelMap(entries, Raw, Research, e));
      Adjustable(row, e.factor.value, scale)
      && AdjustedRow(row, e.factor.value, scale)
         == Row(e.bar.symbol, e.bar.date, RebuiltMap(entries, e, e.factor.value, scale))
  {
    forall f | f in ADJUSTED
      ensures ColumnValue(Raw, f, e) != Null ==> scale(ColumnValue(Raw, f, e), e.factor.value).Some?
    {
      RebuiltAdjusted(e, f, scale);
    }
  }

  lemma ResearchRowExact(entries: seq<Entry>, i: nat, scale: Scaling)
    requires Encodable(entries, Raw, scale) && Validated(FrameOf(entries, Raw)) && i < |Ordered(entries)|
    ensures var frame, o := FrameOf(entries, Raw), Ordered(entries)[i];
      i < |frame.symbolIndex| && o.factor.Some? && frame.multipliers.value[i] == o.factor
      && Adjustable(StoredRow(frame, Research, i), o.factor.value, scale)
      && (DecodedRow(frame, Research, i, scale) == o.research <==> ResearchAgrees(entries, o))
  {
    DecodedResearch(entries, i, scale);
    var o := Ordered(entries)[i];
    SameEntries(entries);
    assert o in entries;
    AdjustedPanel(entries, o, scale);
    RebuiltExact(entries, o, scale);
  }

  /**
   * The research panel rebuilt from an accepted raw frame is the sorted research panel exactly when every research
   * row agrees with its bar on the key and the fields that are not adjusted, and has every research field.
   */
  lemma ResearchPanelExact(entries: seq<Entry>, scale: Scaling)
    requires Encodable(entries, Raw, scale) && AllFields(entries) != {}
    ensures Decodable(FrameOf(entries, Raw), Research, scale)
    ensures DecodedRows(FrameOf(entries, Raw), Research, scale) == SortedResearch(entries)
            <==> forall e <- entries :: ResearchAgrees(entries, e)
  {
    FrameValid(entries, Raw, scale);
    FrameShape(entries, Raw);
    SameEntries(entries);
    var frame, ordered, panel := FrameOf(entries, Raw), Ordered(entries), SortedResearch(entries);
    var rows := DecodedRows(frame, Research, scale);
    forall i | 0 <= i < |ordered|
      ensures Adjustable(StoredRow(frame, Research, i), frame.multipliers.value[i].value, scale)
      ensures rows[i] == panel[i] <==> ResearchAgrees(entries, ordered[i])
    {
      ResearchRowExact(entries, i, scale);
    }
    RowByRow(entries, rows, panel, (e: Entry) => ResearchAgrees(entries, e));
  }

  // ----- encoding what was decoded -----

  function SnapshotEntries(rows: seq<Row>): seq<Entry> { Zip(rows, rows, Ones(|rows|)) }

  /** A bar with every field of the panel. */
  function Completed(entries: seq<Entry>, e: Entry): Row {
    Row(e.bar.symbol, e.bar.date, PanelMap(entries, Snapshot, Snapshot, e))
  }

  function CompletedRows(entries: seq<Entry>): seq<Row> {
    seq(|Ordered(entries)|, i requires 0 <= i < |Ordered(entries)| => Completed(entries, Ordered(entries)[i]))
  }

  /** A snapshot decodes to its sorted rows, completed with nulls. */
  lemma SnapshotDecodes(entries: seq<Entry>, scale: Scaling)
    requires Encodable(entries, Snapshot, scale) && AllFields(entries) != {}
    ensures Decodable(FrameOf(entries, Snapshot), Snapshot, scale)
    ensures DecodedRows(FrameOf(entries, Snapshot), Snapshot, scale) == CompletedRows(entries)
  {
    BarsDecodable(entries, Snapshot, scale);
    FrameShape(entries, Snapshot);
    forall i | 0 <= i < |Ordered(entries)|
      ensures DecodedRow(FrameOf(entries, Snapshot), Snapshot, i, scale) == CompletedRows(entries)[i]
    {
      StoredRowIs(entries, Snapshot, Snapshot, i);
    }
  }

  lemma KeysWithin(a: seq<Entry>, b: seq<Entry>)
    requires |a| == |b| && forall i :: 0 <= i < |a| ==> Key(a[i]) == Key(b[i])
    ensures forall x <- a :: exists y <- b :: Key(x) == Key(y)
  {
    forall x | x in a ensures exists y <- b :: Key(x) == Key(y) {
      var i :| 0 <= i < |a| && a[i] == x;
      assert b[i] in b && Key(x) == Key(b[i]);
    }
  }

  lemma SameKeySets(a: seq<Entry>, b: seq<Entry>)
    requires forall x <- a :: exists y <- b :: Key(x) == Key(y)
    ensures KeySet(a) <= KeySet(b) && SymbolSet(a) <= SymbolSet(b) && DateSet(a) <= DateSet(b)
  {
    forall x | x in a ensures Key(x) in KeySet(b) && x.bar.symbol in SymbolSet(b) && x.bar.date in DateSet(b) {
      var y :| y in b && Key(x) == Key(y);
      assert x.bar.symbol == y.bar.symbol && x.bar.date == y.bar.date;
    }
  }

  lemma SameKeysOf(a: seq<Entry>, b: seq<Entry>)
    requires |a| == |b| && forall i :: 0 <= i < |a| ==> Key(a[i]) == Key(b[i])
    ensures Symbols(a) == Symbols(b) && Dates(a) == Dates(b) && (DistinctPairs(a) <==> DistinctPairs(b))
  {
    KeysWithin(a, b);
    KeysWithin(b, a);
    SameKeySets(a, b);
    SameKeySets(b, a);
    assert SymbolSet(a) == SymbolSet(b) && DateSet(a) == DateSet(b) && KeySet(a) == KeySet(b);
  }

  /** Rows with ascending keys are in order already. */
  lemma OrderedFixed(entries: seq<Entry>)
    requires DistinctPairs(entries) && Sorted(entries, LeOf(Symbols(entries), Dates(entries)))
    ensures Ordered(entries) == entries
  {
    var le := LeOf(Symbols(entries), Dates(entries));
    EntryOrder(Symbols(entries), Dates(entries));
    SortByCorrect(entries, le);
    PairsAreKeys(entries);
    SortedUnique(entries, Ordered(entries), le);
  }

  /** The completed rows keep keys and order, so they are already sorted as entries. */
  lemma CompletedInOrder(entries: seq<Entry>)
    requires DistinctPairs(entries)
    ensures var again := SnapshotEntries(CompletedRows(entries));
      Symbols(again) == Symbols(entries) && Dates(again) == Dates(entries)
      && DistinctPairs(again) && Ordered(again) == again && |again| == |entries|
  {
    var ordered, again := Ordered(entries), SnapshotEntries(CompletedRows(entries));
    var le := LeOf(Symbols(entries), Dates(entries));
    SameEntries(entries);
    EntryOrder(Symbols(entries), Dates(entries));
    SortByCorrect(entries, le);
    SameSummaries(entries, ordered);
    SameKeysOf(again, ordered);
    SortedByKeys(ordered, again, Symbols(entries), Dates(entries));
    OrderedFixed(again);
  }

  /** The order of entries is an order of their keys. */
  lemma SortedByKeys(a: seq<Entry>, b: seq<Entry>, symbols: seq<string>, dates: seq<string>)
    requires |a| == |b| && (forall i :: 0 <= i < |a| ==> Key(a[i]) == Key(b[i])) && Sorted(a, LeOf(symbols, dates))
    ensures Sorted(b, LeOf(symbols, dates))
  {
    forall i, j | 0 <= i < j < |b| ensures LeOf(symbols, dates)(b[i], b[j]) {
      assert LeOf(symbols, dates)(a[i], a[j]);
      assert a[i].bar.symbol == b[i].bar.symbol && a[j].bar.symbol == b[j].bar.symbol;
      assert a[i].bar.date == b[i].bar.date && a[j].bar.date == b[j].bar.date;
    }
  }

  lemma CompletedEntry(entries: seq<Entry>, i: nat)
    requires i < |Ordered(entries)|
    ensures var again := SnapshotEntries(CompletedRows(entries));
      i < |again| && again[i].bar == again[i].research == Completed(entries, Ordered(entries)[i])
      && again[i].factor.Some?
  {
  }

  /** The completed rows are rectangular, with the fields the snapshot had. */
  lemma CompletedFields(entries: seq<Entry>)
    requires BarFields(entries) != {}
    ensures var again := SnapshotEntries(CompletedRows(entries));
      BarFields(again) == BarFields(entries) && ResearchFieldSet(again) == BarFields(entries)
  {
    SameEntries(entries);
    var again := SnapshotEntries(CompletedRows(entries));
    forall i | 0 <= i < |again|
      ensures again[i].bar.fields.Keys == again[i].research.fields.Keys == BarFields(entries)
    {
      CompletedEntry(entries, i);
    }
    assert |again| > 0 && again[0] in again;
    assert forall e <- again :: e.bar.fields.Keys == e.research.fields.Keys == BarFields(entries);
  }

  lemma CompletedColumn(entries: seq<Entry>, f: string)
    requires f in BarFields(entries)
    ensures Column(Snapshot, f, SnapshotEntries(CompletedRows(entries))) == Column(Snapshot, f, Ordered(entries))
  {
    var again, ordered := SnapshotEntries(CompletedRows(entries)), Ordered(entries);
    forall i | 0 <= i < |ordered| ensures ColumnValue(Snapshot, f, again[i]) == ColumnValue(Snapshot, f, ordered[i]) {
      CompletedEntry(entries, i);
    }
  }

  lemma CompletedFinite(entries: seq<Entry>, scale: Scaling)
    requires Encodable(entries, Snapshot, scale) && BarFields(entries) != {}
    ensures ColumnsFinite(SnapshotEntries(CompletedRows(entries)), Snapshot)
  {
    var again := SnapshotEntries(CompletedRows(entries));
    CompletedFields(entries);
    forall f | f in AllFields(again) ensures ColumnFinite(f, Snapshot, again) {
      CompletedColumnFinite(entries, f, scale);
    }
  }

  lemma CompletedColumnFinite(entries: seq<Entry>, f: string, scale: Scaling)
    requires Encodable(entries, Snapshot, scale) && f in BarFields(entries)
    ensures ColumnFinite(f, Snapshot, SnapshotEntries(CompletedRows(entries)))
  {
    var again, ordered := SnapshotEntries(CompletedRows(entries)), Ordered(entries);
    SameEntries(entries);
    assert f in AllFields(entries) && ColumnFinite(f, Snapshot, entries);
    forall e | e in again ensures Finite(ColumnValue(Snapshot, f, e)) {
      var i :| 0 <= i < |again| && again[i] == e;
      CompletedEntry(entries, i);
      assert ordered[i] in entries;
    }
  }

  /** The rows of a snapshot: bars and research rows are the same list. */
  predicate IsSnapshot(entries: seq<Entry>) { forall e <- entries :: e.research == e.bar }

  lemma SnapshotFieldSets(entries: seq<Entry>)
    requires IsSnapshot(entries)
    ensures ResearchFieldSet(entries) == BarFields(entries) == AllFields(entries)
  {
  }

  /**
   * Snapshot frames are canonical: encoding the rows decoded from one gives the same frame, whether or not the rows
   * it was made from had all their fields.
   */
  lemma SnapshotCanonical(entries: seq<Entry>, scale: Scaling)
    requires IsSnapshot(entries) && Encodable(entries, Snapshot, scale) && AllFields(entries) != {}
    ensures Decodable(FrameOf(entries, Snapshot), Snapshot, scale)
    ensures var back := DecodedRows(FrameOf(entries, Snapshot), Snapshot, scale);
      Encodable(SnapshotEntries(back), Snapshot, scale)
      && FrameOf(SnapshotEntries(back), Snapshot) == FrameOf(entries, Snapshot)
  {
    SnapshotDecodes(entries, scale);
    SnapshotFieldSets(entries);
    CompletedFinite(entries, scale);
    CompletedInOrder(entries);
    CompletedFactors(entries);
    SameFrame(entries);
  }

  lemma CompletedFactors(entries: seq<Entry>)
    ensures forall e <- SnapshotEntries(CompletedRows(entries)) :: e.factor.Some?
  {
  }

  lemma SameIndexLists(symbols: seq<string>, dates: seq<string>, a: seq<Entry>, b: seq<Entry>)
    requires |a| == |b| && forall i :: 0 <= i < |a| ==> Key(a[i]) == Key(b[i])
    ensures SymbolIndices(symbols, a) == SymbolIndices(symbols, b) && DateIndices(dates, a) == DateIndices(dates, b)
  {
  }

  lemma CompletedKeys(entries: seq<Entry>)
    ensures var again := SnapshotEntries(CompletedRows(entries));
      |again| == |Ordered(entries)| && forall i :: 0 <= i < |again| ==> Key(again[i]) == Key(Ordered(entries)[i])
  {
    forall i | 0 <= i < |Ordered(entries)|
      ensures Key(SnapshotEntries(CompletedRows(entries))[i]) == Key(Ordered(entries)[i])
    {
      CompletedEntry(entries, i);
    }
  }

  lemma SameIndices(entries: seq<Entry>)
    requires DistinctPairs(entries)
    ensures var x, y := FrameOf(SnapshotEntries(CompletedRows(entries)), Snapshot), FrameOf(entries, Snapshot);
      x.symbols == y.symbols && x.dates == y.dates && x.symbolIndex == y.symbolIndex && x.dateIndex == y.dateIndex
  {
    CompletedKeys(entries);
    CompletedInOrder(entries);
    SameIndexLists(Symbols(entries), Dates(entries), SnapshotEntries(CompletedRows(entries)), Ordered(entries));
  }

  lemma SameField(entries: seq<Entry>, f: string)
    requires IsSnapshot(entries) && DistinctPairs(entries) && f in BarFields(entries)
    ensures Column(Snapshot, f, Ordered(SnapshotEntries(CompletedRows(entries))))
            == Column(Snapshot, f, Ordered(entries))
  {
    CompletedInOrder(entries);
    CompletedColumn(entries, f);
  }

  lemma SameColumnAt(entries: seq<Entry>, f: string)
    requires IsSnapshot(entries) && DistinctPairs(entries) && BarFields(entries) != {}
    ensures var x := FrameOf(SnapshotEntries(CompletedRows(entries)), Snapshot).columns;
      var y := FrameOf(entries, Snapshot).columns;
      (f in x <==> f in y) && (f in x ==> x[f] == y[f])
  {
    var again := SnapshotEntries(CompletedRows(entries));
    SnapshotFieldSets(entries);
    CompletedFields(entries);
    FrameColumn(again, Snapshot, f);
    FrameColumn(entries, Snapshot, f);
    if f in BarFields(entries) {
      SameField(entries, f);
    }
  }

  lemma SameColumns(entries: seq<Entry>)
    requires IsSnapshot(entries) && DistinctPairs(entries) && BarFields(entries) != {}
    ensures FrameOf(SnapshotEntries(CompletedRows(entries)), Snapshot).columns == FrameOf(entries, Snapshot).columns
  {
    var x, y := FrameOf(SnapshotEntries(CompletedRows(entries)), Snapshot).columns, FrameOf(entries, Snapshot).columns;
    forall f ensures f in x <==> f in y ensures f in x ==> x[f] == y[f] {
      SameColumnAt(entries, f);
    }
    SameMaps(x, y);
  }

  lemma SameMaps(x: map<string, seq<Cell>>, y: map<string, seq<Cell>>)
    requires forall f :: (f in x <==> f in y) && (f in x ==> x[f] == y[f])
    ensures x == y
  {
  }

  lemma SameFieldLists(entries: seq<Entry>)
    requires IsSnapshot(entries) && BarFields(entries) != {}
    ensures var x, y := FrameOf(SnapshotEntries(CompletedRows(entries)), Snapshot), FrameOf(entries, Snapshot);
      x.barsFields == y.barsFields && x.researchFields == y.researchFields
      && x.basis == y.basis && x.multipliers == y.multipliers
  {
    SnapshotFieldSets(entries);
    CompletedFields(entries);
  }

  lemma SameFrame(entries: seq<Entry>)
    requires IsSnapshot(entries) && DistinctPairs(entries) && BarFields(entries) != {}
    ensures FrameOf(SnapshotEntries(CompletedRows(entries)), Snapshot) == FrameOf(entries, Snapshot)
  {
    SameIndices(entries);
    SameColumns(entries);
    SameFieldLists(entries);
  }

  // ----- a snapshot that is not lossless -----

  const PRICED := Row("A", "2020-01-01", map["close" := Number(1.0)])
  const BARE := Row("B", "2020-01-01", map[])

  /** A ragged snapshot is accepted and decodes, but not to the rows it was made from. */
  lemma RaggedSnapshotLoses(scale: Scaling)
    ensures var entries := SnapshotEntries([PRICED, BARE]);
      Encodable(entries, Snapshot, scale) && Decodable(FrameOf(entries, Snapshot), Snapshot, scale)
      && DecodedRows(FrameOf(entries, Snapshot), Snapshot, scale) != SortedBars(entries)
  {
    var entries := SnapshotEntries([PRICED, BARE]);
    RaggedEntries(entries);
    BarsPanelExact(entries, Snapshot, scale);
    assert entries[1] in entries && entries[1].bar.fields.Keys != BarFields(entries);
  }

  lemma RaggedEntries(entries: seq<Entry>)
    requires entries == SnapshotEntries([PRICED, BARE])
    ensures BarFields(entries) == AllFields(entries) == {"close"}
    ensures forall scale :: Encodable(entries, Snapshot, scale)
  {
    assert entries == [Entry(PRICED, PRICED, Some(1.0)), Entry(BARE, BARE, Some(1.0))];
    assert entries[0] in entries && entries[1] in entries;
    assert forall e <- entries :: e == entries[0] || e == entries[1];
    assert "close" in PRICED.fields;
    assert KeySet(entries) == {("A", "2020-01-01"), ("B", "2020-01-01")};
  }

  /** A panel without fields is accepted but does not decode. */
  lemma BareSnapshotStays(scale: Scaling)
    ensures var entries := SnapshotEntries([BARE]);
      Encodable(entries, Snapshot, scale) && !Decodable(FrameOf(entries, Snapshot), Snapshot, scale)
  {
    var entries := SnapshotEntries([BARE]);
    assert entries == [Entry(BARE, BARE, Some(1.0))];
    assert entries[0] in entries && forall e <- entries :: e == entries[0];
    assert KeySet(entries) == {("B", "2020-01-01")};
    assert AllFields(entries) == {};
    FrameValid(entries, Snapshot, scale);
  }
}
