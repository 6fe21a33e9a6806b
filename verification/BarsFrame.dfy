/** The columnar encoding of packages/contracts/bars_frame.py. */
module BarsFrame {
  import opened Outcomes
  import opened Ordering

  /** A value of a panel; `Number` is any finite number. */
  datatype Cell = Null | Number(x: real) | Infinity(negative: bool) | NaN | Text(s: string)

  /** A row: its symbol and date, and its other fields. */
  datatype Row = Row(symbol: string, date: string, fields: map<string, Cell>)

  /** A multiplier; `None` is one that is not finite. */
  type Factor = Option<real>

  datatype Basis = Raw | Research | Snapshot

  /** A value multiplied and rounded to eight places; `None` where Python raises. */
  type Scaling = (Cell, real) -> Option<Cell>

  const ADJUSTED := ["open", "high", "low", "close", "prev_close", "up_limit", "down_limit"]

  /** What stands at one position of the three parallel lists. */
  datatype Entry = Entry(bar: Row, research: Row, factor: Factor)

  datatype Frame = Frame(
    basis: Basis, symbols: seq<string>, dates: seq<string>, symbolIndex: seq<int>, dateIndex: seq<int>,
    barsFields: seq<string>, researchFields: seq<string>, columns: map<string, seq<Cell>>,
    multipliers: Option<seq<Factor>>)

  predicate Finite(c: Cell) { !c.Infinity? && !c.NaN? }

  /** The value of a field, null where the row lacks it. */
  function Get(r: Row, f: string): Cell { if f in r.fields then r.fields[f] else Null }

  // ----- order -----

  function IndexOf(s: seq<string>, x: string): (i: nat)
    ensures x in s ==> i < |s| && s[i] == x
  {
    if s == [] || s[0] == x then 0 else 1 + IndexOf(s[1..], x)
  }

  function SymbolSet(entries: seq<Entry>): set<string> { set e <- entries :: e.bar.symbol }

  function DateSet(entries: seq<Entry>): set<string> { set e <- entries :: e.bar.date }

  function Symbols(entries: seq<Entry>): seq<string> { SortedSet(SymbolSet(entries)) }

  function Dates(entries: seq<Entry>): seq<string> { SortedSet(DateSet(entries)) }

  function Key(e: Entry): (string, string) { (e.bar.symbol, e.bar.date) }

  function KeySet(entries: seq<Entry>): set<(string, string)> { set e <- entries :: Key(e) }

  /** The sort key of the source: positions of symbol and date in their sorted lists. */
  predicate EntryLe(symbols: seq<string>, dates: seq<string>, a: Entry, b: Entry) {
    var i, j := IndexOf(symbols, a.bar.symbol), IndexOf(symbols, b.bar.symbol);
    i < j || (i == j && IndexOf(dates, a.bar.date) <= IndexOf(dates, b.bar.date))
  }

  function LeOf(symbols: seq<string>, dates: seq<string>): (Entry, Entry) -> bool {
    (a: Entry, b: Entry) => EntryLe(symbols, dates, a, b)
  }

  function Ordered(entries: seq<Entry>): seq<Entry> { SortBy(entries, LeOf(Symbols(entries), Dates(entries))) }

  /** No two rows share symbol and date: there are as many pairs as rows. */
  predicate DistinctPairs(entries: seq<Entry>) { |KeySet(entries)| == |entries| }

  // ----- encoding -----

  function BarFields(entries: seq<Entry>): set<string> { set e <- entries, f <- e.bar.fields :: f }

  function ResearchFieldSet(entries: seq<Entry>): set<string> { set e <- entries, f <- e.research.fields :: f }

  function AllFields(entries: seq<Entry>): set<string> { BarFields(entries) + ResearchFieldSet(entries) }

  function ColumnValue(basis: Basis, f: string, e: Entry): Cell {
    if basis == Research then Get(e.research, f)
    else if basis == Snapshot || f in ADJUSTED || f in e.bar.fields then Get(e.bar, f)
    else Get(e.research, f)
  }

  function Column(basis: Basis, f: string, ordered: seq<Entry>): seq<Cell> {
    seq(|ordered|, i requires 0 <= i < |ordered| => ColumnValue(basis, f, ordered[i]))
  }

  /** Python's `==`, which NaN fails even against itself. */
  predicate PyEqual(a: Cell, b: Cell) { a == b && !a.NaN? }

  /** The multiplier turns this raw field into the research field. */
  predicate Reproduces(e: Entry, f: string, scale: Scaling) {
    if f !in e.bar.fields then Get(e.research, f) == Null
    else if e.bar.fields[f] == Null then Get(e.research, f) == Null
    else
      e.factor.Some? && scale(e.bar.fields[f], e.factor.value).Some?
      && PyEqual(scale(e.bar.fields[f], e.factor.value).value, Get(e.research, f))
  }

  predicate ColumnsFinite(entries: seq<Entry>, basis: Basis) {
    forall f <- AllFields(entries) :: ColumnFinite(f, basis, entries)
  }

  predicate AllReproduce(entries: seq<Entry>, scale: Scaling) {
    forall e <- entries, f <- ADJUSTED :: Reproduces(e, f, scale)
  }

  /** The entries the encoder accepts. */
  predicate Encodable(entries: seq<Entry>, basis: Basis, scale: Scaling) {
    && (forall e <- entries :: e.factor.Some?)
    && DistinctPairs(entries)
    && ColumnsFinite(entries, basis)
    && (basis == Raw ==> AllReproduce(entries, scale))
  }

  function SymbolIndices(symbols: seq<string>, ordered: seq<Entry>): seq<int> {
    seq(|ordered|, i requires 0 <= i < |ordered| => IndexOf(symbols, ordered[i].bar.symbol))
  }

  function DateIndices(dates: seq<string>, ordered: seq<Entry>): seq<int> {
    seq(|ordered|, i requires 0 <= i < |ordered| => IndexOf(dates, ordered[i].bar.date))
  }

  function FrameOf(entries: seq<Entry>, basis: Basis): Frame {
    var symbols, dates, ordered := Symbols(entries), Dates(entries), Ordered(entries);
    Frame(
      basis, symbols, dates,
      SymbolIndices(symbols, ordered), DateIndices(dates, ordered),
      SortedSet(BarFields(entries)), SortedSet(ResearchFieldSet(entries)),
      map f | f in AllFields(entries) :: Column(basis, f, ordered),
      if basis == Raw then Some(seq(|ordered|, i requires 0 <= i < |ordered| => ordered[i].factor)) else None)
  }

  /** The three lists as one list of entries. */
  function Zip(bars: seq<Row>, research: seq<Row>, factors: seq<Factor>): seq<Entry>
    requires |bars| == |research| == |factors|
  {
    seq(|bars|, i requires 0 <= i < |bars| => Entry(bars[i], research[i], factors[i]))
  }

  function Ones(n: nat): seq<Factor> { seq(n, i => Some(1.0)) }

  function FactorsOf(n: nat, multipliers: Option<seq<Factor>>): seq<Factor> {
    if multipliers.Some? then multipliers.value else Ones(n)
  }

  predicate Aligned(bars: seq<Row>, research: seq<Row>, multipliers: Option<seq<Factor>>) {
    |bars| == |research| == |FactorsOf(|bars|, multipliers)|
  }

  /** `encode_bars_frame`: the columns are filled field by field in row order, then the raw basis is verified. */
  method EncodeBarsFrame(bars: seq<Row>, research: seq<Row>, basis: Basis, multipliers: Option<seq<Factor>>,
      scale: Scaling) returns (r: Result<Frame>)
    ensures r.Ok? <==> Aligned(bars, research, multipliers)
                       && Encodable(Zip(bars, research, FactorsOf(|bars|, multipliers)), basis, scale)
    ensures r.Ok? ==> r.value == FrameOf(Zip(bars, research, FactorsOf(|bars|, multipliers)), basis)
  {
    if |bars| != |research| { return Err("bars frame raw and research panels must have equal length"); }
    var factors := FactorsOf(|bars|, multipliers);
    if |factors| != |bars| { return Err("bars frame adjustment multipliers must align with rows"); }
    r := EncodeEntries(Zip(bars, research, factors), basis, scale);
  }

  method EncodeEntries(entries: seq<Entry>, basis: Basis, scale: Scaling) returns (r: Result<Frame>)
    ensures r.Ok? <==> Encodable(entries, basis, scale)
    ensures r.Ok? ==> r.value == FrameOf(entries, basis)
  {
    if exists e <- entries :: e.factor.None? { return Err("bars frame adjustment multipliers must be finite"); }
    if !DistinctPairs(entries) { return Err("bars frame rows contain duplicate symbol/date pairs"); }
    var ordered := Ordered(entries);
    OrderedChecks(entries, basis, scale);
    var columns := FillColumns(SortedSet(AllFields(entries)), basis, ordered);
    if columns.Err? { return Err(columns.error); }
    if basis == Raw {
      var verified := Verify(ordered, scale);
      if !verified { return Err("bars frame cannot reproduce a field from its adjustment multiplier"); }
    }
    ColumnsOfFrame(entries, basis, columns.value);
    r := Ok(FrameOf(entries, basis).(columns := columns.value));
  }

  /** Checking rows in sorted order checks them all. */
  lemma OrderedChecks(entries: seq<Entry>, basis: Basis, scale: Scaling)
    ensures AllReproduce(Ordered(entries), scale) <==> AllReproduce(entries, scale)
    ensures (forall f <- SortedSet(AllFields(entries)) :: ColumnFinite(f, basis, Ordered(entries)))
            <==> ColumnsFinite(entries, basis)
  {
    SameEntries(entries);
    forall f ensures ColumnFinite(f, basis, Ordered(entries)) <==> ColumnFinite(f, basis, entries) {
    }
    assert forall f :: f in SortedSet(AllFields(entries)) <==> f in AllFields(entries);
  }

  lemma ColumnsOfFrame(entries: seq<Entry>, basis: Basis, columns: map<string, seq<Cell>>)
    requires forall f :: f in columns <==> f in SortedSet(AllFields(entries))
    requires forall f <- columns :: columns[f] == Column(basis, f, Ordered(entries))
    ensures FrameOf(entries, basis).columns == columns
  {
  }

  lemma SameEntries(entries: seq<Entry>)
    ensures |Ordered(entries)| == |entries| && multiset(Ordered(entries)) == multiset(entries)
    ensures forall e :: e in Ordered(entries) <==> e in entries
  {
    SortByCorrect(entries, LeOf(Symbols(entries), Dates(entries)));
    assert forall e :: e in Ordered(entries) <==> e in multiset(Ordered(entries));
  }

  predicate ColumnFinite(f: string, basis: Basis, entries: seq<Entry>) {
    forall e <- entries :: Finite(ColumnValue(basis, f, e))
  }

  method FillColumn(f: string, basis: Basis, ordered: seq<Entry>) returns (r: Result<seq<Cell>>)
    ensures r.Ok? <==> ColumnFinite(f, basis, ordered)
    ensures r.Ok? ==> r.value == Column(basis, f, ordered)
  {
    var column: seq<Cell> := [];
    for i := 0 to |ordered|
      invariant column == Column(basis, f, ordered)[..i]
      invariant forall j :: 0 <= j < i ==> Finite(ColumnValue(basis, f, ordered[j]))
    {
      var value := ColumnValue(basis, f, ordered[i]);
      assert ordered[i] in ordered;
      if !Finite(value) { return Err("bars frame field must contain only finite numbers"); }
      column := column + [value];
    }
    r := Ok(column);
  }

  method FillColumns(fields: seq<string>, basis: Basis, ordered: seq<Entry>) returns (r: Result<map<string, seq<Cell>>>)
    ensures r.Ok? <==> forall f <- fields :: ColumnFinite(f, basis, ordered)
    ensures r.Ok? ==> (forall f :: f in r.value <==> f in fields)
                      && forall f <- r.value :: r.value[f] == Column(basis, f, ordered)
  {
    var columns: map<string, seq<Cell>> := map[];
    for i := 0 to |fields|
      invariant forall f :: f in columns <==> f in fields[..i]
      invariant forall f <- columns :: columns[f] == Column(basis, f, ordered)
      invariant forall j :: 0 <= j < i ==> ColumnFinite(fields[j], basis, ordered)
    {
      var column := FillColumn(fields[i], basis, ordered);
      if column.Err? { return Err(column.error); }
      assert fields[..i + 1] == fields[..i] + [fields[i]];
      columns := columns[fields[i] := column.value];
    }
    assert fields[..|fields|] == fields;
    r := Ok(columns);
  }

  /** The loop that checks every adjusted field of every row. */
  method Verify(ordered: seq<Entry>, scale: Scaling) returns (ok: bool)
    ensures ok <==> AllReproduce(ordered, scale)
  {
    for i := 0 to |ordered|
      invariant forall j :: 0 <= j < i ==> forall f <- ADJUSTED :: Reproduces(ordered[j], f, scale)
    {
      assert ordered[i] in ordered;
      for k := 0 to |ADJUSTED|
        invariant forall l :: 0 <= l < k ==> Reproduces(ordered[i], ADJUSTED[l], scale)
      {
        assert ADJUSTED[k] in ADJUSTED;
        if !Reproduces(ordered[i], ADJUSTED[k], scale) { return false; }
      }
    }
    return true;
  }

  // ----- decoding -----

  predicate Validated(frame: Frame) {
    && frame.columns != map[]
    && |frame.symbolIndex| == |frame.dateIndex|
    && (forall f <- frame.columns :: |frame.columns[f]| == |frame.symbolIndex|)
    && (forall f <- frame.columns :: forall c <- frame.columns[f] :: Finite(c))
    && (forall i :: 0 <= i < |frame.symbolIndex| ==> 0 <= frame.symbolIndex[i] < |frame.symbols|)
    && (forall i :: 0 <= i < |frame.dateIndex| ==> 0 <= frame.dateIndex[i] < |frame.dates|)
    && (frame.basis == Raw ==>
          frame.multipliers.Some? && |frame.multipliers.value| == |frame.symbolIndex|
          && forall m <- frame.multipliers.value :: m.Some?)
  }

  /** The panel a frame can be asked for. */
  predicate Available(frame: Frame, target: Basis) {
    match target
    case Raw => frame.basis == Raw
    case Research => frame.basis != Snapshot
    case Snapshot => frame.basis == Snapshot
  }

  function PanelFields(frame: Frame, target: Basis): seq<string> {
    if target == Research then frame.researchFields else frame.barsFields
  }

  function StoredRow(frame: Frame, target: Basis, i: nat): Row
    requires Validated(frame) && i < |frame.symbolIndex|
  {
    Row(frame.symbols[frame.symbolIndex[i]], frame.dates[frame.dateIndex[i]],
        map f | f in PanelFields(frame, target) && f in frame.columns :: frame.columns[f][i])
  }

  function StoredRows(frame: Frame, target: Basis): seq<Row>
    requires Validated(frame)
  {
    seq(|frame.symbolIndex|, i requires 0 <= i < |frame.symbolIndex| => StoredRow(frame, target, i))
  }

  predicate Adjustable(row: Row, factor: real, scale: Scaling) {
    forall f <- ADJUSTED :: f in row.fields && row.fields[f] != Null ==> scale(row.fields[f], factor).Some?
  }

  function AdjustedCell(row: Row, f: string, factor: real, scale: Scaling): Cell
    requires f in row.fields
  {
    var c := row.fields[f];
    if f in ADJUSTED && c != Null && scale(c, factor).Some? then scale(c, factor).value else c
  }

  /** The row with its adjusted fields multiplied. */
  function AdjustedRow(row: Row, factor: real, scale: Scaling): Row {
    row.(fields := map f | f in row.fields :: AdjustedCell(row, f, factor, scale))
  }

  /** What the decoder's loops return. */
  predicate Decodable(frame: Frame, target: Basis, scale: Scaling) {
    && Validated(frame) && Available(frame, target)
    && (target == Research && frame.basis == Raw ==>
          forall i :: 0 <= i < |frame.symbolIndex| ==>
            Adjustable(StoredRow(frame, target, i), frame.multipliers.value[i].value, scale))
  }

  function DecodedRow(frame: Frame, target: Basis, i: nat, scale: Scaling): Row
    requires Validated(frame) && i < |frame.symbolIndex|
  {
    var row := StoredRow(frame, target, i);
    if target == Research && frame.basis == Raw then AdjustedRow(row, frame.multipliers.value[i].value, scale) else row
  }

  function DecodedRows(frame: Frame, target: Basis, scale: Scaling): seq<Row>
    requires Validated(frame)
  {
    seq(|frame.symbolIndex|, i requires 0 <= i < |frame.symbolIndex| => DecodedRow(frame, target, i, scale))
  }

  /** `decode_bars_frame`: rows are appended, then the research fields of a raw frame are overwritten. */
  method DecodeBarsFrame(frame: Frame, basis: Option<Basis>, scale: Scaling) returns (r: Result<seq<Row>>)
    ensures r.Ok? <==> Decodable(frame, if basis.None? then frame.basis else basis.value, scale)
    ensures r.Ok? ==> r.value == DecodedRows(frame, if basis.None? then frame.basis else basis.value, scale)
  {
    if !Validated(frame) { return Err("bars frame is invalid"); }
    var target := if basis.None? then frame.basis else basis.value;
    if !Available(frame, target) { return Err("panel is unavailable for this frame"); }
    var rows := ExpandRows(frame, target);
    if target == Research && frame.basis == Raw {
      r := AdjustRows(frame, rows, scale);
    } else {
      r := Ok(rows);
    }
  }

  /** The loop over the appended rows and their multipliers. */
  method AdjustRows(frame: Frame, stored: seq<Row>, scale: Scaling) returns (r: Result<seq<Row>>)
    requires Validated(frame) && frame.basis == Raw && stored == StoredRows(frame, Research)
    ensures r.Ok? <==> Decodable(frame, Research, scale)
    ensures r.Ok? ==> r.value == DecodedRows(frame, Research, scale)
  {
    var rows := stored;
    for i := 0 to |rows|
      invariant |rows| == |stored|
      invariant rows[..i] == DecodedRows(frame, Research, scale)[..i] && rows[i..] == stored[i..]
      invariant forall j :: 0 <= j < i ==> Adjustable(stored[j], frame.multipliers.value[j].value, scale)
    {
      var m := frame.multipliers.value[i];
      assert m in frame.multipliers.value && rows[i] == stored[i];
      var row := Overwrite(rows[i], m.value, scale);
      if row.Err? { return Err(row.error); }
      rows := rows[i := row.value];
    }
    r := Ok(rows);
  }

  method ExpandRows(frame: Frame, target: Basis) returns (rows: seq<Row>)
    requires Validated(frame)
    ensures rows == StoredRows(frame, target)
  {
    rows := [];
    for i := 0 to |frame.symbolIndex|
      invariant rows == StoredRows(frame, target)[..i]
    {
      rows := rows + [StoredRow(frame, target, i)];
    }
  }

  /** One row's adjusted fields, overwritten one after the other. */
  method Overwrite(stored: Row, factor: real, scale: Scaling) returns (r: Result<Row>)
    ensures r.Ok? <==> Adjustable(stored, factor, scale)
    ensures r.Ok? ==> r.value == AdjustedRow(stored, factor, scale)
  {
    var fields := stored.fields;
    for k := 0 to |ADJUSTED|
      invariant fields.Keys == stored.fields.Keys
      invariant forall f <- fields :: fields[f] ==
                  if f in ADJUSTED[..k] then AdjustedCell(stored, f, factor, scale) else stored.fields[f]
      invariant forall l :: 0 <= l < k && ADJUSTED[l] in fields && stored.fields[ADJUSTED[l]] != Null ==>
                  scale(stored.fields[ADJUSTED[l]], factor).Some?
    {
      var f := ADJUSTED[k];
      assert f in ADJUSTED && f !in ADJUSTED[..k];
      if f in fields && fields[f] != Null {
        var value := scale(fields[f], factor);
        if value.None? { return Err("bars frame value cannot be multiplied"); }
        fields := fields[f := value.value];
      }
      assert ADJUSTED[..k + 1] == ADJUSTED[..k] + [f];
    }
    r := Ok(stored.(fields := fields));
  }
}
