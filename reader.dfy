/** Schema reader: the four sheet parsers of `SustainExcelImporter`
    (`_parse_metadata`, `_parse_activities`, `_parse_exchanges`,
    `_parse_flow_mapping`). Each is a loop over the rows of a sheet; each
    loop is proved against a function that continues from an accumulator,
    so a cell that raises ends the whole parse, as the exception does. */
module SchemaReader {
  import opened Values
  import opened Lci

  const ActivityCode := Named("Activity Code")
  const ActivityName := Named("Activity Name")
  const UnitColumn := Named("Unit")
  const LocationColumn := Named("Location")
  const ReferenceProduction := Named("Reference Production")
  const ExchangeType := Named("Exchange Type")
  const FlowName := Named("Flow Name")
  const AmountColumn := Named("Amount")
  const CategoryColumn := Named("Category")
  const UncertaintyColumn := Named("Uncertainty")
  const UserFlowName := Named("User Flow Name")
  const BiosphereFlowName := Named("Biosphere3 Flow Name (Brightway)")

  /** The marker of the "±<number>" uncertainty notation. */
  const PlusMinus: char := '\U{B1}'

  // ---------------------------------------------------------------------
  // The row loops shared by the four parsers
  // ---------------------------------------------------------------------

  /** A row parser: `Ok(None)` skips the row, `Ok(Some(x))` contributes
      `x`, `Err` is the exception the row raises. */
  type RowParser<T> = Row -> Result<Option<T>, Failure>

  /** The records `parse` gives for `rows`, appended to `acc` in row
      order; the first row that raises ends the parse. */
  function Collect<T>(acc: seq<T>, rows: seq<Row>, parse: RowParser<T>): Result<seq<T>, Failure>
    decreases |rows|
  {
    if rows == [] then Ok(acc)
    else
      var x :- parse(rows[0]);
      Collect(if x.Some? then acc + [x.value] else acc, rows[1..], parse)
  }

  /** The loop `for _, row in df.iterrows(): ... .append(...)`. */
  method CollectRows<T>(rows: seq<Row>, parse: RowParser<T>) returns (r: Result<seq<T>, Failure>)
    ensures r == Collect([], rows, parse)
  {
    var records := [];
    var i := 0;
    while i < |rows|
      invariant 0 <= i <= |rows|
      invariant Collect(records, rows[i..], parse) == Collect([], rows, parse)
    {
      var x := parse(rows[i]);
      assert rows[i..][1..] == rows[i + 1..];
      if x.Err? {
        return Err(x.error);
      }
      if x.value.Some? {
        records := records + [x.value.value];
      }
      i := i + 1;
    }
    assert rows[i..] == [];
    r := Ok(records);
  }

  /** The dictionary `entry` builds from `rows`, continuing from `acc`; a
      later row overwrites the value an earlier row gave the same key. */
  function Dictionary(acc: map<string, string>, rows: seq<Row>, entry: RowParser<(string, string)>)
    : Result<map<string, string>, Failure>
    decreases |rows|
  {
    if rows == [] then Ok(acc)
    else
      var kv :- entry(rows[0]);
      Dictionary(if kv.Some? then acc[kv.value.0 := kv.value.1] else acc, rows[1..], entry)
  }

  /** The loop `for _, row in df.iterrows(): ... mapping[key] = value`. */
  method CollectPairs(rows: seq<Row>, entry: RowParser<(string, string)>)
    returns (r: Result<map<string, string>, Failure>)
    ensures r == Dictionary(map[], rows, entry)
  {
    var mapping := map[];
    var i := 0;
    while i < |rows|
      invariant 0 <= i <= |rows|
      invariant Dictionary(mapping, rows[i..], entry) == Dictionary(map[], rows, entry)
    {
      var kv := entry(rows[i]);
      assert rows[i..][1..] == rows[i + 1..];
      if kv.Err? {
        return Err(kv.error);
      }
      if kv.value.Some? {
        mapping := mapping[kv.value.value.0 := kv.value.value.1];
      }
      i := i + 1;
    }
    assert rows[i..] == [];
    r := Ok(mapping);
  }

  /** A row the parser skips leaves the result unchanged wherever it
      stands. */
  lemma {:induction false} SkippedRowChangesNothing<T>(acc: seq<T>, before: seq<Row>, skipped: Row,
                                                       after: seq<Row>, parse: RowParser<T>)
    requires parse(skipped) == Ok(None)
    ensures Collect(acc, before + [skipped] + after, parse) == Collect(acc, before + after, parse)
    decreases |before|
  {
    if before == [] {
      assert before + [skipped] + after == [skipped] + after && before + after == after;
      assert ([skipped] + after)[1..] == after;
    } else {
      assert (before + [skipped] + after)[0] == (before + after)[0] == before[0];
      assert (before + [skipped] + after)[1..] == before[1..] + [skipped] + after;
      assert (before + after)[1..] == before[1..] + after;
      var x := parse(before[0]);
      if x.Ok? {
        SkippedRowChangesNothing(if x.value.Some? then acc + [x.value.value] else acc,
                                 before[1..], skipped, after, parse);
      }
    }
  }

  /** Number of rows the parser turns into a record. */
  function Kept<T>(rows: seq<Row>, parse: RowParser<T>): nat {
    if rows == [] then 0
    else (if parse(rows[0]).Ok? && parse(rows[0]).value.Some? then 1 else 0) + Kept(rows[1..], parse)
  }

  /** A successful parse keeps `acc`, then holds one record per kept row,
      and every record it adds satisfies whatever each kept row's record
      satisfies. */
  lemma {:induction false} CollectedRecords<T>(acc: seq<T>, rows: seq<Row>, parse: RowParser<T>,
                                               holds: T -> bool)
    requires Collect(acc, rows, parse).Ok?
    requires forall i :: 0 <= i < |rows| && parse(rows[i]).Ok? && parse(rows[i]).value.Some?
               ==> holds(parse(rows[i]).value.value)
    ensures var records := Collect(acc, rows, parse).value;
            |records| == |acc| + Kept(rows, parse) && records[..|acc|] == acc
            && forall j :: |acc| <= j < |records| ==> holds(records[j])
    decreases |rows|
  {
    if rows != [] {
      var x := parse(rows[0]);
      var acc' := if x.value.Some? then acc + [x.value.value] else acc;
      forall i | 0 <= i < |rows[1..]| && parse(rows[1..][i]).Ok? && parse(rows[1..][i]).value.Some?
        ensures holds(parse(rows[1..][i]).value.value)
      {
        assert rows[1..][i] == rows[i + 1];
      }
      CollectedRecords(acc', rows[1..], parse, holds);
      var records := Collect(acc, rows, parse).value;
      assert records[..|acc'|] == acc';
      if x.value.Some? {
        assert records[|acc|] == x.value.value;
      }
    }
  }

  /** The last filled row with a given key decides its value. */
  lemma {:induction false} LastRowWins(acc: map<string, string>, rows: seq<Row>,
                                       entry: RowParser<(string, string)>, i: nat,
                                       m: map<string, string>)
    requires Dictionary(acc, rows, entry) == Ok(m)
    requires i < |rows| && entry(rows[i]).Ok? && entry(rows[i]).value.Some?
    requires forall j :: i < j < |rows| && entry(rows[j]).Ok? && entry(rows[j]).value.Some?
               ==> entry(rows[j]).value.value.0 != entry(rows[i]).value.value.0
    ensures var kv := entry(rows[i]).value.value;
            kv.0 in m && m[kv.0] == kv.1
    decreases |rows|
  {
    var kv := entry(rows[0]).value;
    var acc' := if kv.Some? then acc[kv.value.0 := kv.value.1] else acc;
    if i == 0 {
      KeyKept(acc', rows[1..], entry, kv.value.0, m);
    } else {
      forall j | i - 1 < j < |rows[1..]| && entry(rows[1..][j]).Ok? && entry(rows[1..][j]).value.Some?
        ensures entry(rows[1..][j]).value.value.0 != entry(rows[1..][i - 1]).value.value.0
      {
        assert rows[1..][j] == rows[j + 1];
      }
      LastRowWins(acc', rows[1..], entry, i - 1, m);
    }
  }

  /** A key no row mentions keeps the value it has in `acc`. */
  lemma {:induction false} KeyKept(acc: map<string, string>, rows: seq<Row>,
                                   entry: RowParser<(string, string)>, k: string,
                                   m: map<string, string>)
    requires Dictionary(acc, rows, entry) == Ok(m)
    requires k in acc
    requires forall j :: 0 <= j < |rows| && entry(rows[j]).Ok? && entry(rows[j]).value.Some?
               ==> entry(rows[j]).value.value.0 != k
    ensures k in m && m[k] == acc[k]
    decreases |rows|
  {
    if rows != [] {
      var kv := entry(rows[0]).value;
      forall j | 0 <= j < |rows[1..]| && entry(rows[1..][j]).Ok? && entry(rows[1..][j]).value.Some?
        ensures entry(rows[1..][j]).value.value.0 != k
      {
        assert rows[1..][j] == rows[j + 1];
      }
      KeyKept(if kv.Some? then acc[kv.value.0 := kv.value.1] else acc, rows[1..], entry, k, m);
    }
  }

  // ---------------------------------------------------------------------
  // Key/value sheets: 'Project Metadata' and 'Biosphere Flows Mapping'
  // ---------------------------------------------------------------------

  /** One key/value row: both cells stripped when both are filled. The
      value column is looked up only when the key cell is filled, as
      Python's `and` does. */
  function KeyValueEntry(keyCol: Label, valueCol: Label, columns: set<Label>, row: Row)
    : (r: Result<Option<(string, string)>, Failure>)
    ensures r.Err? <==> keyCol !in columns || (keyCol in row && valueCol !in columns)
    ensures keyCol in columns && keyCol !in row ==> r == Ok(None)
    ensures r.Ok? ==> (r.value.Some? <==> keyCol in row && valueCol in row)
    ensures r.Ok? && r.value.Some? ==>
              keyCol in row && valueCol in row
              && r.value.value == (Strip(row[keyCol]), Strip(row[valueCol]))
  {
    var key :- Cell(columns, row, keyCol);
    if key.None? then Ok(None)
    else
      var value :- Cell(columns, row, valueCol);
      if value.None? then Ok(None)
      else Ok(Some((Strip(key.value), Strip(value.value))))
  }

  function MetadataEntry(columns: set<Label>): RowParser<(string, string)> {
    row => KeyValueEntry(Position(0), Position(1), columns, row)
  }

  function MappingEntry(columns: set<Label>): RowParser<(string, string)> {
    row => KeyValueEntry(UserFlowName, BiosphereFlowName, columns, row)
  }

  /** `_parse_metadata`: the sheet is read without a header row, so its
      columns are positions 0 and 1. */
  method ParseMetadata(sheet: Table) returns (r: Result<map<string, string>, Failure>)
    ensures r == Dictionary(map[], sheet.rows, MetadataEntry(sheet.columns))
  {
    r := CollectPairs(sheet.rows, MetadataEntry(sheet.columns));
  }

  /** `_parse_flow_mapping`: user flow name to biosphere flow name. */
  method ParseFlowMapping(sheet: Table) returns (r: Result<map<string, string>, Failure>)
    ensures r == Dictionary(map[], sheet.rows, MappingEntry(sheet.columns))
  {
    r := CollectPairs(sheet.rows, MappingEntry(sheet.columns));
  }

  /** In the flow mapping, the last row that maps a user flow name decides
      its biosphere name. */
  lemma MappingLastRowWins(columns: set<Label>, rows: seq<Row>, i: nat, m: map<string, string>)
    requires Dictionary(map[], rows, MappingEntry(columns)) == Ok(m)
    requires i < |rows| && UserFlowName in rows[i] && BiosphereFlowName in rows[i]
    requires UserFlowName in columns && BiosphereFlowName in columns
    requires forall j :: i < j < |rows| && UserFlowName in rows[j] ==>
               Strip(rows[j][UserFlowName]) != Strip(rows[i][UserFlowName])
    ensures Strip(rows[i][UserFlowName]) in m
    ensures m[Strip(rows[i][UserFlowName])] == Strip(rows[i][BiosphereFlowName])
  {
    var entry := MappingEntry(columns);
    assert entry(rows[i]) == Ok(Some((Strip(rows[i][UserFlowName]), Strip(rows[i][BiosphereFlowName]))));
    forall j | i < j < |rows| && entry(rows[j]).Ok? && entry(rows[j]).value.Some?
      ensures entry(rows[j]).value.value.0 != entry(rows[i]).value.value.0
    {
      assert entry(rows[j]) == KeyValueEntry(UserFlowName, BiosphereFlowName, columns, rows[j]);
    }
    LastRowWins(map[], rows, entry, i, m);
  }

  // ---------------------------------------------------------------------
  // 'Process Activities'
  // ---------------------------------------------------------------------

  /** One activity row; `None` for a row whose Activity Code is blank.
      Text fields are stripped; a blank text cell reads as "nan". */
  function ActivityRow(columns: set<Label>, row: Row, toFloat: string -> Option<Float>)
    : (r: Result<Option<Activity>, Failure>)
    ensures r.Err? <==>
              || ActivityCode !in columns
              || (&& ActivityCode in row
                  && (|| ActivityName !in columns || UnitColumn !in columns
                      || LocationColumn !in columns || ReferenceProduction !in columns
                      || CellFloat(row, ReferenceProduction, toFloat).None?))
    ensures ActivityCode in columns && ActivityCode !in row ==> r == Ok(None)
    ensures r.Ok? ==> (r.value.Some? <==> ActivityCode in row)
    ensures r.Ok? && r.value.Some? ==>
              r.value.value == Activity(Strip(row[ActivityCode]),
                                        Strip(CellText(row, ActivityName)),
                                        Strip(CellText(row, UnitColumn)),
                                        Strip(CellText(row, LocationColumn)),
                                        CellFloat(row, ReferenceProduction, toFloat).value)
  {
    var code :- Cell(columns, row, ActivityCode);
    if code.None? then Ok(None)
    else
      var name :- Cell(columns, row, ActivityName);
      var unit :- Cell(columns, row, UnitColumn);
      var location :- Cell(columns, row, LocationColumn);
      var production :- Cell(columns, row, ReferenceProduction);
      var amount :- ToFloat(production, toFloat);
      Ok(Some(Activity(Strip(code.value), Strip(Text(name)), Strip(Text(unit)),
                       Strip(Text(location)), amount)))
  }

  function ActivityParser(columns: set<Label>, toFloat: string -> Option<Float>): RowParser<Activity> {
    row => ActivityRow(columns, row, toFloat)
  }

  /** `_parse_activities`. */
  method ParseActivities(sheet: Table, toFloat: string -> Option<Float>)
    returns (r: Result<seq<Activity>, Failure>)
    ensures r == Collect([], sheet.rows, ActivityParser(sheet.columns, toFloat))
  {
    r := CollectRows(sheet.rows, ActivityParser(sheet.columns, toFloat));
  }

  /** A row whose Activity Code is blank is skipped wherever it stands. */
  lemma BlankActivityRowSkipped(columns: set<Label>, before: seq<Row>, blank: Row, after: seq<Row>,
                                toFloat: string -> Option<Float>)
    requires ActivityCode in columns && ActivityCode !in blank
    ensures Collect([], before + [blank] + after, ActivityParser(columns, toFloat))
         == Collect([], before + after, ActivityParser(columns, toFloat))
  {
    SkippedRowChangesNothing([], before, blank, after, ActivityParser(columns, toFloat));
  }

  /** Number of rows whose Activity Code cell is filled. */
  function CodedRows(rows: seq<Row>): nat {
    if rows == [] then 0 else (if ActivityCode in rows[0] then 1 else 0) + CodedRows(rows[1..])
  }

  lemma {:induction false} KeptAreCoded<T>(rows: seq<Row>, parse: RowParser<T>)
    requires forall i :: 0 <= i < |rows| ==>
               parse(rows[i]).Ok? && (parse(rows[i]).value.Some? <==> ActivityCode in rows[i])
    ensures Kept(rows, parse) == CodedRows(rows)
    decreases |rows|
  {
    if rows != [] {
      assert forall i :: 0 <= i < |rows[1..]| ==> rows[1..][i] == rows[i + 1];
      KeptAreCoded(rows[1..], parse);
    }
  }

  lemma {:induction false} CollectOkAllRowsOk<T>(acc: seq<T>, rows: seq<Row>, parse: RowParser<T>)
    requires Collect(acc, rows, parse).Ok?
    ensures forall i :: 0 <= i < |rows| ==> parse(rows[i]).Ok?
    decreases |rows|
  {
    if rows != [] {
      var x := parse(rows[0]).value;
      CollectOkAllRowsOk(if x.Some? then acc + [x.value] else acc, rows[1..], parse);
      assert forall i :: 0 < i < |rows| ==> rows[i] == rows[1..][i - 1];
    }
  }

  /** A successful parse yields exactly one activity per row with a code,
      and every activity's code is stripped. */
  lemma ActivitiesOnePerCodedRow(columns: set<Label>, rows: seq<Row>, toFloat: string -> Option<Float>)
    requires Collect([], rows, ActivityParser(columns, toFloat)).Ok?
    ensures var acts := Collect([], rows, ActivityParser(columns, toFloat)).value;
            |acts| == CodedRows(rows) && forall a :: a in acts ==> Stripped(a.code)
  {
    var parse := ActivityParser(columns, toFloat);
    CollectOkAllRowsOk([], rows, parse);
    KeptAreCoded(rows, parse);
    CollectedRecords([], rows, parse, (a: Activity) => Stripped(a.code));
  }

  // ---------------------------------------------------------------------
  // 'Exchanges'
  // ---------------------------------------------------------------------

  /** The uncertainty of an exchange row: present only when the sheet has
      an Uncertainty column, the cell is filled, it contains '±' and what is
      left after removing every '±' and stripping converts to a float. */
  function UncertaintyOf(columns: set<Label>, row: Row, toFloat: string -> Option<Float>)
    : Option<Float>
  {
    if UncertaintyColumn in columns && UncertaintyColumn in row
       && PlusMinus in row[UncertaintyColumn]
    then toFloat(Strip(RemoveAll(row[UncertaintyColumn], PlusMinus)))
    else None
  }

  /** A kind as `.strip().lower()` leaves it. */
  predicate Normalized(kind: string) {
    Stripped(kind) && Lower(kind) == kind
  }

  lemma LowerKeepsStripped(s: string)
    requires Stripped(s)
    ensures Stripped(Lower(s))
  {
    if s != [] {
      assert Lower(s)[0] == LowerChar(s[0]);
      assert Lower(s)[|s| - 1] == LowerChar(s[|s| - 1]);
    }
  }

  /** One exchange row; `None` for a row whose Activity Code is blank. */
  function ExchangeRow(columns: set<Label>, row: Row, toFloat: string -> Option<Float>)
    : (r: Result<Option<Exchange>, Failure>)
    ensures ActivityCode in columns && ActivityCode !in row ==> r == Ok(None)
    ensures r.Err? <==>
              || ActivityCode !in columns
              || (&& ActivityCode in row
                  && (|| ExchangeType !in columns || FlowName !in columns
                      || AmountColumn !in columns || UnitColumn !in columns
                      || CategoryColumn !in columns
                      || CellFloat(row, AmountColumn, toFloat).None?))
    ensures r.Ok? ==> (r.value.Some? <==> ActivityCode in row)
    ensures r.Ok? && r.value.Some? ==>
              && Normalized(r.value.value.kind)
              && r.value.value
                 == Exchange(Strip(row[ActivityCode]),
                             Lower(Strip(CellText(row, ExchangeType))),
                             Strip(CellText(row, FlowName)),
                             CellFloat(row, AmountColumn, toFloat).value,
                             Strip(CellText(row, UnitColumn)),
                             if CategoryColumn in row then Some(Strip(row[CategoryColumn])) else None,
                             UncertaintyOf(columns, row, toFloat))
  {
    var code :- Cell(columns, row, ActivityCode);
    if code.None? then Ok(None)
    else
      var kind :- Cell(columns, row, ExchangeType);
      var flow :- Cell(columns, row, FlowName);
      var amountCell :- Cell(columns, row, AmountColumn);
      var amount :- ToFloat(amountCell, toFloat);
      var unit :- Cell(columns, row, UnitColumn);
      var category :- Cell(columns, row, CategoryColumn);
      LowerKeepsStripped(Strip(Text(kind)));
      LowerIdempotent(Strip(Text(kind)));
      Ok(Some(Exchange(Strip(code.value), Lower(Strip(Text(kind))), Strip(Text(flow)), amount,
                       Strip(Text(unit)),
                       if category.Some? then Some(Strip(category.value)) else None,
                       UncertaintyOf(columns, row, toFloat))))
  }

  function ExchangeParser(columns: set<Label>, toFloat: string -> Option<Float>): RowParser<Exchange> {
    row => ExchangeRow(columns, row, toFloat)
  }

  /** `_parse_exchanges`. */
  method ParseExchanges(sheet: Table, toFloat: string -> Option<Float>)
    returns (r: Result<seq<Exchange>, Failure>)
    ensures r == Collect([], sheet.rows, ExchangeParser(sheet.columns, toFloat))
  {
    r := CollectRows(sheet.rows, ExchangeParser(sheet.columns, toFloat));
  }

  /** A row whose Activity Code is blank is skipped wherever it stands. */
  lemma BlankExchangeRowSkipped(columns: set<Label>, before: seq<Row>, blank: Row, after: seq<Row>,
                                toFloat: string -> Option<Float>)
    requires ActivityCode in columns && ActivityCode !in blank
    ensures Collect([], before + [blank] + after, ExchangeParser(columns, toFloat))
         == Collect([], before + after, ExchangeParser(columns, toFloat))
  {
    SkippedRowChangesNothing([], before, blank, after, ExchangeParser(columns, toFloat));
  }

  /** A successful parse yields one exchange per row with a code, and every
      exchange's kind is stripped and lower-case. */
  lemma ExchangeKindsNormalized(columns: set<Label>, rows: seq<Row>, toFloat: string -> Option<Float>)
    requires Collect([], rows, ExchangeParser(columns, toFloat)).Ok?
    ensures var excs := Collect([], rows, ExchangeParser(columns, toFloat)).value;
            |excs| == CodedRows(rows) && forall e :: e in excs ==> Normalized(e.kind)
  {
    var parse := ExchangeParser(columns, toFloat);
    CollectOkAllRowsOk([], rows, parse);
    KeptAreCoded(rows, parse);
    CollectedRecords([], rows, parse, (e: Exchange) => Normalized(e.kind));
  }

  lemma {:induction false} RemoveAllAbsent(s: string, c: char)
    requires c !in s
    ensures RemoveAll(s, c) == s
  {
    if s != [] {
      RemoveAllAbsent(s[1..], c);
    }
  }

  /** The "±<number>" notation: a cell "±t" carries exactly the value that
      `float(t)` gives, and a cell without '±' carries no uncertainty at all
      (the key is absent, not zero). */
  lemma UncertaintyNotation(columns: set<Label>, row: Row, toFloat: string -> Option<Float>, t: string)
    requires UncertaintyColumn in columns && UncertaintyColumn in row
    requires row[UncertaintyColumn] == [PlusMinus] + t && PlusMinus !in t && Stripped(t)
    ensures UncertaintyOf(columns, row, toFloat) == toFloat(t)
    ensures UncertaintyOf(columns, row[UncertaintyColumn := t], toFloat) == None
  {
    RemoveAllAbsent(t, PlusMinus);
    assert RemoveAll([PlusMinus] + t, PlusMinus) == RemoveAll(t, PlusMinus) by {
      assert ([PlusMinus] + t)[1..] == t;
    }
    StripFixesStripped(t);
  }

  /** Whatever the cell's text: without '±' there is no uncertainty, and an
      uncertainty is there only when the sheet has the column, the cell
      holds '±' and its text without '±', stripped, converts to that
      float. */
  lemma UncertaintyPresence(columns: set<Label>, row: Row, toFloat: string -> Option<Float>)
    ensures UncertaintyColumn in row && PlusMinus !in row[UncertaintyColumn]
            ==> UncertaintyOf(columns, row, toFloat) == None
    ensures UncertaintyOf(columns, row, toFloat).Some? ==>
              && UncertaintyColumn in columns && UncertaintyColumn in row
              && PlusMinus in row[UncertaintyColumn]
              && toFloat(Strip(RemoveAll(row[UncertaintyColumn], PlusMinus)))
                 == UncertaintyOf(columns, row, toFloat)
  {
  }
}
