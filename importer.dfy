/** `SustainExcelImporter`: reads the four sheets of a Sustain 4.0 LCI
    workbook into its fields, validates them, links biosphere flows and
    assembles the Brightway inventory. */
module Importer {
  import opened Values
  import opened Lci
  import opened SchemaReader
  import opened Validator
  import opened BiosphereLinker
  import opened Assembler

  const MetadataSheet := "Project Metadata"
  const ActivitiesSheet := "Process Activities"
  const ExchangesSheet := "Exchanges"
  const MappingSheet := "Biosphere Flows Mapping"

  /** The sheets `parse_excel` checks for, in this order. */
  const RequiredSheets: seq<string> := [MetadataSheet, ActivitiesSheet, ExchangesSheet]

  /** The importer's fields, as one value. */
  datatype State = State(
    metadata: map<string, string>,
    activities: seq<Activity>,
    exchanges: seq<Exchange>,
    flowMapping: map<string, string>,
    validationErrors: seq<Message>,
    warnings: seq<Message>)

  /** The fields of a new importer. */
  const Initial := State(map[], [], [], map[], [], [])

  /** The first of `sheets` the workbook lacks. */
  function FirstMissing(sheets: seq<string>, book: Workbook): (r: Option<string>)
    ensures r.None? <==> forall s :: s in sheets ==> s in book.sheets
    ensures r.Some? ==> exists i :: && 0 <= i < |sheets| && sheets[i] == r.value
                                    && sheets[i] !in book.sheets
                                    && forall k :: 0 <= k < i ==> sheets[k] in book.sheets
  {
    if sheets == [] then None
    else if sheets[0] !in book.sheets then
      assert sheets[0] == sheets[0];
      Some(sheets[0])
    else
      var r := FirstMissing(sheets[1..], book);
      assert r.Some? ==> exists i :: && 0 <= i < |sheets| && sheets[i] == r.value
                                      && sheets[i] !in book.sheets
                                      && forall k :: 0 <= k < i ==> sheets[k] in book.sheets
      by {
        if r.Some? {
          var i :| && 0 <= i < |sheets[1..]| && sheets[1..][i] == r.value
                   && sheets[1..][i] !in book.sheets
                   && forall k :: 0 <= k < i ==> sheets[1..][k] in book.sheets;
          assert forall k :: 0 <= k < i + 1 ==> sheets[k] in book.sheets by {
            forall k | 0 <= k < i + 1 ensures sheets[k] in book.sheets {
              if k > 0 { assert sheets[k] == sheets[1..][k - 1]; }
            }
          }
          assert sheets[i + 1] == sheets[1..][i];
        }
      }
      r
  }

  /** The state after the handler `except Exception` of `parse_excel`. */
  function Failed(s: State, f: Failure): State {
    s.(validationErrors := s.validationErrors + [ParseFailure(f)])
  }

  /** The state after `_validate_data`. */
  function Validated(s: State): State {
    s.(validationErrors := s.validationErrors + ValidationErrors(s.activities, s.exchanges),
       warnings := s.warnings + ValidationWarnings(s.activities, s.exchanges))
  }

  /** What `parse_excel` does to the state, and what it answers. `book` is
      what opening the file gives (`None` when it cannot be opened). A
      parse that raises keeps the fields assigned before it. */
  function Parsed(s: State, book: Option<Workbook>, toFloat: string -> Option<Float>): (State, bool) {
    if book.None? then (Failed(s, Unreadable), false)
    else
      var missing := FirstMissing(RequiredSheets, book.value);
      if missing.Some? then (s.(validationErrors := s.validationErrors + [MissingSheet(missing.value)]), false)
      else ReadMetadata(s, book.value, toFloat)
  }

  /** The steps after the sheet check: `self.metadata = ...`. */
  function ReadMetadata(s: State, b: Workbook, toFloat: string -> Option<Float>): (State, bool)
    requires MetadataSheet in b.sheets && ActivitiesSheet in b.sheets && ExchangesSheet in b.sheets
  {
    var sheet := b.sheets[MetadataSheet];
    match Dictionary(map[], sheet.rows, MetadataEntry(sheet.columns))
    case Err(f) => (Failed(s, f), false)
    case Ok(md) => ReadActivities(s.(metadata := md), b, toFloat)
  }

  /** `self.activities = ...` and the steps after it. */
  function ReadActivities(s: State, b: Workbook, toFloat: string -> Option<Float>): (State, bool)
    requires ActivitiesSheet in b.sheets && ExchangesSheet in b.sheets
  {
    var sheet := b.sheets[ActivitiesSheet];
    match Collect([], sheet.rows, ActivityParser(sheet.columns, toFloat))
    case Err(f) => (Failed(s, f), false)
    case Ok(acts) => ReadExchanges(s.(activities := acts), b, toFloat)
  }

  /** `self.exchanges = ...` and the steps after it. */
  function ReadExchanges(s: State, b: Workbook, toFloat: string -> Option<Float>): (State, bool)
    requires ExchangesSheet in b.sheets
  {
    var sheet := b.sheets[ExchangesSheet];
    match Collect([], sheet.rows, ExchangeParser(sheet.columns, toFloat))
    case Err(f) => (Failed(s, f), false)
    case Ok(excs) => ReadMapping(s.(exchanges := excs), b)
  }

  /** The optional flow mapping, then validation and the answer. */
  function ReadMapping(s: State, b: Workbook): (State, bool) {
    if MappingSheet in b.sheets then
      var sheet := b.sheets[MappingSheet];
      match Dictionary(map[], sheet.rows, MappingEntry(sheet.columns))
      case Err(f) => (Failed(s, f), false)
      case Ok(m) => Finished(s.(flowMapping := m))
    else Finished(s)
  }

  /** `_validate_data()`, then `len(self.validation_errors) == 0`. */
  function Finished(s: State): (State, bool) {
    var t := Validated(s);
    (t, t.validationErrors == [])
  }

  /** What every step of `parse_excel` promises about its outcome `r`
      from state `s`: errors and warnings are only appended to, the answer
      is whether the error list is empty, and a `True` answer means the
      validation of the fields read added the errors and warnings. */
  predicate Answers(s: State, r: (State, bool)) {
    && (r.1 <==> r.0.validationErrors == [])
    && |s.validationErrors| <= |r.0.validationErrors|
    && r.0.validationErrors[..|s.validationErrors|] == s.validationErrors
    && |s.warnings| <= |r.0.warnings| && r.0.warnings[..|s.warnings|] == s.warnings
    && (r.1 ==> (r.0.validationErrors == s.validationErrors + ValidationErrors(r.0.activities, r.0.exchanges)
                 && r.0.warnings == s.warnings + ValidationWarnings(r.0.activities, r.0.exchanges)))
  }

  lemma FailedAnswers(s: State, f: Failure)
    ensures Answers(s, (Failed(s, f), false))
  {
  }

  lemma FinishedAnswers(s: State)
    ensures Answers(s, Finished(s))
  {
  }

  lemma ReadMappingAnswers(s: State, b: Workbook)
    ensures Answers(s, ReadMapping(s, b))
  {
    if MappingSheet in b.sheets {
      var sheet := b.sheets[MappingSheet];
      match Dictionary(map[], sheet.rows, MappingEntry(sheet.columns))
      case Err(f) => FailedAnswers(s, f);
      case Ok(m) => FinishedAnswers(s.(flowMapping := m));
    } else {
      FinishedAnswers(s);
    }
  }

  lemma ReadExchangesAnswers(s: State, b: Workbook, toFloat: string -> Option<Float>)
    requires ExchangesSheet in b.sheets
    ensures Answers(s, ReadExchanges(s, b, toFloat))
  {
    var sheet := b.sheets[ExchangesSheet];
    match Collect([], sheet.rows, ExchangeParser(sheet.columns, toFloat))
    case Err(f) => FailedAnswers(s, f);
    case Ok(excs) => ReadMappingAnswers(s.(exchanges := excs), b);
  }

  lemma ReadActivitiesAnswers(s: State, b: Workbook, toFloat: string -> Option<Float>)
    requires ActivitiesSheet in b.sheets && ExchangesSheet in b.sheets
    ensures Answers(s, ReadActivities(s, b, toFloat))
  {
    var sheet := b.sheets[ActivitiesSheet];
    match Collect([], sheet.rows, ActivityParser(sheet.columns, toFloat))
    case Err(f) => FailedAnswers(s, f);
    case Ok(acts) => ReadExchangesAnswers(s.(activities := acts), b, toFloat);
  }

  lemma ReadMetadataAnswers(s: State, b: Workbook, toFloat: string -> Option<Float>)
    requires MetadataSheet in b.sheets && ActivitiesSheet in b.sheets && ExchangesSheet in b.sheets
    ensures Answers(s, ReadMetadata(s, b, toFloat))
  {
    var sheet := b.sheets[MetadataSheet];
    match Dictionary(map[], sheet.rows, MetadataEntry(sheet.columns))
    case Err(f) => FailedAnswers(s, f);
    case Ok(md) => ReadActivitiesAnswers(s.(metadata := md), b, toFloat);
  }

  /** `parse_excel` answers as every step promises, and answers `True`
      only for a workbook that has all three required sheets. */
  lemma ParsedAnswers(s: State, book: Option<Workbook>, toFloat: string -> Option<Float>)
    ensures Answers(s, Parsed(s, book, toFloat))
    ensures Parsed(s, book, toFloat).1 ==>
              book.Some? && forall sheet :: sheet in RequiredSheets ==> sheet in book.value.sheets
  {
    if book.None? {
      FailedAnswers(s, Unreadable);
    } else if FirstMissing(RequiredSheets, book.value).None? {
      ReadMetadataAnswers(s, book.value, toFloat);
    }
  }

  /** `parse_excel` only appends to the errors and warnings, and answers
      `True` exactly when the error list ends up empty. */
  lemma ParseAnswersErrorFree(s: State, book: Option<Workbook>, toFloat: string -> Option<Float>)
    ensures var (t, ok) := Parsed(s, book, toFloat);
            && (ok <==> t.validationErrors == [])
            && |s.validationErrors| <= |t.validationErrors|
            && t.validationErrors[..|s.validationErrors|] == s.validationErrors
            && |s.warnings| <= |t.warnings| && t.warnings[..|s.warnings|] == s.warnings
  {
    ParsedAnswers(s, book, toFloat);
  }

  /** A workbook without one of the three required sheets is reported by
      exactly one error naming the first one missing, and nothing is read. */
  lemma MissingSheetReported(s: State, b: Workbook, toFloat: string -> Option<Float>, sheet: string)
    requires sheet in RequiredSheets && sheet !in b.sheets
    ensures FirstMissing(RequiredSheets, b).Some?
    ensures var (t, ok) := Parsed(s, Some(b), toFloat);
            && !ok
            && t == s.(validationErrors := s.validationErrors
                                           + [MissingSheet(FirstMissing(RequiredSheets, b).value)])
  {
    var missing := FirstMissing(RequiredSheets, Some(b).value);
    assert missing.Some?;
  }

  /** When a fresh importer's `parse_excel` answers `True`, all three
      required sheets were there, every exchange belongs to an activity,
      every activity has a production exchange, and the warnings are
      exactly those of checks 3 and 4. */
  lemma AcceptedDataIsConsistent(book: Option<Workbook>, toFloat: string -> Option<Float>)
    ensures var (t, ok) := Parsed(Initial, book, toFloat);
            ok ==>
              && book.Some? && (forall sheet :: sheet in RequiredSheets ==> sheet in book.value.sheets)
              && (forall e :: e in t.exchanges ==> exists a :: a in t.activities && a.code == e.activityCode)
              && (forall a :: a in t.activities ==> HasProduction(a.code, t.exchanges))
              && t.warnings == ValidationWarnings(t.activities, t.exchanges)
  {
    ParsedAnswers(Initial, book, toFloat);
    var (t, ok) := Parsed(Initial, book, toFloat);
    if ok {
      assert t.validationErrors == ValidationErrors(t.activities, t.exchanges);
      ValidationGate(t.activities, t.exchanges);
    }
  }

  /** Once the data passes validation, the inventory has a node for every
      activity and for every exchange's activity code, and every node has
      a production edge pointing back at its own key. */
  lemma ValidInventoryIsComplete(dbName: string, acts: seq<Activity>, excs: seq<Exchange>,
                                 linked: map<string, Key>)
    requires ValidationErrors(acts, excs) == []
    ensures forall a :: a in acts ==> Key(dbName, a.code) in Inventory(dbName, acts, excs, linked)
    ensures forall e :: e in excs ==> Key(dbName, e.activityCode) in Inventory(dbName, acts, excs, linked)
    ensures forall k :: k in Inventory(dbName, acts, excs, linked) ==>
              exists j :: 0 <= j < |Inventory(dbName, acts, excs, linked)[k].exchanges|
                && Inventory(dbName, acts, excs, linked)[k].exchanges[j].input == Some(k)
                && Inventory(dbName, acts, excs, linked)[k].exchanges[j].edgeType == Some(Production)
  {
    var inv := Inventory(dbName, acts, excs, linked);
    ValidationGate(acts, excs);
    forall e | e in excs ensures Key(dbName, e.activityCode) in inv {
      var a :| a in acts && a.code == e.activityCode;
    }
    forall k | k in inv
      ensures exists j :: 0 <= j < |inv[k].exchanges| && inv[k].exchanges[j].input == Some(k)
                          && inv[k].exchanges[j].edgeType == Some(Production)
    {
      var a := NodeSource(dbName, acts, acts, excs, linked, k);
      assert HasProduction(a.code, excs);
      var p :| p in excs && p.activityCode == a.code && p.kind == "production";
      var j := EdgeForExchange(dbName, acts, excs, linked, p);
    }
  }

  /** Why `create_brightway_database` refuses: the `ValueError` it raises. */
  datatype Refusal = HasValidationErrors(errors: seq<Message>)

  class SustainExcelImporter {
    /** What opening `excel_path` gives: the workbook, or `None`. */
    const workbook: Option<Workbook>
    /** Python's `float()` on text; `None` where it raises. */
    const toFloat: string -> Option<Float>

    var metadata: map<string, string>
    var activities: seq<Activity>
    var exchanges: seq<Exchange>
    var flowMapping: map<string, string>
    var validationErrors: seq<Message>
    var warnings: seq<Message>

    function Fields(): State
      reads this
    {
      State(metadata, activities, exchanges, flowMapping, validationErrors, warnings)
    }

    constructor(workbook: Option<Workbook>, toFloat: string -> Option<Float>)
      ensures this.workbook == workbook && this.toFloat == toFloat
      ensures Fields() == Initial
    {
      this.workbook := workbook;
      this.toFloat := toFloat;
      metadata := map[];
      activities := [];
      exchanges := [];
      flowMapping := map[];
      validationErrors := [];
      warnings := [];
    }

    /** `parse_excel`. */
    method ParseExcel() returns (ok: bool)
      modifies this
      ensures (Fields(), ok) == Parsed(old(Fields()), workbook, toFloat)
    {
      if workbook.None? {
        validationErrors := validationErrors + [ParseFailure(Unreadable)];
        return false;
      }
      var book := workbook.value;
      var missing := CheckRequiredSheets(book);
      if missing.Some? {
        validationErrors := validationErrors + [MissingSheet(missing.value)];
        return false;
      }
      ok := ReadSheets(book);
    }

    /** The steps of `parse_excel` after the sheet check: read the sheets
        into the fields, stopping at the first that raises, then validate. */
    method ReadSheets(book: Workbook) returns (ok: bool)
      requires MetadataSheet in book.sheets && ActivitiesSheet in book.sheets && ExchangesSheet in book.sheets
      modifies this
      ensures (Fields(), ok) == ReadMetadata(old(Fields()), book, toFloat)
    {
      var parsedMetadata := ParseMetadata(book.sheets[MetadataSheet]);
      if parsedMetadata.Err? {
        validationErrors := validationErrors + [ParseFailure(parsedMetadata.error)];
        return false;
      }
      metadata := parsedMetadata.value;
      var parsedActivities := ParseActivities(book.sheets[ActivitiesSheet], toFloat);
      if parsedActivities.Err? {
        validationErrors := validationErrors + [ParseFailure(parsedActivities.error)];
        return false;
      }
      activities := parsedActivities.value;
      var parsedExchanges := ParseExchanges(book.sheets[ExchangesSheet], toFloat);
      if parsedExchanges.Err? {
        validationErrors := validationErrors + [ParseFailure(parsedExchanges.error)];
        return false;
      }
      exchanges := parsedExchanges.value;
      if MappingSheet in book.sheets {
        var parsedMapping := ParseFlowMapping(book.sheets[MappingSheet]);
        if parsedMapping.Err? {
          validationErrors := validationErrors + [ParseFailure(parsedMapping.error)];
          return false;
        }
        flowMapping := parsedMapping.value;
      }
      ValidateData();
      ok := |validationErrors| == 0;
    }

    /** `_validate_data`: appends the errors of checks 1 and 2 and the
        warnings of checks 3 and 4. */
    method ValidateData()
      modifies this
      ensures Fields() == Validated(old(Fields()))
    {
      var referential := ReferentialCheck(activities, exchanges);
      var production := ProductionCheck(activities, exchanges);
      var negative := NegativeCheck(exchanges);
      var massBalance := MassBalanceCheck(activities, exchanges);
      validationErrors := validationErrors + (referential + production);
      warnings := warnings + (negative + massBalance);
    }

    /** `link_biosphere_flows`: adds at most one warning and answers the
        linked flows of the emission and resource exchanges. */
    method LinkBiosphereFlows(db: FlowDatabase) returns (linked: map<string, Key>)
      modifies this
      ensures linked == Linked(db, BiosphereFlowNames(exchanges), flowMapping)
      ensures LinkWarnings(old(warnings), warnings, db, BiosphereFlowNames(exchanges), flowMapping)
      ensures Fields() == old(Fields()).(warnings := warnings)
    {
      if db.Unavailable? {
        warnings := warnings + [BiosphereUnavailable];
        return map[];
      }
      var uniqueFlows := set e | e in exchanges && IsBiosphereKind(e.kind) :: e.flowName;
      assert uniqueFlows == BiosphereFlowNames(exchanges);
      var unlinked;
      linked, unlinked := LinkFlows(uniqueFlows, flowMapping, db.search);
      if unlinked != [] {
        assert unlinked[0] in UnlinkedFlowNames(uniqueFlows, flowMapping, db.search);
        warnings := warnings + [UnlinkedFlows(unlinked)];
      }
    }

    /** `create_brightway_database`, up to the database write: refused while
        there are validation errors, otherwise the `db_data` it writes. */
    method CreateBrightwayDatabase(dbName: string, db: FlowDatabase)
      returns (r: Result<map<Key, Node>, Refusal>)
      modifies this
      ensures old(validationErrors) != [] ==>
                r == Err(HasValidationErrors(old(validationErrors))) && Fields() == old(Fields())
      ensures old(validationErrors) == [] ==>
                && r == Ok(Inventory(dbName, activities, exchanges,
                                     Linked(db, BiosphereFlowNames(exchanges), flowMapping)))
                && LinkWarnings(old(warnings), warnings, db, BiosphereFlowNames(exchanges), flowMapping)
                && Fields() == old(Fields()).(warnings := warnings)
    {
      if validationErrors != [] {
        return Err(HasValidationErrors(validationErrors));
      }
      var linkedFlows := LinkBiosphereFlows(db);
      var dbData := BuildInventory(dbName, activities, exchanges, linkedFlows);
      r := Ok(dbData);
    }
  }

  /** The loop `for sheet in required_sheets`: the first required sheet
      the workbook lacks, if any. */
  method CheckRequiredSheets(book: Workbook) returns (missing: Option<string>)
    ensures missing == FirstMissing(RequiredSheets, book)
  {
    var i := 0;
    while i < |RequiredSheets|
      invariant 0 <= i <= |RequiredSheets|
      invariant FirstMissing(RequiredSheets, book) == FirstMissing(RequiredSheets[i..], book)
    {
      if RequiredSheets[i] !in book.sheets {
        return Some(RequiredSheets[i]);
      }
      assert RequiredSheets[i..][1..] == RequiredSheets[i + 1..];
      i := i + 1;
    }
    return None;
  }

  /** Check 1 of `_validate_data`, on the class's fields. It computes what
      `Validator.ReferentialErrors` defines; `ReferentialIntegrity` states
      what that means. */
  method ReferentialCheck(acts: seq<Activity>, excs: seq<Exchange>) returns (errors: seq<Message>)
    ensures errors == ReferentialErrors(acts, excs)
  {
    var activityCodes := set a | a in acts :: a.code;
    var exchangeCodes := set e | e in excs :: e.activityCode;
    var orphanCodes := exchangeCodes - activityCodes;
    errors := if orphanCodes != {} then [OrphanCodes(orphanCodes)] else [];
  }

  /** Check 2: one error per activity without a production exchange. */
  method ProductionCheck(acts: seq<Activity>, excs: seq<Exchange>) returns (errors: seq<Message>)
    ensures errors == ProductionErrors(acts, excs)
  {
    errors := [];
    var i := 0;
    while i < |acts|
      invariant 0 <= i <= |acts|
      invariant errors == ProductionErrors(acts[..i], excs)
    {
      var hasProduction := HasProductionExchange(acts[i].code, excs);
      ProductionErrorsAppend(acts[..i], [acts[i]], excs);
      assert acts[..i + 1] == acts[..i] + [acts[i]];
      if !hasProduction {
        errors := errors + [NoProduction(acts[i].name)];
      }
      i := i + 1;
    }
    assert acts[..i] == acts;
  }

  /** Check 3: one warning per exchange with a negative amount. */
  method NegativeCheck(excs: seq<Exchange>) returns (found: seq<Message>)
    ensures found == NegativeWarnings(excs)
  {
    found := [];
    var j := 0;
    while j < |excs|
      invariant 0 <= j <= |excs|
      invariant found == NegativeWarnings(excs[..j])
    {
      NegativeWarningsAppend(excs[..j], [excs[j]]);
      assert excs[..j + 1] == excs[..j] + [excs[j]];
      if IsNegative(excs[j].amount) {
        found := found + [NegativeAmount(excs[j].activityCode, excs[j].flowName)];
      }
      j := j + 1;
    }
    assert excs[..j] == excs;
  }

  /** Check 4: at most one warning per activity. */
  method MassBalanceCheck(acts: seq<Activity>, excs: seq<Exchange>) returns (found: seq<Message>)
    ensures found == MassBalanceWarnings(acts, excs)
  {
    found := [];
    var k := 0;
    while k < |acts|
      invariant 0 <= k <= |acts|
      invariant found == MassBalanceWarnings(acts[..k], excs)
    {
      var warning := CheckMassBalance(acts[k], excs);
      MassBalanceWarningsAppend(acts[..k], [acts[k]], excs);
      assert acts[..k + 1] == acts[..k] + [acts[k]];
      if warning.Some? {
        found := found + [warning.value];
      }
      k := k + 1;
    }
    assert acts[..k] == acts;
  }

  /** The `any(...)` of check 2. */
  method HasProductionExchange(code: string, excs: seq<Exchange>) returns (b: bool)
    ensures b == HasProduction(code, excs)
  {
    var i := 0;
    while i < |excs|
      invariant 0 <= i <= |excs|
      invariant forall k :: 0 <= k < i ==> !(excs[k].activityCode == code && excs[k].kind == "production")
    {
      if excs[i].activityCode == code && excs[i].kind == "production" {
        return true;
      }
      i := i + 1;
    }
    return false;
  }

  /** Check 4 for one activity: the two `sum(...)`s, then the ratio test.
      It computes what `Validator.MassBalanceWarning` defines;
      `MassBalanceCriterion` states what that means. */
  method CheckMassBalance(a: Activity, excs: seq<Exchange>) returns (warning: Option<Message>)
    ensures warning == MassBalanceWarning(a, excs)
  {
    var inputMass := SumInputMass(a.code, excs);
    var outputMass := SumOutputMass(a.code, excs);
    warning := None;
    if IsPositive(inputMass) && IsPositive(outputMass) {
      var ratio := outputMass.value / inputMass.value;
      if ratio < MinRatio || ratio > MaxRatio {
        warning := Some(SuspiciousMassBalance(a.name, inputMass.value, outputMass.value, ratio));
      }
    }
  }

  /** `sum(exc['amount'] for exc in inputs if exc['unit'] in mass_units)`,
      added left to right from 0. */
  method SumInputMass(code: string, excs: seq<Exchange>) returns (total: Float)
    ensures total == InputMass(code, excs)
  {
    total := Num(0.0);
    var i := 0;
    while i < |excs|
      invariant 0 <= i <= |excs|
      invariant Add(total, InputMass(code, excs[i..])) == InputMass(code, excs)
    {
      assert excs[i..][1..] == excs[i + 1..];
      var term := if MassInput(excs[i], code) then excs[i].amount else Num(0.0);
      AddAssociative(total, term, InputMass(code, excs[i + 1..]));
      total := Add(total, term);
      i := i + 1;
    }
    AddZero(total);
  }

  /** The same sum over the outputs. */
  method SumOutputMass(code: string, excs: seq<Exchange>) returns (total: Float)
    ensures total == OutputMass(code, excs)
  {
    total := Num(0.0);
    var i := 0;
    while i < |excs|
      invariant 0 <= i <= |excs|
      invariant Add(total, OutputMass(code, excs[i..])) == OutputMass(code, excs)
    {
      assert excs[i..][1..] == excs[i + 1..];
      var term := if MassOutput(excs[i], code) then excs[i].amount else Num(0.0);
      AddAssociative(total, term, OutputMass(code, excs[i + 1..]));
      total := Add(total, term);
      i := i + 1;
    }
    AddZero(total);
  }
}
