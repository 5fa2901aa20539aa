# Sustain 4.0 LCI importer, modelled in Dafny

This project models `SustainExcelImporter`, the part of the Sustain 4.0
life-cycle-assessment tool that turns a filled-in Excel workbook into a
Brightway inventory. The importer works in four stages:

- **Schema reader.** It reads the sheets 'Project Metadata',
  'Process Activities', 'Exchanges' and the optional
  'Biosphere Flows Mapping' into its fields. It skips rows whose key cell
  is blank and strips the text cells.
- **Validator.** It records blocking errors for exchange codes that no
  activity has and for activities without a production exchange. It
  records non-blocking warnings for negative amounts and for a suspicious
  mass balance. The mass balance compares outputs with inputs over the
  units kg, g, t and ton; a ratio outside [0.3, 1.2] warns.
- **Biosphere linker.** It resolves the names of emission and resource
  flows against the biosphere3 database. The user's mapping can replace
  the term searched, and the first hit wins.
- **Inventory assembler.** It builds the `db_data` dictionary: one
  process node per activity, keyed `(db_name, code)`, with one edge per
  exchange of that activity.

The project also models the edge selection of the process network
diagram, with its nodes and its internal edges.

Modules and files:

- `values.dfy` (`Values`): Python floats with NaN, and the string
  operations `strip`, `lower` and `replace`.
- `records.dfy` (`Lci`): workbook tables, activities, exchanges, keys and
  messages.
- `reader.dfy` (`SchemaReader`): the four sheet parsers.
- `validator.dfy` (`Validator`): the four checks, as functions.
- `linker.dfy` (`BiosphereLinker`): `link_biosphere_flows`.
- `assembler.dfy` (`Assembler`): the `db_data` part of
  `create_brightway_database`.
- `diagram.dfy` (`Diagram`): the process graph.
- `importer.dfy` (`Importer`): the `SustainExcelImporter` class. It has
  the same fields as the source's class, and its methods are proved
  against the functions above.
- `scenarios.dfy` (`Scenarios`): the validator and the diagram on the
  example workbook, and the validator on an orphan exchange.

Each loop of the source is a `while` loop. Each loop is proved equal to a
function, and lemmas state the properties of that function.

What the model takes as parameters:

- The opened workbook is an `Option<Workbook>`. `None` is a file that
  cannot be opened.
- Python's `float()` on text is a parameter `toFloat`. It answers `None`
  where `float()` raises.
- The biosphere3 database is a `FlowDatabase`. It is `Unavailable` when
  opening it raises; otherwise it carries a `search` function, whose
  outcome is either a ranked list of hits or a failure.

How the code handles bad input, as modelled:

- A cell that cannot be read ends the whole parse. It is a missing
  column, which raises `KeyError`, or an amount `float()` rejects, which
  raises `ValueError`. Either way, the catch-all handler of `parse_excel`
  records one error and answers `False`; errors are not collected per
  row.
- The 'Category' column is required. Reading the cell raises `KeyError`
  when the column is missing.
- The 'Uncertainty' column is optional, as the code checks for it.
- A blank text cell of a kept row reads as "nan", because `str()` of
  pandas' NaN is "nan". A blank amount reads as NaN, and NaN amounts pass
  every comparison as false.

## Model

| member | source | states |
|---|---|---|
| Values.Strip | brightway_integration.py:77 | `str.strip()`: the result is a slice of the input with only whitespace outside it, and it neither starts nor ends with whitespace |
| Values.StripFixesStripped | brightway_integration.py:77 | stripping a string that has no surrounding whitespace returns it unchanged, so stripping twice is stripping once |
| Values.Lower | brightway_integration.py:109 | `str.lower()`: same length; each upper-case Latin letter becomes its lower-case letter, every other character stays, and no upper-case letter is left |
| Values.LowerIdempotent | brightway_integration.py:109 | lower-casing twice is lower-casing once |
| Values.RemoveAll | brightway_integration.py:121 | `replace('±', '')`: no '±' is left, and every other character occurs exactly as often as in the input |
| Values.AddAssociative | brightway_integration.py:184-187 | float addition, with NaN absorbing, does not depend on grouping (no rounding is modelled) |
| Values.AddZero | brightway_integration.py:184-187 | adding the 0 that a non-mass exchange contributes leaves a sum unchanged, NaN included |
| Lci.Cell | brightway_integration.py:88 | `row[col]` raises exactly when the sheet lacks the column; otherwise it is the row's value there, blank exactly when the row has none |
| Lci.ToFloat | brightway_integration.py:94 | `float()` of a blank cell is NaN; of a text, it is the conversion's value, and raises `ValueError` on that text exactly when the conversion fails |
| SchemaReader.CollectRows | brightway_integration.py:86-97 | the row loop returns the records of the kept rows in sheet order, or the failure of the first row that raises |
| SchemaReader.CollectPairs | brightway_integration.py:134-141 | the dictionary loop: a later row overwrites an earlier row's key, and the first row that raises ends the loop |
| SchemaReader.SkippedRowChangesNothing | brightway_integration.py:87-88 | a row the parser skips changes nothing, wherever it stands |
| SchemaReader.CollectedRecords | brightway_integration.py:86-97 | a successful parse keeps what it started from, adds one record per kept row, and each added record has any property every kept row's record has |
| SchemaReader.LastRowWins | brightway_integration.py:139 | the last filled row with a given key decides that key's value |
| SchemaReader.KeyKept | brightway_integration.py:139 | a key no row mentions keeps its earlier value |
| SchemaReader.KeyValueEntry | brightway_integration.py:75-77 | raises exactly when the key column is missing, or the key is filled and the value column is missing; a row is kept exactly when both cells are filled, and then gives both stripped |
| SchemaReader.ParseMetadata | brightway_integration.py:69-79 | `_parse_metadata`: the dictionary of the filled first two positional columns, stripped |
| SchemaReader.ParseFlowMapping | brightway_integration.py:129-141 | `_parse_flow_mapping`: the dictionary from user flow name to biosphere flow name |
| SchemaReader.MappingLastRowWins | brightway_integration.py:135-139 | in the flow mapping, the last row mapping a user flow name decides its biosphere name |
| SchemaReader.ActivityRow | brightway_integration.py:88-95 | raises exactly when the code column is missing, or the code is filled and another column is missing or the reference production is no float; a row is kept exactly when its code is filled, and then gives the stripped code, name, unit and location ("nan" when blank) and the float of the reference production |
| SchemaReader.ParseActivities | brightway_integration.py:81-97 | `_parse_activities`: the activities of the coded rows, in sheet order |
| SchemaReader.BlankActivityRowSkipped | brightway_integration.py:87-88 | a row whose Activity Code is blank does not change the activity list |
| SchemaReader.KeptAreCoded | brightway_integration.py:88 | when every row parses, the kept rows are exactly the rows with an Activity Code |
| SchemaReader.CollectOkAllRowsOk | brightway_integration.py:105-125 | a successful parse means no row raised |
| SchemaReader.ActivitiesOnePerCodedRow | brightway_integration.py:81-97 | a successful parse gives exactly one activity per coded row, each with a stripped code |
| SchemaReader.LowerKeepsStripped | brightway_integration.py:109 | lower-casing a stripped type keeps it stripped |
| SchemaReader.ExchangeRow | brightway_integration.py:106-125 | raises exactly when the code column is missing, or the code is filled and another required column is missing or the amount is no float; a row is kept exactly when its code is filled, and then gives the stripped code, the stripped lower-cased type, the stripped flow and unit, the float amount, the stripped category when filled, and the uncertainty of the row |
| SchemaReader.ParseExchanges | brightway_integration.py:99-127 | `_parse_exchanges`: the exchanges of the coded rows, in sheet order |
| SchemaReader.BlankExchangeRowSkipped | brightway_integration.py:105-106 | a row whose Activity Code is blank does not change the exchange list |
| SchemaReader.ExchangeKindsNormalized | brightway_integration.py:105-125 | a successful parse gives one exchange per coded row, each with a stripped lower-case type |
| SchemaReader.RemoveAllAbsent | brightway_integration.py:121 | removing a character that is not there changes nothing |
| SchemaReader.UncertaintyNotation | brightway_integration.py:116-123 | a cell "±t", with t stripped and free of '±', carries exactly `float(t)`; the same row with the cell "t" carries none |
| SchemaReader.UncertaintyPresence | brightway_integration.py:116-123 | whatever the cell's text, without '±' there is no uncertainty; an uncertainty means the column exists, the cell holds '±' and its text without '±', stripped, converts to that float |
| Validator.ReferentialIntegrity | brightway_integration.py:146-154 | at most one referential error; there is none exactly when every exchange's code belongs to an activity; the error names exactly the orphan codes |
| Validator.ProductionErrorsAppend | brightway_integration.py:157-165 | each activity contributes its own errors, in activity order |
| Validator.ProductionErrorsNamed | brightway_integration.py:156-165 | every production error is `NoProduction`, and it names an activity exactly when an activity of that name has no production exchange of its code |
| Validator.WithoutCode | brightway_integration.py:157-161 | filtering out a code keeps exactly the activities with other codes |
| Validator.AddingProductionClears | brightway_integration.py:156-165 | adding a production exchange for a code removes the errors of exactly the activities with that code |
| Validator.NegativeWarningsAppend | brightway_integration.py:168-172 | negative-amount warnings come one exchange at a time, in exchange order |
| Validator.NegativeWarningsCounted | brightway_integration.py:167-172 | one warning per negative amount, each naming its exchange's code and flow; none when no amount is below zero (NaN is not) |
| Validator.MassBalanceWarningsAppend | brightway_integration.py:175-195 | mass-balance warnings come one activity at a time, in activity order |
| Validator.MassBalanceCriterion | brightway_integration.py:184-195 | an activity warns exactly when both mass sums are positive and the output is below 0.3 or above 1.2 times the input; the warning carries both sums and their ratio |
| Validator.RatioBounds | brightway_integration.py:190-191 | the ratio test is the same as comparing the output with 0.3 and 1.2 times the input |
| Validator.NoMassInputsSumToZero | brightway_integration.py:183-187 | with no exchange in a mass unit, both sums are 0 |
| Validator.MassBalanceExempt | brightway_integration.py:182-189 | an activity with no exchange in kg, g, t or ton (matched exactly) never warns |
| Validator.ValidationGate | brightway_integration.py:146-165 | there are no errors exactly when every exchange belongs to an activity and every activity has a production exchange |
| Validator.WarningsNeverBlock | brightway_integration.py:143-195 | errors only come from checks 1 and 2, and warnings only from checks 3 and 4 |
| Validator.MassBalanceWarningsKinds | brightway_integration.py:192-195 | every mass-balance warning is a `SuspiciousMassBalance` |
| BiosphereLinker.BiosphereFlowNames | brightway_integration.py:215-220 | the unique flow names are exactly those of the emission and resource exchanges |
| BiosphereLinker.LinkedFlows | brightway_integration.py:222-240 | only unique flow names are linked |
| BiosphereLinker.LinkedToFirstHit | brightway_integration.py:223-236 | a name is linked exactly when the search for its term (the mapped name if the user mapped it) finds something, and then to `('biosphere3', code of the first hit)` |
| BiosphereLinker.UnlinkedFlowNames | brightway_integration.py:237-240 | only unique flow names are unlinked |
| BiosphereLinker.LinkedOrUnlinked | brightway_integration.py:222-240 | every unique name is either linked or unlinked, never both |
| BiosphereLinker.MappedNameSearchedAsMapped | brightway_integration.py:224-227 | a mapped flow resolves as its biosphere name would with no mapping |
| BiosphereLinker.NothingFoundNothingLinked | brightway_integration.py:237-240 | a search that never finds anything, or always raises, leaves every name unlinked |
| BiosphereLinker.LinkFlows | brightway_integration.py:211-240 | the loop over the unique names, in any order, gives the linked flows and lists every unlinked name exactly once |
| BiosphereLinker.LinkFlow | brightway_integration.py:223-240 | one pass of the loop body links the flow to its first hit or appends it to the unlinked names, keeping both results exact for the names handled so far |
| BiosphereLinker.NothingDone | brightway_integration.py:211-212 | before the loop nothing is linked and the unlinked list is empty |
| BiosphereLinker.LinkStep | brightway_integration.py:230-240 | resolving one more name adds it to exactly one of the two results |
| BiosphereLinker.ListsExtend | brightway_integration.py:238 | appending a new name to the unlinked list keeps it duplicate-free |
| BiosphereLinker.Linked | brightway_integration.py:205-209 | when biosphere3 cannot be opened, nothing is linked |
| BiosphereLinker.AtMostOneLinkWarning | brightway_integration.py:205-246 | linking adds at most one warning and removes none; the unlinked-flows warning lists exactly the names left unlinked |
| Assembler.FirstNamed | brightway_integration.py:304-307 | `next(...)` finds the first activity with the flow's name, or none when no activity has it |
| Assembler.ExchangesOf | brightway_integration.py:283-286 | an activity's exchanges are exactly the exchanges with its code |
| Assembler.ExchangesOfAppend | brightway_integration.py:283-286 | selecting an activity's exchanges keeps their sheet order |
| Assembler.InventoryOf | brightway_integration.py:279-348 | the keys of `db_data` are exactly `(db_name, code)` for the activities handled |
| Assembler.BuildEdge | brightway_integration.py:291-338 | the exchange dictionary of one exchange, with every branch of its type |
| Assembler.BuildEdges | brightway_integration.py:289-338 | one edge per exchange of the activity, in the same order |
| Assembler.BuildInventory | brightway_integration.py:277-348 | the `db_data` loop gives the inventory: one node per activity key |
| Assembler.InventoryStep | brightway_integration.py:341-348 | each activity stores its node over the dictionary built so far |
| Assembler.LastActivityWins | brightway_integration.py:341 | with repeated codes, the last activity with a code decides that key's node |
| Assembler.NodePerActivity | brightway_integration.py:341-348 | with unique codes, each activity's node has its name, unit, location, type 'process', production amount, and one edge per exchange of its code |
| Assembler.EdgeTargets | brightway_integration.py:292-336 | amount and unit are copied. A production edge targets its own node. An input targets the first activity of that name, or `generic_<flow>` when there is none. An emission or resource targets the linked flow or `bio_<flow>` and has `(category,)` exactly when the category is non-empty. Any other type gets no input and no type. An uncertainty becomes type 3 with loc = amount and scale = the uncertainty |
| Assembler.EdgesTargetKnownKeys | brightway_integration.py:297-330 | every edge targets a node of this inventory, a `generic_` or `bio_` placeholder in this database, or a linked biosphere flow |
| Assembler.NodeSource | brightway_integration.py:279-348 | every node of the inventory is the node of some activity under that activity's key |
| Assembler.EdgeForExchange | brightway_integration.py:283-338 | every exchange appears, as the edge its type gives, in the node under its activity's key |
| Diagram.BuildProcessGraph | brightway_integration.py:503-520 | the two loops build the process graph: one node per activity, then the internal input edges |
| Diagram.EdgesAreInternalInputs | brightway_integration.py:510-520 | the edge loop adds exactly the (supplier, consumer) pairs of internal inputs |
| Diagram.DiagramEdges | brightway_integration.py:505-520 | an edge (u, v) exists exactly when an input of v names an activity whose code u is non-empty and differs from v; u is then an activity's code, and there is no self-loop |
| Diagram.NodesHaveNoEdges | brightway_integration.py:505-507 | the node loop adds no edge |
| Diagram.LastInputWeighs | brightway_integration.py:518-520 | an edge carries the amount and unit of the last internal input between its two activities |
| Diagram.NodesOfGraph | brightway_integration.py:505-520 | the nodes are the activity codes plus the consumers of internal inputs |
| Diagram.NodeKeys | brightway_integration.py:506-507 | the node loop adds exactly the activity codes |
| Diagram.EdgeNodeKeys | brightway_integration.py:517-520 | `add_edge` adds exactly the missing endpoints of its edges |
| Diagram.EdgesKeepNodes | brightway_integration.py:517-520 | adding edges never changes a node's attributes |
| Diagram.ActivityNodesLabelled | brightway_integration.py:506-507 | with unique codes, each activity's node carries its name and unit |
| Diagram.LastNodeWins | brightway_integration.py:506-507 | with repeated codes, the last activity with a code labels its node |
| Diagram.DiagramMatchesInventory | brightway_integration.py:302-312 | every diagram edge into an activity is a technosphere edge of that activity's inventory node, from the supplier's key |
| Importer.FirstMissing | brightway_integration.py:45-49 | no sheet is reported exactly when all required sheets are present; otherwise the one reported is absent and every required sheet before it is present |
| Importer.ParseAnswersErrorFree | brightway_integration.py:37-67 | `parse_excel` only appends errors and warnings, and answers True exactly when the error list is empty |
| Importer.FailedAnswers | brightway_integration.py:65-67 | the exception handler adds an error and answers False |
| Importer.FinishedAnswers | brightway_integration.py:60-63 | validating and answering appends exactly the validation errors and warnings, and answers whether the error list is empty |
| Importer.ReadMappingAnswers | brightway_integration.py:56-63 | reading the optional flow mapping keeps the promise of `parse_excel` on every path |
| Importer.ReadExchangesAnswers | brightway_integration.py:54-63 | reading the exchanges keeps the promise of `parse_excel` on every path |
| Importer.ReadActivitiesAnswers | brightway_integration.py:53-63 | reading the activities keeps the promise of `parse_excel` on every path |
| Importer.ReadMetadataAnswers | brightway_integration.py:52-63 | reading the metadata keeps the promise of `parse_excel` on every path |
| Importer.ParsedAnswers | brightway_integration.py:37-67 | on every path errors and warnings are only appended; True means no errors, all required sheets present, and the errors and warnings added are those of validation |
| Importer.MissingSheetReported | brightway_integration.py:44-49 | a workbook lacking a required sheet gives False and exactly one added error, naming the first missing required sheet, and changes nothing else |
| Importer.AcceptedDataIsConsistent | brightway_integration.py:37-63 | when a fresh importer answers True, the three required sheets were present, every exchange belongs to an activity, every activity has a production exchange, and the warnings are those of checks 3 and 4 |
| Importer.ValidInventoryIsComplete | brightway_integration.py:262-348 | after validation passes, every activity and every exchange code has a node, and every node has a production edge to its own key |
| Importer.SustainExcelImporter.constructor | brightway_integration.py:28-35 | a new importer has empty metadata, lists, mapping, errors and warnings |
| Importer.SustainExcelImporter.ParseExcel | brightway_integration.py:37-67 | `parse_excel` changes the fields and answers as the state function of its control flow does, including each exception path |
| Importer.SustainExcelImporter.ReadSheets | brightway_integration.py:51-63 | the steps after the sheet check change the fields as the reading functions say, stopping at the first sheet that raises |
| Importer.CheckRequiredSheets | brightway_integration.py:45-49 | the sheet loop finds the first required sheet the workbook lacks, or none |
| Importer.SustainExcelImporter.ValidateData | brightway_integration.py:143-195 | `_validate_data` appends the errors of checks 1 and 2 and the warnings of checks 3 and 4 |
| Importer.SustainExcelImporter.LinkBiosphereFlows | brightway_integration.py:197-248 | answers the linked flows of the emission and resource exchanges, adds the link warnings, and changes no other field |
| Importer.SustainExcelImporter.CreateBrightwayDatabase | brightway_integration.py:250-348 | with validation errors, refuses and changes nothing; otherwise links and answers the inventory of the activities and exchanges |
| Importer.ReferentialCheck | brightway_integration.py:146-154 | check 1 gives the referential errors |
| Importer.ProductionCheck | brightway_integration.py:156-165 | check 2 gives one error per activity without production |
| Importer.NegativeCheck | brightway_integration.py:167-172 | check 3 gives one warning per negative amount |
| Importer.MassBalanceCheck | brightway_integration.py:174-195 | check 4 gives at most one warning per activity |
| Importer.HasProductionExchange | brightway_integration.py:158-161 | the `any(...)` is true exactly when the activity has a production exchange of its own code |
| Importer.CheckMassBalance | brightway_integration.py:176-195 | one activity's mass-balance verdict |
| Importer.SumInputMass | brightway_integration.py:176-177 | the input `sum(...)`, added left to right from 0, equals the input mass |
| Importer.SumOutputMass | brightway_integration.py:178-187 | the output `sum(...)`, added left to right from 0, equals the output mass |
| Scenarios.OtherActivitiesWeighNothing | brightway_integration.py:176-180 | exchanges of other activities add no mass |
| Scenarios.InputOfConcat | brightway_integration.py:184-185 | the input masses of two lists of exchanges add up |
| Scenarios.OutputOfConcat | brightway_integration.py:186-187 | the output masses of two lists of exchanges add up |
| Scenarios.InputFrom | brightway_integration.py:176-177 | the input mass of a suffix is its first exchange's share plus the rest |
| Scenarios.OutputFrom | brightway_integration.py:178-180 | the output mass of a suffix is its first exchange's share plus the rest |
| Scenarios.InputSkip | brightway_integration.py:184-185 | an exchange that is not a mass input adds nothing to the input mass |
| Scenarios.InputAdd | brightway_integration.py:184-185 | a mass input adds its amount to the input mass |
| Scenarios.OutputSkip | brightway_integration.py:186-187 | an exchange that is not a mass output adds nothing to the output mass |
| Scenarios.OutputAdd | brightway_integration.py:186-187 | a mass output adds its amount to the output mass |
| Scenarios.SecondIsInput | brightway_integration.py:184-185 | four exchanges of which only the second is a mass input weigh its amount as input |
| Scenarios.FourthIsOutput | brightway_integration.py:186-187 | four exchanges of which only the fourth is a mass output weigh its amount as output |
| Scenarios.DistillationMassRows | brightway_integration.py:451-454 | of distillation's rows only the kg input and the kg emission count as mass; litres and MJ do not |
| Scenarios.DistillationSums | brightway_integration.py:451-454 | distillation's own rows weigh 1.2 kg in and 0.02 kg out |
| Scenarios.FermentationRowsOwnCode | brightway_integration.py:442-448 | every fermentation row carries fermentation's code |
| Scenarios.DistillationRowsOwnCode | brightway_integration.py:451-454 | every distillation row carries distillation's code |
| Scenarios.DistillationTotals | brightway_integration.py:441-454 | in the whole example, distillation weighs 1.2 kg in and 0.02 kg out |
| Scenarios.ExampleMassBalance | brightway_integration.py:433-454 | on the example workbook, distillation gets a mass-balance warning with input 1.2, output 0.02 and ratio 1/60 |
| Scenarios.FermentationMassRows | brightway_integration.py:442-448 | of fermentation's rows the three kg inputs and the three kg outputs count as mass; electricity in kWh does not |
| Scenarios.FermentationInput | brightway_integration.py:443-446 | fermentation's mass inputs add up to 6.85 kg |
| Scenarios.FermentationOutput | brightway_integration.py:442-448 | fermentation's mass outputs add up to 6.4 kg |
| Scenarios.FermentationTotals | brightway_integration.py:441-454 | in the whole example, fermentation weighs 6.85 kg in and 6.4 kg out |
| Scenarios.FermentationBalanced | brightway_integration.py:433-454 | fermentation's ratio lies within [0.3, 1.2], so it gets no warning |
| Scenarios.ExampleMassBalanceWarnings | brightway_integration.py:433-454 | check 4 on the example workbook gives exactly one warning, about distillation |
| Scenarios.NoExampleSupplier | brightway_integration.py:433-434 | a flow named like neither example activity has no supplier |
| Scenarios.ExampleDiagramHasNoEdges | brightway_integration.py:433-454 | no input of the example names an activity ("Fermented mass" is not "Fermentation"), so its process diagram has no edges |
| Scenarios.ExampleInputIsGeneric | brightway_integration.py:452 | for the same reason, distillation's fermented-mass input targets the placeholder `generic_Fermented mass` |
| Scenarios.OrphanExchangeRejected | brightway_integration.py:146-165 | an exchange of an unknown code next to a complete activity gives exactly one error, naming that code |

## Left out

- Opening the workbook and reading sheets with pandas (`pd.ExcelFile`,
  `pd.read_excel`) are I/O. A workbook is given as the tables those calls
  would produce.
- `str()` of a numeric cell: a cell is modelled by its text, so how pandas
  prints integers, floats or dates as text is not modelled.
- Python's `float()` on text is a parameter (`toFloat`). Floating-point
  rounding, infinities and the `.2f` formatting of messages are not
  modelled. Sums and ratios are exact reals, and messages are structured
  values rather than formatted text.
- Values.Lower: lower-cases only ASCII and Latin-1 letters. Python's
  `str.lower()` covers all of Unicode.
- Values.RemoveAll: states that no '±' is left and that every other
  character keeps its count, not that those characters keep their order.
- Validator.InputMass: adds right to left, while Python's `sum` adds left
  to right. `Values.AddAssociative` shows the two agree without rounding.
  With rounding they could differ in the last bit.
- Choosing the Brightway project and writing the database
  (`bd.projects.set_current`, deleting an existing database of the same
  name, `db.write`) are I/O. The model stops at the `db_data` the method
  would write. The name it would return is `db_name`.
- The biosphere3 database and its full-text `search` are external. They
  are a parameter, and their ranking is not modelled.
- Dictionary insertion order: `db_data`, the graph's nodes and edges, and
  the metadata are maps, so their order is not modelled.
- The order of unlinked names: the linker iterates over a Python set,
  whose order the program does not rely on. The model allows any order.
- The template and example-workbook generators and their styling are not
  modelled. The example data appears only as values in `Scenarios`.
- The layout and plotting of the network diagram (spring layout, plotly
  traces), and the fallback figure when networkx cannot be imported, are
  not modelled. Only the graph is.
- The Streamlit pages, `utils.py` and `view_users.py` are not part of this
  model.
- Check 3 on the example workbook (no negative amounts) is not stated as
  a concrete lemma; `Validator.NegativeWarningsCounted` covers it in
  general.
- Concurrency: there is none; the importer is used by one caller at a
  time.
