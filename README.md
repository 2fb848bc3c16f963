# A Dafny model of the SLDD generators

The repository turns CAN matrices (DBC files) and parameter spreadsheets
into Simulink Data Dictionaries (`.sldd` archives). This project models the
logic between the loaded inputs and the XML chunk tree of the archive:

- **Type proposal** (`propose_data_type`): a signal's bit length,
  signedness, factor and offset choose `boolean`, `single`/`double` or the
  narrowest fitting `int*`/`uint*` type.
- **Bus entries from a matrix** (`create_bus_entries_from_dbc`): the frames
  that pass the filters become buses named `CAN_MSG_<message>_t`, with
  their signals sorted by name after an `IsMsgAvl` availability flag.
  Signals with value tables refer to enumerations. Each enumeration is
  found in the registry of named tables `db_enums`, or registered under
  the canonical form of the signal's name (`enum_name_proc`). Every
  enumeration used is exported once, with its labels rewritten into C
  names (`make_c_compatible` plus the `VALUE_<code>` fallback).
- **The chunk tree** (`create_bus_element`, `create_bus`,
  `create_simulink_bus`, `create_simulink_dd`): one `DD.ENTRY` object per
  bus, each wrapping a `Simulink.Bus` element, closed by one
  `DD.Dictionary` object. Each proof pairs a builder with a decoder that
  reads the tree back. The decoder gives back every field the builder
  writes: Name, DataType, Description and DocUnits (or ""), Dimensions.
  The `Units` and `IsEnum` keys never reach the tree, and a missing
  Description or DocUnits reads back the same as an empty one.
- **The self-contained generator** `sldd_gen2.py`: one bus per frame, named
  after the frame, with its elements in signal order. Its entries are
  signed "user" instead of "robot".
- **Parameter rows** (`get_coder_info`, `create_pars_entries_from_xls`):
  - a coder profile is chosen by kind;
  - column names lose their spaces;
  - each row becomes a parameter entry whose value is the leading run of
    the ten `Value_<i>` slots that the larger dimension selects.

Files:

- `common.dfy` (`Common`): Option and Result with `:-`, string
  predicates, and decimal text with its parser.
- `xml_tree.dfy` (`XmlTree`): the `Node` value of an XML element and a
  mutable `Element` class for `ET.SubElement` and `append`.
- `can_matrix.dfy` (`CanMatrix`): frames, signals, value tables and the
  per-file configuration.
- `dbc2sldd.dfy` (`Dbc2Sldd`), `slddgen.dfy` (`SlddGen`),
  `sldd_gen2.dfy` (`SlddGen2`) and `pars2sldd.dfy` (`Pars2Sldd`): one
  module per source file.

Several functions in `sldd_gen2.py` are line for line the same as their
counterparts and are not modelled twice:

| function | in `sldd_gen2.py` | same as | modelled by |
|---|---|---|---|
| `propose_data_type` | lines 9-57 | ddgen/dbc2sldd.py:9-57 | `Dbc2Sldd.ProposeDataType` |
| `create_bus_element` | lines 59-73 | ddgen/slddgen.py:10-24 | `SlddGen.CreateBusElement` |
| `create_bus` | lines 75-86 | ddgen/slddgen.py:26-37 | `SlddGen.CreateBus` |

The `create_simulink_bus` of `sldd_gen2.py` (lines 88-99) only calls
`create_bus`. The imperative parts of the code take an imperative form here:

- tree building through `Element` objects;
- the renaming, signal, frame and sanitising loops as `while`/`for` loops
  over the registry and the export list;
- the in-place column renaming as a method of the `DataFrame` class.

Each method is proved equal to a specification function. The properties
are proved about those functions.

## Model

| member | source | states |
|---|---|---|
| Dbc2Sldd.ProposeDataType | ddgen/dbc2sldd.py:9-57 | `boolean` exactly for a 1-bit signal. When the factor (missing = 1.0) or offset (missing = 0.0) is not neutral: `single` iff at most 32 bits, `double` iff more. A pure integer signal never gets a floating type. The result is never an enumeration type. |
| Dbc2Sldd.IntegerTypeIsNarrowestFit | ddgen/dbc2sldd.py:39-57 | For a pure integer signal, the type is `int<w>`/`uint<w>` (by signedness) exactly when w is the first of 8, 16, 32 that holds the bit length, or 64 when none does. |
| Dbc2Sldd.DataTypeExamples | ddgen/dbc2sldd.py:9-57 | 12-bit unsigned with factor 1.0 and offset 0.0 gives `uint16`; 20-bit signed with factor 0.5 gives `single`. |
| Dbc2Sldd.EnumNameProc | ddgen/dbc2sldd.py:81-87 | The name always ends in `_enum`. It starts with the prefix when there is one. It is the input with at most the prefix added in front and `_enum` added behind. It equals the input iff the input already has both. |
| Dbc2Sldd.EnumNameProcIdempotent | ddgen/dbc2sldd.py:81-87 | Applying the name rule to its own output changes nothing. |
| Dbc2Sldd.SubstituteNonIdent | ddgen/dbc2sldd.py:114 | Same length. Every character is in `[A-Za-z0-9_]`. Identifier characters are kept where they are, and every other character becomes `_`. |
| Dbc2Sldd.MakeCCompatible | ddgen/dbc2sldd.py:112-117 | The result is C-compatible: only `[A-Za-z0-9_]` and no leading digit, the empty string included. A C-compatible name is returned unchanged. The result is the substituted input, with `E_` in front exactly when the substituted input starts with a digit. |
| Dbc2Sldd.ExportLabel | ddgen/dbc2sldd.py:195-203 | The label exported for one code, present and blank labels alike, is C-compatible. |
| Dbc2Sldd.PlaceholderOrSpaceNotCompatible | ddgen/dbc2sldd.py:197 | A whitespace-only label or a `Description for the value` placeholder is never C-compatible. |
| Dbc2Sldd.ExportLabelProperties | ddgen/dbc2sldd.py:195-205 | A label that is already C-compatible is exported as it is. A missing, blank or placeholder label becomes `VALUE_<code>`, and `VALUE__<n>` for the negative code -n. The exported label is empty iff the label was `''`. |
| Dbc2Sldd.MissingLabelExample | ddgen/dbc2sldd.py:197-198 | A missing label for code 5 is exported as `VALUE_5`. |
| Dbc2Sldd.LeadingDigitLabelExample | ddgen/dbc2sldd.py:199-203 | The label `0x5` is exported as `E_0x5`. |
| Dbc2Sldd.PlaceholderLabelExample | ddgen/dbc2sldd.py:197-203 | A label starting with the placeholder text becomes `VALUE_<code>`. |
| Dbc2Sldd.SanitizedTable | ddgen/dbc2sldd.py:195-205 | Sanitising a value table keeps its codes. Every label ends up present and C-compatible (possibly empty). |
| Dbc2Sldd.SanitizedTableKeepsCompatible | ddgen/dbc2sldd.py:203-205 | Labels that are already C-compatible are not rewritten. |
| Dbc2Sldd.SanitizeIdempotent | ddgen/dbc2sldd.py:186-205 | Sanitising a table twice gives the same table as sanitising it once. So a table reached through two export entries ends up as if rewritten once. |
| Dbc2Sldd.SanitizeTable | ddgen/dbc2sldd.py:195-205 | The loop over the codes of one exported table, rewriting labels in place, yields `SanitizedTable` of the table. |
| Dbc2Sldd.Lookup | ddgen/dbc2sldd.py:99 | A name looks up a table iff it is registered. |
| Dbc2Sldd.PutLookup | ddgen/dbc2sldd.py:160 | After `db_enums[name] = t`, `name` maps to `t` and every other name maps to what it did before. |
| Dbc2Sldd.Put | ddgen/dbc2sldd.py:160 | An existing name keeps its place; a new name goes last. |
| Dbc2Sldd.PutUnique | ddgen/dbc2sldd.py:160 | Registering a table keeps the names distinct. |
| Dbc2Sldd.Remove | ddgen/dbc2sldd.py:99 | `pop(name)` leaves exactly the other names registered. |
| Dbc2Sldd.RemoveUnique | ddgen/dbc2sldd.py:99 | `pop` keeps the names distinct. |
| Dbc2Sldd.RemoveLookup | ddgen/dbc2sldd.py:99 | After `pop(name)`, every other name maps to what it did before. |
| Dbc2Sldd.FirstMatch | ddgen/dbc2sldd.py:136-147 | The position found holds a table equal to the signal's. No earlier position does, and when none is found, no position does. |
| Dbc2Sldd.FindRegisteredName | ddgen/dbc2sldd.py:136-147 | The search loop with its early `break` returns the name of the first registered table equal to the signal's, or nothing. |
| Dbc2Sldd.EnumName | ddgen/dbc2sldd.py:81-87 | `enum_name_proc` fails iff the file has no configuration, and otherwise gives the canonical name under the configured prefix. |
| Dbc2Sldd.RenameStep | ddgen/dbc2sldd.py:81-99 | One renaming turn succeeds iff there is a configuration; without one, `conf['enum_prefix']` fails. On success, the table of the old name is stored under its canonical name, the old name is gone when it differs from it, every other name keeps its table, and no other name is added. Names stay distinct. |
| Dbc2Sldd.RenameAll | ddgen/dbc2sldd.py:90-99 | The renaming loop over the snapshot of the names succeeds iff there is no name to visit or there is a configuration. It keeps the names distinct. |
| Dbc2Sldd.RenameAllCanonical | ddgen/dbc2sldd.py:90-99 | After the renaming loop, every registered name is canonical: it ends in `_enum` and carries the prefix. |
| Dbc2Sldd.CanonicalizeTableNames | ddgen/dbc2sldd.py:90-99 | The loop over `list(db_enums.keys())`, popping and reinserting each name that is not canonical, yields `RenameAll`, including its failure without a configuration. On success the names it leaves are distinct and canonical. |
| Dbc2Sldd.RenameCollisionExample | ddgen/dbc2sldd.py:90-99 | Tables named `X` and `X_enum` collide. The table of `X` ends up under `X_enum`, and the other table is lost. |
| Dbc2Sldd.SortByName | ddgen/dbc2sldd.py:175 | `list.sort(key=Name)` as an insertion sort. What it promises is proved in the four lemmas below. |
| Dbc2Sldd.SortByNameSorted | ddgen/dbc2sldd.py:175 | After the sort, the elements are in non-decreasing order of name. |
| Dbc2Sldd.SortByNameMultiset | ddgen/dbc2sldd.py:175 | The sort is a permutation of the elements. |
| Dbc2Sldd.SortByNameStable | ddgen/dbc2sldd.py:175 | The sort is stable: the elements with any given name keep their relative order. |
| Dbc2Sldd.SortByNameProperties | ddgen/dbc2sldd.py:175 | `list.sort(key=Name)` sorts, permutes and is stable, all at once. |
| Dbc2Sldd.Export | ddgen/dbc2sldd.py:152-153 | An already exported name leaves the export list as it is. Otherwise `{name: table}` is appended at the end. Exported names stay distinct. |
| Dbc2Sldd.ResolveSignal | ddgen/dbc2sldd.py:130-164 | One signal fails iff there is no configuration, the signal has a value table, and no equal table is registered under a non-empty name. |
| Dbc2Sldd.ResolveSignalProperties | ddgen/dbc2sldd.py:130-173 | A successful signal keeps the registry and export invariant: names distinct and canonical, exports registered. It gives the element its name, comment, unit, one dimension and enum flag. A signal without a table gets the proposed type and changes nothing. A signal with a table refers to a name that the registry maps to that very table, and the export list becomes `Export` of that name and table. That name is the first registered name of an equal table, with the registry unchanged, or, when there is none, the canonical form of the signal's name. |
| Dbc2Sldd.ResolveSignals | ddgen/dbc2sldd.py:129-173 | The signal loop never fails with a configuration, and when it succeeds it gives one element per signal. |
| Dbc2Sldd.ResolveSignalsProperties | ddgen/dbc2sldd.py:129-173 | A successful signal loop gives one element per signal, in order, and keeps the invariant. Every element refers only to exported enumerations. Every enumeration exported by the loop carries the table of one of its signals, and that signal's element refers to it by name. |
| Dbc2Sldd.ResolveSignalsErrStays | ddgen/dbc2sldd.py:129-173 | A failure at one signal ends the loop with that failure. |
| Dbc2Sldd.ResolveMessageSignals | ddgen/dbc2sldd.py:129-173 | The imperative signal loop (search, register, append to exports, append the element) computes `ResolveSignals`, including its failure at the first signal that needs a new name without a configuration. |
| Dbc2Sldd.FrameBusProperties | ddgen/dbc2sldd.py:175-179 | For the elements `es` of the signals, the bus holds exactly `es` (the same multiset) sorted by name, after an `IsMsgAvl` element at index 0 exactly when no signal has that name. |
| Dbc2Sldd.BuildFrames | ddgen/dbc2sldd.py:119-183 | The frame loop never fails with a configuration. |
| Dbc2Sldd.BuildFramesErrStays | ddgen/dbc2sldd.py:119-183 | A failure at one frame ends the loop with that failure. |
| Dbc2Sldd.BuildFramesProperties | ddgen/dbc2sldd.py:119-183 | A successful frame loop gives one bus per kept frame, in frame order, named `CAN_MSG_<frame>_t`. Placeholder frames and frames off a non-empty allow-list give none. Each bus holds the elements of its frame's signals as `FrameBusProperties` says, and its enumeration references are exported. Every enumeration exported by the loop carries the table of a signal of a kept frame whose bus element refers to it by name. |
| Dbc2Sldd.SanitizedExportsNames | ddgen/dbc2sldd.py:186-205 | The post-processing loop keeps exported names and their order. |
| Dbc2Sldd.SanitizedExports | ddgen/dbc2sldd.py:186-205 | The post-processing keeps every export in its place, under its name, with its table rewritten by `SanitizedTable`. |
| Dbc2Sldd.SanitizeExports | ddgen/dbc2sldd.py:186-205 | The loop over `EnumsExport`, sanitising each table in place, yields `SanitizedExports`. |
| Dbc2Sldd.CreateBusEntries | ddgen/dbc2sldd.py:59-206 | With a configuration entry for the file, the whole pass never fails. |
| Dbc2Sldd.CreateBusEntriesProperties | ddgen/dbc2sldd.py:78-206 | A successful pass gives one bus per kept frame as above. Every referenced enumeration is exported exactly once under a canonical name, so the `_enum` rename branch never fires. Every export is the rewritten table of a signal of a kept frame whose bus element says `Enum: <name>`. Every exported label is present and C-compatible (possibly empty). |
| Dbc2Sldd.MissingConfiguration | ddgen/dbc2sldd.py:69-99 | Without a configuration entry for the file, the pass fails iff an enumeration name is needed: the matrix has a value table, or a frame that is not a placeholder has a signal with one. |
| Dbc2Sldd.UnconfiguredSignals | ddgen/dbc2sldd.py:129-162 | With nothing registered and no configuration, the signal loop fails iff some signal has a value table, and otherwise leaves the state as it was. |
| Dbc2Sldd.UnconfiguredFrames | ddgen/dbc2sldd.py:119-162 | With nothing registered and no configuration, the frame loop fails iff a frame that is not a placeholder has a signal with a value table, and otherwise leaves the state as it was. |
| Dbc2Sldd.CreateBusEntriesFromDbc | ddgen/dbc2sldd.py:59-206 | The imperative pass (rename loop, frame and signal loops, sort, availability insertion, sanitising) computes `CreateBusEntries`, including its failure without a configuration. |
| Dbc2Sldd.CollisionFirst | ddgen/dbc2sldd.py:154-162 | A first signal A with a table registers and exports `A_enum`. |
| Dbc2Sldd.CollisionSecond | ddgen/dbc2sldd.py:136-162 | A second signal A with a different table finds no equal table, re-registers `A_enum` with its own table and refers to it, but nothing new is exported. |
| Dbc2Sldd.CollisionThird | ddgen/dbc2sldd.py:136-162 | A signal B with the first table finds no equal table any more and registers and exports `B_enum`. |
| Dbc2Sldd.InlineTableCollision | ddgen/dbc2sldd.py:136-162 | Two signals named A with different tables both refer to `A_enum`, and only the first table is exported. A later signal with A's first table then gets an enumeration of its own, `B_enum`, because the registry now maps `A_enum` to the second table. |
| Common.IntToStringRoundTrip | ddgen/slddgen.py:23 | `str(Dimensions)` parses back to the same integer. |
| SlddGen.BusElementNode | ddgen/slddgen.py:10-24 | The tree `create_bus_element` returns. Its shape and its reading back are stated by `BusElementShape` and `BusElementRoundTrip`. |
| SlddGen.BusNode | ddgen/slddgen.py:26-37 | The tree `create_bus` returns. Its reading back is stated by `BusRoundTrip`. |
| SlddGen.EntryNode | ddgen/slddgen.py:51-59 | The `DD.ENTRY` object of one bus. Its reading back is stated by `EntryNodeRoundTrip`. |
| SlddGen.SlddChunk | ddgen/slddgen.py:115-128 | The chunk root `create_simulink_dd` builds. Its reading back is stated by `SlddChunkRoundTrip`. |
| SlddGen.BusElementShape | ddgen/slddgen.py:10-24 | A bus element (`BusElementNode`) is a `Simulink.BusElement` with exactly 11 `P` children, in the fixed order Min_internal through Dimensions. |
| SlddGen.BusElementRoundTrip | ddgen/slddgen.py:12-23 | Reading a bus element back gives its name and data type verbatim and its dimensions. Description and DocUnits read as "" when their keys are missing; the fixed properties are as written. |
| SlddGen.UnitsKeyIsNotRead | ddgen/slddgen.py:19 | A dictionary carrying its unit only under `Units` (as dbc2sldd builds them) yields an empty `DocUnits` text. |
| SlddGen.ElementNodesRoundTrip | ddgen/slddgen.py:32-33 | The element trees read back as the fields of their dictionaries, one each, in order. |
| SlddGen.BusShape | ddgen/slddgen.py:28-36 | The fixed properties around `Elements_internal` are the ones the decoder accepts. |
| SlddGen.BusRoundTrip | ddgen/slddgen.py:26-37 | A bus tree (`BusNode`) reads back as one element per dictionary, in input order, and its `Dimension` attribute is `<n>*1`. |
| SlddGen.EntryNodeRoundTrip | ddgen/slddgen.py:51-59 | An entry object (`EntryNode`) reads back as its name, UUID, namespace, timestamp, author and derived flag "0", and it wraps the bus unchanged. |
| SlddGen.DataSourceRoundTrip | ddgen/slddgen.py:115-128 | A chunk root reads back as its entries in order, followed by exactly one dictionary object. |
| SlddGen.SlddChunkRoundTrip | ddgen/slddgen.py:115-128 | The slddgen document (`SlddChunk`): entries in `bus_entries` order, each named by its bus, with `NAMESPACE`, author "robot" and derived "0". Each wraps a bus that reads back as the fields of its element dictionaries. |
| SlddGen.CreateBusElement | ddgen/slddgen.py:10-24 | Building the element one sub-element at a time gives `BusElementNode`. |
| SlddGen.CreateBus | ddgen/slddgen.py:26-37 | The append loop over the elements gives `BusNode`. |
| SlddGen.CreateSimulinkBus | ddgen/slddgen.py:39-60 | Appends exactly one entry for the bus to `root` and leaves the existing children, tag, attributes and text unchanged. |
| SlddGen.CreateSimulinkDD | ddgen/slddgen.py:115-128 | The root assembly loop gives `SlddChunk`: one entry per bus entry in order, then the dictionary object. |
| SlddGen2.Chunk | sldd_gen2.py:137-149 | The chunk root of `create_simulink_dd` in sldd_gen2. Its reading back is stated by `ChunkRoundTrip`. |
| SlddGen2.ChunkRoundTrip | sldd_gen2.py:137-149 | The sldd_gen2 document (`Chunk`): entries follow `bus_entries` in order, with the namespace constant, author "user" and derived flag "0". Each wraps its bus tree unchanged, and one dictionary object follows. |
| SlddGen2.CreateEntryObject | sldd_gen2.py:139-147 | The loop body builds the `DD.ENTRY` object of one bus, signed "user". |
| SlddGen2.CreateSimulinkDD | sldd_gen2.py:137-149 | The root assembly loop gives `Chunk`. |
| SlddGen2.FrameBuses | sldd_gen2.py:182-198 | One bus per frame, named after it. What it holds is stated by `SlddFromDbcProperties`. |
| SlddGen2.CreateSlddFromDbc | sldd_gen2.py:181-201 | The nested frame and signal loops, then the document, give the chunk of `FrameBuses`. |
| SlddGen2.SlddFromDbcProperties | sldd_gen2.py:182-198 | For the buses of `FrameBuses`: one entry per frame, in frame order, none filtered, named exactly after the frame. Its bus reads back as one element per signal in signal order, with no sorting and no availability flag. Each element has the signal's name, proposed type, one dimension, and comment and unit (or ""). |
| Pars2Sldd.GetCoderInfo | ddgen/pars2sldd.py:8-34 | Succeeds exactly for `import_from_file` and `eco`. Any other kind fails with the unbound `ElementClass` error. |
| Pars2Sldd.ImportFromFileProfile | ddgen/pars2sldd.py:10-25 | `Simulink.Parameter` with exactly the eight settings in source order: StorageClass `Custom`, TypeQualifier `''`, Alias `parm_ApdrvChn1InpRng`, Alignment -1.0, CSCPackageName `Simulink`, ParameterOrSignal `Parameter`, CustomStorageClass `ImportFromFile`, and CustomAttributes with HeaderFile `generated_params.h` and ConcurrentAccess false. |
| Pars2Sldd.EcoProfile | ddgen/pars2sldd.py:26-32 | `EcoObj.Parameter` with exactly CSCPackageName `EcoObj`, ParameterOrSignal `Parameter` and CustomStorageClass `Calibration`. |
| Pars2Sldd.StripSpaces | ddgen/pars2sldd.py:52 | No space is left, and the name does not grow. |
| Pars2Sldd.StripSpacesKeepsOthers | ddgen/pars2sldd.py:52 | Every non-space character keeps its count. A name without spaces is left as it is. |
| Pars2Sldd.StripSpacesConcat | ddgen/pars2sldd.py:52 | Stripping a concatenation is concatenating the stripped parts, so the other characters keep their order. |
| Pars2Sldd.StripSpacesChar | ddgen/pars2sldd.py:52 | A single space is removed; any other single character is kept. |
| Pars2Sldd.StripSpacesIdempotent | ddgen/pars2sldd.py:52 | Stripping twice is stripping once. |
| Pars2Sldd.DataFrame.StripColumnSpaces | ddgen/pars2sldd.py:51-54 | The in-place rename gives every column its stripped name and leaves the rows alone. |
| Pars2Sldd.ColumnIndex | ddgen/pars2sldd.py:56 | The first column with the name, or none when no column has it. |
| Pars2Sldd.Get | ddgen/pars2sldd.py:56 | `row[name]` succeeds iff the column exists, and fails with a KeyError naming it otherwise. |
| Pars2Sldd.GetAll | ddgen/pars2sldd.py:59 | `row[names]` succeeds iff every column exists. It then gives each name's cell in order, and otherwise fails with a KeyError. |
| Pars2Sldd.PyMax | ddgen/pars2sldd.py:57 | `max([d1, d2])` fails with a TypeError iff exactly one argument is text. It keeps the first unless the second is strictly greater: by value for numbers, in code-point order for text. The result is at least both arguments. |
| Pars2Sldd.SliceStop | ddgen/pars2sldd.py:60 | Where `values[0:n]` stops, with Python's rules for bounds past the end and for negative bounds. |
| Pars2Sldd.SelectedValues | ddgen/pars2sldd.py:60-63 | The slice plus `np.isnan` succeed iff the bound is an integer and no selected value is text. The result is the leading slots up to the slice stop. NaN does not fail. |
| Pars2Sldd.RowValue | ddgen/pars2sldd.py:56-63 | The dimensions and value of one row fail only with a KeyError or a TypeError, never as an unknown kind. When they succeed and what they give are stated by `RowValueOk` and `RowValueOf`. |
| Pars2Sldd.RowEntryNeedsColumns | ddgen/pars2sldd.py:56-78 | A row fails when any column the loop reads is missing. |
| Pars2Sldd.RowValueOk | ddgen/pars2sldd.py:56-63 | With all columns present, the row's value succeeds iff the maximum succeeds and the selection succeeds. |
| Pars2Sldd.RowEntryOk | ddgen/pars2sldd.py:56-78 | With all columns present, the row's entry succeeds iff the maximum succeeds and the selection succeeds. |
| Pars2Sldd.RowValueOf | ddgen/pars2sldd.py:56-60 | `Dimensions` is `[d1, d2]`. `Value` is the first `min(max, 10)` of the ten slots for a non-negative maximum. |
| Pars2Sldd.RowEntryValue | ddgen/pars2sldd.py:67-78 | The entry carries those dimensions and that value, and the row's `Name`, `Unit`, `Description`, `DataType`, `Min` and `Max` cells, each read successfully. |
| Pars2Sldd.RowEntry | ddgen/pars2sldd.py:67-78 | Every entry carries the profile's element class and coder info. A failing row never fails as an unknown kind. |
| Pars2Sldd.Collect | ddgen/pars2sldd.py:55-79 | The row loop, which stops at the first failing row. It is characterised by `CollectOk`, `CollectFirstError` and `CollectErrStays`. |
| Pars2Sldd.CollectOk | ddgen/pars2sldd.py:55-79 | The row loop succeeds iff every row does, and then gives every row's entry in row order. |
| Pars2Sldd.CollectFirstError | ddgen/pars2sldd.py:55-79 | A failing row loop fails with the error of its first failing row. |
| Pars2Sldd.CollectErrStays | ddgen/pars2sldd.py:55-79 | Once a prefix of the rows fails, every longer prefix fails the same way. |
| Pars2Sldd.ParsEntries | ddgen/pars2sldd.py:36-81 | The whole conversion of a sheet, as read. It is characterised by `ParsEntriesUnknownKind`, `ParsEntriesOk` and `ParsEntriesFirstError`. |
| Pars2Sldd.ParsEntriesUnknownKind | ddgen/pars2sldd.py:46 | The conversion fails as an unknown kind exactly when the kind is unknown, whatever the sheet. |
| Pars2Sldd.ParsEntriesOk | ddgen/pars2sldd.py:55-79 | A successful conversion gives one entry per row, in row order. Each entry is that row's entry over the stripped columns and shares the profile's element class and coder info. |
| Pars2Sldd.ParsEntriesFirstError | ddgen/pars2sldd.py:55-79 | A failing conversion of a known kind fails with the error of its first failing row. |
| Pars2Sldd.CreateParsEntriesFromXls | ddgen/pars2sldd.py:36-81 | Looks up the profile first, so an unknown kind leaves the frame untouched. It then renames the columns in place and maps the rows in order, returning `ParsEntries` of the frame as read. |
| Pars2Sldd.NoCountCheckExample | ddgen/pars2sldd.py:56-63 | Dimensions [2, 3] with the slots 10, NaN and 30 give the value [10, NaN, 30]: three values, not six, and the NaN keeps the row. |
| Pars2Sldd.TextDimensionsExample | ddgen/pars2sldd.py:56-60 | `max(['a', 'b'])` is `'b'`. A row with text dimensions `a`, `b` and only the column `Value_1` fails with a KeyError for `Value_2`. |

## Left out

- Reading the inputs is not modelled; its outputs are inputs here:
  - `canmatrix.formats.loadp_flat` (ddgen/dbc2sldd.py:67) and `canmatrix.formats.loadp` (sldd_gen2.py:178) become the loaded frames and value tables.
  - `pd.read_excel` (ddgen/pars2sldd.py:48) becomes the data frame: column labels and typed cells.
  - YAML configuration loading becomes the configuration entry of the file, if there is one.
- `loadp` returns a dictionary of matrices, not a matrix. The model of `create_sldd_from_dbc` takes the matrix itself.
- Writing the archive is left out, because it is file I/O:
  - the temporary directories and the fixed `[Content_Types].xml` and `.rels` texts;
  - minidom pretty-printing, zip packaging and clean-up.
  - The model stops at the chunk root.
- `uuid.uuid4()` and `datetime.now()` are not deterministic. Each entry's identifier and timestamp are passed in as an `Identity`.
- ddgen/cli.py, the command-line layer, is not part of this model. Nor are `dbc2sldd_gen` and `pars2sldd_gen`, which only read files and call the writer.
- `create_simulink_dd` takes no enumeration or parameter entries, so the calls at ddgen/dbc2sldd.py:251 and ddgen/pars2sldd.py:123 do not match it. No XML payload for enumerations or parameters is modelled.
- Configuration details are not modelled:
  - missing `enum_prefix` or `msgs` keys;
  - an empty configuration dictionary: it is falsy, so it disables the allow-list.
- The code order of a value table (Python dict insertion order) is not modelled: a table is a map from code to label. The rewrite keeps that order in the exported tables; nothing in the pass depends on it, since tables are compared with `==` and each code is rewritten on its own.
- In Python, exported tables share their dictionaries with `db_enums`, so a table reached twice is rewritten twice in place. The model rewrites copies instead; `SanitizeIdempotent` shows the result is the same.
- Real-number semantics are reduced:
  - only the tests `factor != 1.0` and `offset != 0.0` and the comparisons in `max` are kept;
  - NaN is a separate cell value, and `print('!')` is not modelled because it is only console output.
- Not modelled in the spreadsheet:
  - pandas boolean cells, duplicate column labels and non-text column labels;
  - dtype upcasting of mixed columns;
  - the `numpy` array types of the value slice.
- Dbc2Sldd.ExportLabel: its own contract states only that the label is C-compatible; the full label rule is in `ExportLabelProperties`.
- Dbc2Sldd.Put: its own contract states only where the name goes; what names map to afterwards is in `PutLookup`.
- Dbc2Sldd.Remove: its own contract states which names remain; that the rest keep their tables is in `RemoveLookup`, and that the order is kept is not stated.
- Dbc2Sldd.RenameAll: its own contract states when it fails and that names stay distinct; canonicity is in `RenameAllCanonical`.
- Pars2Sldd.RowValue: its own contract states only the kind of error; when it succeeds and what it gives is in `RowValueOk` and `RowValueOf`.
- Pars2Sldd.RowEntry: its own contract states only the profile fields and the kind of error; when it succeeds is in `RowEntryOk`, and every other field of the entry is in `RowEntryValue`.
- Dbc2Sldd.CreateBusEntriesProperties: states that every export was made for a signal that refers to it, but not the converse, that a signal's reference names an export holding that signal's table. The code does not ensure it (`InlineTableCollision`).
- Dbc2Sldd.ResolveSignals: its own contract states only that it does not fail with a configuration and that it gives one element per signal; when it fails without one is in `UnconfiguredSignals`, and what it gives is in `ResolveSignalsProperties`.
- Dbc2Sldd.BuildFrames: its own contract states only that it does not fail with a configuration; when it fails without one is in `UnconfiguredFrames`, and what it gives is in `BuildFramesProperties`.
- Dbc2Sldd.CreateBusEntries: its own contract states only that it does not fail with a configuration; when it fails without one is in `MissingConfiguration`, and what it gives is in `CreateBusEntriesProperties`.

## Behaviour worth noting

The model keeps these behaviours of the code:

- **Missing configuration.** A missing `generate.yml` (ddgen/dbc2sldd.py:243-246), or a file without an entry in it, gives `conf = None`. The pass does not fall back to no prefix and no filter: `conf['enum_prefix']` fails at the first enumeration name (ddgen/dbc2sldd.py:69-87). `MissingConfiguration` states exactly when this happens.
- **Empty labels.** An exported label can be empty: the code keeps `''` as `''`, because `v and (...)` is false for it (ddgen/dbc2sldd.py:197). See `ExportLabelProperties`.
- **Element order.** The elements after `IsMsgAvl` are in non-decreasing, not strictly ascending, name order: the stable sort keeps duplicate names (`SortByNameProperties`).
- **Value tables.** Identical value tables do not always share one enumeration name, and differing tables can collide:
  - `InlineTableCollision`: two signals with the same name and different tables share a name, and two with equal tables can get different names;
  - `RenameCollisionExample`: tables named `X` and `X_enum` collide.
- **Value counts.** A parameter whose value count is not rows × cols is not refused. The code takes the first `min(max(d1, d2), 10)` slots (`NoCountCheckExample`). A NaN among them only prints a marker and the row is kept.
