/** Parameter rows of a spreadsheet turned into parameter entries
    (ddgen/pars2sldd.py): a coder profile chosen by kind, the column names
    with their spaces removed, and one entry per row whose value is the
    leading run of the ten `Value_<i>` slots that the larger dimension
    selects. The spreadsheet is given as the data frame `pd.read_excel`
    would return. */
module Pars2Sldd {
  import opened Common

  // ---------------------------------------------------------------------
  // Coder profiles (get_coder_info)

  /** The values of a coder-info dictionary. */
  datatype CoderValue = Str(s: string) | Num(x: real) | Bool(b: bool) | Dict(fields: seq<(string, CoderValue)>)

  type CoderInfo = seq<(string, CoderValue)>

  /** What a step of `create_pars_entries_from_xls` raises. */
  datatype ParsError =
    | UnknownKind                 // UnboundLocalError: no case of the match assigned ElementClass
    | MissingColumn(name: string) // KeyError on a row lookup
    | TypeMismatch                // TypeError from max, from the slice or from np.isnan

  /** The value stored under `key`, if any. */
  function Field(info: CoderInfo, key: string): Option<CoderValue> {
    if info == [] then None
    else if info[0].0 == key then Some(info[0].1)
    else Field(info[1..], key)
  }

  function Keys(info: CoderInfo): seq<string> {
    seq(|info|, i requires 0 <= i < |info| => info[i].0)
  }

  const IMPORT_FROM_FILE: CoderInfo := [
    ("StorageClass", Str("Custom")),
    ("TypeQualifier", Str("")),
    ("Alias", Str("parm_ApdrvChn1InpRng")),
    ("Alignment", Num(-1.0)),
    ("CSCPackageName", Str("Simulink")),
    ("ParameterOrSignal", Str("Parameter")),
    ("CustomStorageClass", Str("ImportFromFile")),
    ("CustomAttributes", Dict([("HeaderFile", Str("generated_params.h")), ("ConcurrentAccess", Bool(false))]))]

  const ECO: CoderInfo := [
    ("CSCPackageName", Str("EcoObj")),
    ("ParameterOrSignal", Str("Parameter")),
    ("CustomStorageClass", Str("Calibration"))]

  /** `get_coder_info(name)`: the element class and the coder info of a
      parameter kind. */
  function GetCoderInfo(kind: string): (r: Result<(string, CoderInfo), ParsError>)
    ensures r.Ok? <==> kind == "import_from_file" || kind == "eco"
    ensures r.Err? ==> r.error == UnknownKind
  {
    match kind
    case "import_from_file" => Ok(("Simulink.Parameter", IMPORT_FROM_FILE))
    case "eco" => Ok(("EcoObj.Parameter", ECO))
    case _ => Err(UnknownKind)
  }

  /** The file-imported profile: a `Simulink.Parameter` with custom
      storage imported from generated_params.h, its eight settings in the
      order the code lists them. */
  lemma ImportFromFileProfile()
    ensures var r := GetCoderInfo("import_from_file").value;
      && r.0 == "Simulink.Parameter"
      && Keys(r.1) == ["StorageClass", "TypeQualifier", "Alias", "Alignment", "CSCPackageName",
                       "ParameterOrSignal", "CustomStorageClass", "CustomAttributes"]
      && Field(r.1, "StorageClass") == Some(Str("Custom"))
      && Field(r.1, "TypeQualifier") == Some(Str(""))
      && Field(r.1, "Alias") == Some(Str("parm_ApdrvChn1InpRng"))
      && Field(r.1, "Alignment") == Some(Num(-1.0))
      && Field(r.1, "CSCPackageName") == Some(Str("Simulink"))
      && Field(r.1, "ParameterOrSignal") == Some(Str("Parameter"))
      && Field(r.1, "CustomStorageClass") == Some(Str("ImportFromFile"))
      && Field(r.1, "CustomAttributes").Some? && Field(r.1, "CustomAttributes").value.Dict?
      && Keys(Field(r.1, "CustomAttributes").value.fields) == ["HeaderFile", "ConcurrentAccess"]
      && Field(Field(r.1, "CustomAttributes").value.fields, "HeaderFile") == Some(Str("generated_params.h"))
      && Field(Field(r.1, "CustomAttributes").value.fields, "ConcurrentAccess") == Some(Bool(false))
  {
  }

  /** The calibration profile: an `EcoObj.Parameter` with exactly three
      settings. */
  lemma EcoProfile()
    ensures var r := GetCoderInfo("eco").value;
      && r.0 == "EcoObj.Parameter"
      && Keys(r.1) == ["CSCPackageName", "ParameterOrSignal", "CustomStorageClass"]
      && Field(r.1, "CSCPackageName") == Some(Str("EcoObj"))
      && Field(r.1, "ParameterOrSignal") == Some(Str("Parameter"))
      && Field(r.1, "CustomStorageClass") == Some(Str("Calibration"))
  {
  }

  // ---------------------------------------------------------------------
  // Cells and column names

  /** A spreadsheet cell as pandas reads it: text, an integer, a float, or
      NaN for an empty cell. */
  datatype Cell = Text(s: string) | Int(n: int) | Real(x: real) | Missing

  /** `s.replace(' ', '')`. */
  function StripSpaces(s: string): (r: string)
    ensures ' ' !in r
    ensures |r| <= |s|
  {
    if s == [] then []
    else (if s[0] == ' ' then [] else [s[0]]) + StripSpaces(s[1..])
  }

  /** Removing spaces keeps the count of every other character, and a
      name without spaces is left as it is. */
  lemma {:induction false} StripSpacesKeepsOthers(s: string)
    ensures forall c | c != ' ' :: multiset(StripSpaces(s))[c] == multiset(s)[c]
    ensures ' ' !in s ==> StripSpaces(s) == s
  {
    if s != [] {
      StripSpacesKeepsOthers(s[1..]);
      assert s == [s[0]] + s[1..];
    }
  }

  /** Removing spaces works piece by piece, so the other characters keep
      their order: together with the one-character case (a space goes, any
      other character stays) this fixes the result for every name. */
  lemma {:induction false} StripSpacesConcat(a: string, b: string)
    ensures StripSpaces(a + b) == StripSpaces(a) + StripSpaces(b)
  {
    if a != [] {
      assert (a + b)[0] == a[0] && (a + b)[1..] == a[1..] + b;
      StripSpacesConcat(a[1..], b);
    } else {
      assert a + b == b;
    }
  }

  /** One character: a space is removed, anything else is kept. */
  lemma StripSpacesChar(c: char)
    ensures StripSpaces([c]) == if c == ' ' then [] else [c]
  {
    assert [c][1..] == [];
  }

  lemma StripSpacesIdempotent(s: string)
    ensures StripSpaces(StripSpaces(s)) == StripSpaces(s)
  {
    StripSpacesKeepsOthers(StripSpaces(s));
  }

  function StrippedColumns(columns: seq<string>): seq<string> {
    seq(|columns|, i requires 0 <= i < |columns| => StripSpaces(columns[i]))
  }

  /** The first column called `name` (a duplicated column is not modelled). */
  function ColumnIndex(columns: seq<string>, name: string): (r: Option<nat>)
    ensures r.Some? ==> r.value < |columns| && columns[r.value] == name && forall j | 0 <= j < r.value :: columns[j] != name
    ensures r.None? ==> name !in columns
  {
    if columns == [] then None
    else if columns[0] == name then Some(0)
    else match ColumnIndex(columns[1..], name)
      case Some(i) => Some(i + 1)
      case None => None
  }

  /** `row[name]`. */
  function Get(columns: seq<string>, row: seq<Cell>, name: string): (r: Result<Cell, ParsError>)
    requires |row| == |columns|
    ensures r.Ok? <==> name in columns
    ensures r.Err? ==> r.error == MissingColumn(name)
  {
    match ColumnIndex(columns, name)
    case Some(i) => Ok(row[i])
    case None => Err(MissingColumn(name))
  }

  /** `row[names].values`. */
  function GetAll(columns: seq<string>, row: seq<Cell>, names: seq<string>): (r: Result<seq<Cell>, ParsError>)
    requires |row| == |columns|
    ensures r.Ok? ==> |r.value| == |names| && forall i | 0 <= i < |names| :: Get(columns, row, names[i]) == Ok(r.value[i])
    ensures r.Ok? <==> forall i | 0 <= i < |names| :: names[i] in columns
    ensures r.Err? ==> r.error.MissingColumn?
  {
    if names == [] then Ok([])
    else
      match (Get(columns, row, names[0]), GetAll(columns, row, names[1..]))
      case (Ok(c), Ok(cs)) => Ok([c] + cs)
      case (Err(e), _) => Err(e)
      case (_, Err(e)) => Err(e)
  }

  /** `['Value_' + str(i + 1) for i in range(10)]`. */
  const VALUE_COLUMNS: seq<string> := ["Value_1", "Value_2", "Value_3", "Value_4", "Value_5",
                                        "Value_6", "Value_7", "Value_8", "Value_9", "Value_10"]

  // ---------------------------------------------------------------------
  // One row

  predicate IsNumber(c: Cell) {
    c.Int? || c.Real?
  }

  function NumberValue(c: Cell): real
    requires IsNumber(c)
  {
    if c.Int? then c.n as real else c.x
  }

  /** `b > a` between two texts (string order) or two non-text cells
      (numbers; NaN compares false with everything). */
  predicate Greater(b: Cell, a: Cell)
    requires a.Text? == b.Text?
  {
    if a.Text? then !StrLe(b.s, a.s)
    else IsNumber(a) && IsNumber(b) && NumberValue(b) > NumberValue(a)
  }

  /** `max([a, b])`: the first unless the second is strictly greater. Two
      texts are compared as strings; text against a number or NaN raises a
      TypeError. */
  function PyMax(a: Cell, b: Cell): (r: Result<Cell, ParsError>)
    ensures r.Err? <==> a.Text? != b.Text?
    ensures r.Err? ==> r.error == TypeMismatch
    ensures r.Ok? ==> r.value == a || (r.value == b && Greater(b, a))
    ensures r.Ok? && Greater(b, a) ==> r.value == b
    ensures r.Ok? && IsNumber(a) && IsNumber(b) ==> NumberValue(r.value) >= NumberValue(a) && NumberValue(r.value) >= NumberValue(b)
    ensures r.Ok? && a.Text? && b.Text? ==> r.value.Text? && StrLe(a.s, r.value.s) && StrLe(b.s, r.value.s)
  {
    if a.Text? != b.Text? then Err(TypeMismatch)
    else if Greater(b, a) then
      if a.Text? then
        StrLeTotal(a.s, b.s);
        StrLeReflexive(b.s);
        Ok(b)
      else Ok(b)
    else
      if a.Text? then
        StrLeReflexive(a.s);
        Ok(a)
      else Ok(a)
  }

  /** Where `values[0:n]` stops on a list of `len` items. */
  function SliceStop(len: nat, n: int): (r: nat)
    ensures r <= len
    ensures 0 <= n ==> r == if n < len then n else len
    ensures n < 0 ==> r == if len + n > 0 then len + n else 0
  {
    if n >= 0 then (if n < len then n else len)
    else if len + n > 0 then len + n else 0
  }

  /** `values[0:dim_max]` followed by `np.isnan(val)`: the bound must be
      an integer, and text among the selected values is refused; NaN is
      not. */
  function SelectedValues(dimMax: Cell, slots: seq<Cell>): (r: Result<seq<Cell>, ParsError>)
    ensures r.Ok? <==> dimMax.Int? && forall i | 0 <= i < SliceStop(|slots|, dimMax.n) :: !slots[i].Text?
    ensures r.Ok? ==> r.value == slots[..SliceStop(|slots|, dimMax.n)]
    ensures r.Err? ==> r.error == TypeMismatch
  {
    if !dimMax.Int? then Err(TypeMismatch)
    else
      var values := slots[..SliceStop(|slots|, dimMax.n)];
      if exists i | 0 <= i < |values| :: values[i].Text? then Err(TypeMismatch)
      else Ok(values)
  }

  /** One `param_dict`. */
  datatype ParamEntry = ParamEntry(
    elementClass: string,
    name: Cell,
    dimensions: seq<Cell>,
    value: seq<Cell>,
    units: Cell,
    description: Cell,
    dataType: Cell,
    min: Cell,
    max: Cell,
    coderInfo: CoderInfo)

  /** The first half of the loop body: the two dimensions, their larger
      one, the ten value slots and the selected values, looked up in the
      order the code makes them. `np.isnan` over the selected values only
      rejects text; a NaN among them lets the row through. */
  function RowValue(columns: seq<string>, row: seq<Cell>): (r: Result<(seq<Cell>, seq<Cell>), ParsError>)
    requires |row| == |columns|
    ensures r.Err? ==> r.error != UnknownKind
  {
    var d1 :- Get(columns, row, "Dimensions_1");
    var d2 :- Get(columns, row, "Dimensions_2");
    var dimMax :- PyMax(d1, d2);
    var slots :- GetAll(columns, row, VALUE_COLUMNS);
    var values :- SelectedValues(dimMax, slots);
    Ok(([d1, d2], values))
  }

  /** The body of the loop over `df.iterrows()`: the dimensions and the
      value, then the remaining columns in the order the code reads them. */
  function RowEntry(columns: seq<string>, row: seq<Cell>, elementClass: string, coderInfo: CoderInfo): (r: Result<ParamEntry, ParsError>)
    requires |row| == |columns|
    ensures r.Ok? ==> r.value.elementClass == elementClass && r.value.coderInfo == coderInfo
    ensures r.Err? ==> r.error != UnknownKind
  {
    var dimsAndValue :- RowValue(columns, row);
    var name :- Get(columns, row, "Name");
    var units :- Get(columns, row, "Unit");
    var description :- Get(columns, row, "Description");
    var dataType :- Get(columns, row, "DataType");
    var min :- Get(columns, row, "Min");
    var max :- Get(columns, row, "Max");
    Ok(ParamEntry(elementClass, name, dimsAndValue.0, dimsAndValue.1, units, description, dataType, min, max, coderInfo))
  }

  /** The columns every row lookup needs. */
  predicate HasParameterColumns(columns: seq<string>) {
    && "Dimensions_1" in columns && "Dimensions_2" in columns
    && (forall i | 0 <= i < |VALUE_COLUMNS| :: VALUE_COLUMNS[i] in columns)
    && "Name" in columns && "Unit" in columns && "Description" in columns
    && "DataType" in columns && "Min" in columns && "Max" in columns
  }

  /** Without every column no row goes through. */
  lemma RowEntryNeedsColumns(columns: seq<string>, row: seq<Cell>, elementClass: string, coderInfo: CoderInfo)
    requires |row| == |columns|
    ensures !HasParameterColumns(columns) ==> RowEntry(columns, row, elementClass, coderInfo).Err?
  {
  }

  /** With every column there, a row goes through exactly when the
      larger dimension is an integer and no selected value is text. */
  lemma RowValueOk(columns: seq<string>, row: seq<Cell>)
    requires |row| == |columns| && HasParameterColumns(columns)
    ensures var m := PyMax(Get(columns, row, "Dimensions_1").value, Get(columns, row, "Dimensions_2").value);
      RowValue(columns, row).Ok? <==>
        m.Ok? && SelectedValues(m.value, GetAll(columns, row, VALUE_COLUMNS).value).Ok?
  {
  }

  lemma RowEntryOk(columns: seq<string>, row: seq<Cell>, elementClass: string, coderInfo: CoderInfo)
    requires |row| == |columns| && HasParameterColumns(columns)
    ensures var m := PyMax(Get(columns, row, "Dimensions_1").value, Get(columns, row, "Dimensions_2").value);
      RowEntry(columns, row, elementClass, coderInfo).Ok? <==>
        m.Ok? && SelectedValues(m.value, GetAll(columns, row, VALUE_COLUMNS).value).Ok?
  {
    RowValueOk(columns, row);
  }

  /** The dimensions and value of a row: its two dimension cells, and the
      first `SliceStop(10, max)` slots, that is min(max, 10) of them for a
      non-negative bound; nothing compares that count with the product of
      the dimensions. */
  lemma RowValueOf(columns: seq<string>, row: seq<Cell>)
    requires |row| == |columns|
    requires RowValue(columns, row).Ok?
    ensures var dv := RowValue(columns, row).value;
      var d1 := Get(columns, row, "Dimensions_1").value;
      var d2 := Get(columns, row, "Dimensions_2").value;
      var m := PyMax(d1, d2).value;
      var slots := GetAll(columns, row, VALUE_COLUMNS).value;
      && m.Int? && |slots| == 10
      && dv.0 == [d1, d2]
      && dv.1 == slots[..SliceStop(10, m.n)]
  {
  }

  /** The entry of a row carries those dimensions and that value, and the
      row's `Name`, `Unit`, `Description`, `DataType`, `Min` and `Max`
      cells. */
  lemma RowEntryValue(columns: seq<string>, row: seq<Cell>, elementClass: string, coderInfo: CoderInfo)
    requires |row| == |columns|
    requires RowEntry(columns, row, elementClass, coderInfo).Ok?
    ensures RowValue(columns, row).Ok? && Get(columns, row, "Name").Ok?
    ensures && Get(columns, row, "Unit").Ok? && Get(columns, row, "Description").Ok?
            && Get(columns, row, "DataType").Ok? && Get(columns, row, "Min").Ok? && Get(columns, row, "Max").Ok?
    ensures var e := RowEntry(columns, row, elementClass, coderInfo).value;
      && (e.dimensions, e.value) == RowValue(columns, row).value
      && e.name == Get(columns, row, "Name").value
      && e.units == Get(columns, row, "Unit").value
      && e.description == Get(columns, row, "Description").value
      && e.dataType == Get(columns, row, "DataType").value
      && e.min == Get(columns, row, "Min").value
      && e.max == Get(columns, row, "Max").value
  {
  }

  /** The results of a loop that stops at the first failure: all values
      in order, or the first error. */
  function Collect<T>(rs: seq<Result<T, ParsError>>): Result<seq<T>, ParsError>
    decreases |rs|
  {
    if rs == [] then Ok([])
    else
      var done :- Collect(rs[..|rs| - 1]);
      var e :- rs[|rs| - 1];
      Ok(done + [e])
  }

  /** The results go through exactly when each of them does, and then
      give their values in order. */
  lemma {:induction false} CollectOk<T>(rs: seq<Result<T, ParsError>>)
    ensures Collect(rs).Ok? <==> forall i | 0 <= i < |rs| :: rs[i].Ok?
    ensures Collect(rs).Ok? ==> |Collect(rs).value| == |rs| && forall i | 0 <= i < |rs| :: rs[i] == Ok(Collect(rs).value[i])
    decreases |rs|
  {
    if rs != [] {
      var init := rs[..|rs| - 1];
      CollectOk(init);
      assert forall i | 0 <= i < |init| :: rs[i] == init[i];
    }
  }

  /** Otherwise the error is that of the first failing result. */
  lemma {:induction false} CollectFirstError<T>(rs: seq<Result<T, ParsError>>)
    ensures Collect(rs).Err? ==> exists k | 0 <= k < |rs| ::
      rs[k] == Err(Collect(rs).error) && forall i | 0 <= i < k :: rs[i].Ok?
    decreases |rs|
  {
    if rs != [] {
      var init := rs[..|rs| - 1];
      assert forall i | 0 <= i < |init| :: rs[i] == init[i];
      CollectFirstError(init);
      CollectOk(init);
    }
  }

  /** Once a prefix fails, every longer prefix fails the same way. */
  lemma {:induction false} CollectErrStays<T>(rs: seq<Result<T, ParsError>>, j: nat, k: nat)
    requires j <= k <= |rs|
    requires Collect(rs[..j]).Err?
    ensures Collect(rs[..k]) == Collect(rs[..j])
    decreases k - j
  {
    if j < k {
      assert rs[..j + 1][..j] == rs[..j];
      CollectErrStays(rs, j + 1, k);
    }
  }

  /** The entry, or the error, of every row. */
  function RowResults(columns: seq<string>, rows: seq<seq<Cell>>, elementClass: string, coderInfo: CoderInfo): (r: seq<Result<ParamEntry, ParsError>>)
    requires forall i | 0 <= i < |rows| :: |rows[i]| == |columns|
  {
    seq(|rows|, i requires 0 <= i < |rows| => RowEntry(columns, rows[i], elementClass, coderInfo))
  }

  /** The whole conversion on the data frame as it was read. */
  function ParsEntries(kind: string, columns: seq<string>, rows: seq<seq<Cell>>): Result<seq<ParamEntry>, ParsError>
    requires forall i | 0 <= i < |rows| :: |rows[i]| == |columns|
  {
    var profile :- GetCoderInfo(kind);
    Collect(RowResults(StrippedColumns(columns), rows, profile.0, profile.1))
  }

  /** An unknown kind fails whatever the sheet. */
  lemma ParsEntriesUnknownKind(kind: string, columns: seq<string>, rows: seq<seq<Cell>>)
    requires forall i | 0 <= i < |rows| :: |rows[i]| == |columns|
    ensures GetCoderInfo(kind).Err? <==> ParsEntries(kind, columns, rows) == Err(UnknownKind)
  {
    if GetCoderInfo(kind).Ok? {
      var profile := GetCoderInfo(kind).value;
      var results := RowResults(StrippedColumns(columns), rows, profile.0, profile.1);
      CollectFirstError(results);
    }
  }

  lemma ParsEntriesOk(kind: string, columns: seq<string>, rows: seq<seq<Cell>>)
    requires forall i | 0 <= i < |rows| :: |rows[i]| == |columns|
    requires ParsEntries(kind, columns, rows).Ok?
    ensures var es := ParsEntries(kind, columns, rows).value;
      var profile := GetCoderInfo(kind).value;
      && |es| == |rows|
      && forall i | 0 <= i < |rows| ::
           && Ok(es[i]) == RowEntry(StrippedColumns(columns), rows[i], profile.0, profile.1)
           && es[i].elementClass == profile.0 && es[i].coderInfo == profile.1
  {
    var profile := GetCoderInfo(kind).value;
    var cols := StrippedColumns(columns);
    var results := RowResults(cols, rows, profile.0, profile.1);
    CollectOk(results);
  }

  /** A failing conversion of a known kind fails with the error of its
      first failing row. */
  lemma ParsEntriesFirstError(kind: string, columns: seq<string>, rows: seq<seq<Cell>>)
    requires forall i | 0 <= i < |rows| :: |rows[i]| == |columns|
    requires GetCoderInfo(kind).Ok? && ParsEntries(kind, columns, rows).Err?
    ensures var profile := GetCoderInfo(kind).value;
      exists k | 0 <= k < |rows| ::
        && RowEntry(StrippedColumns(columns), rows[k], profile.0, profile.1) == Err(ParsEntries(kind, columns, rows).error)
        && forall i | 0 <= i < k :: RowEntry(StrippedColumns(columns), rows[i], profile.0, profile.1).Ok?
  {
    var profile := GetCoderInfo(kind).value;
    var cols := StrippedColumns(columns);
    var results := RowResults(cols, rows, profile.0, profile.1);
    assert ParsEntries(kind, columns, rows) == Collect(results);
    CollectFirstError(results);
    var k :| 0 <= k < |results| && results[k] == Err(Collect(results).error) && forall i | 0 <= i < k :: results[i].Ok?;
    assert RowEntry(cols, rows[k], profile.0, profile.1) == results[k];
    forall i | 0 <= i < k
      ensures RowEntry(cols, rows[i], profile.0, profile.1).Ok?
    {
      assert results[i] == RowEntry(cols, rows[i], profile.0, profile.1);
    }
  }

  // ---------------------------------------------------------------------
  // The data frame and the conversion

  /** The `DataFrame` returned by `pd.read_excel`: its column labels and
      its rows, one cell per column. */
  class DataFrame {
    var columns: seq<string>
    var rows: seq<seq<Cell>>

    constructor (columns: seq<string>, rows: seq<seq<Cell>>)
      ensures this.columns == columns && this.rows == rows
    {
      this.columns := columns;
      this.rows := rows;
    }

    predicate Rectangular()
      reads this
    {
      forall i | 0 <= i < |rows| :: |rows[i]| == |columns|
    }

    /** `df.rename(columns=dict(zip(cols, stripped)), inplace=1)`. */
    method StripColumnSpaces()
      modifies this
      ensures columns == StrippedColumns(old(columns))
      ensures rows == old(rows)
    {
      columns := StrippedColumns(columns);
    }
  }

  /** `create_pars_entries_from_xls` on the frame `df` read from the file:
      the profile is looked up first (an unknown kind fails before the
      frame is touched), then the columns are renamed in place and the
      rows are mapped in order. */
  method CreateParsEntriesFromXls(df: DataFrame, kind: string) returns (r: Result<seq<ParamEntry>, ParsError>)
    requires df.Rectangular()
    modifies df
    ensures r == ParsEntries(kind, old(df.columns), old(df.rows))
    ensures df.rows == old(df.rows)
    ensures df.columns == if GetCoderInfo(kind).Ok? then StrippedColumns(old(df.columns)) else old(df.columns)
  {
    var profile := GetCoderInfo(kind);
    if profile.Err? {
      return Err(profile.error);
    }
    var (elementClass, coderInfo) := profile.value;
    df.StripColumnSpaces();
    ghost var results := RowResults(df.columns, df.rows, elementClass, coderInfo);
    var parsEntries: seq<ParamEntry> := [];
    for i := 0 to |df.rows|
      invariant df.columns == StrippedColumns(old(df.columns)) && df.rows == old(df.rows)
      invariant Collect(results[..i]) == Ok(parsEntries)
    {
      assert results[..i + 1][..i] == results[..i];
      var e := RowEntry(df.columns, df.rows[i], elementClass, coderInfo);
      assert e == results[i];
      if e.Err? {
        CollectErrStays(results, i + 1, |results|);
        assert results[..|results|] == results;
        return Err(e.error);
      }
      parsEntries := parsEntries + [e.value];
    }
    assert results[..|results|] == results;
    return Ok(parsEntries);
  }

  // ---------------------------------------------------------------------
  // Worked examples

  /** A row with dimensions [2, 3] and three usable slots selects three
      values, not six, and the NaN among them keeps the row. */
  lemma NoCountCheckExample(columns: seq<string>, row: seq<Cell>)
    requires |row| == |columns|
    requires Get(columns, row, "Dimensions_1") == Ok(Int(2)) && Get(columns, row, "Dimensions_2") == Ok(Int(3))
    requires var s := GetAll(columns, row, VALUE_COLUMNS);
      s.Ok? && s.value[0] == Int(10) && s.value[1] == Missing && s.value[2] == Int(30)
    ensures RowValue(columns, row) == Ok(([Int(2), Int(3)], [Int(10), Missing, Int(30)]))
  {
    var slots := GetAll(columns, row, VALUE_COLUMNS).value;
    assert PyMax(Int(2), Int(3)) == Ok(Int(3));
    assert SliceStop(|slots|, 3) == 3;
    assert slots[..3] == [Int(10), Missing, Int(30)];
    var selected := SelectedValues(Int(3), slots);
    assert selected == Ok([Int(10), Missing, Int(30)]);
  }

  /** Two text dimensions do not raise in `max`: the larger string is
      taken, and the missing `Value_2` column is what fails the row. */
  lemma TextDimensionsExample()
    ensures PyMax(Text("a"), Text("b")) == Ok(Text("b"))
    ensures RowValue(["Dimensions_1", "Dimensions_2", "Value_1"], [Text("a"), Text("b"), Int(1)])
            == Err(MissingColumn("Value_2"))
  {
    assert !StrLe("b", "a");
    var columns := ["Dimensions_1", "Dimensions_2", "Value_1"];
    var row := [Text("a"), Text("b"), Int(1)];
    assert Get(columns, row, "Dimensions_1") == Ok(Text("a"));
    assert Get(columns, row, "Dimensions_2") == Ok(Text("b"));
    assert Get(columns, row, "Value_1") == Ok(Int(1));
    assert "Value_2" !in columns;
    assert VALUE_COLUMNS[1..][0] == "Value_2" && VALUE_COLUMNS[0] == "Value_1";
    assert GetAll(columns, row, VALUE_COLUMNS[1..]) == Err(MissingColumn("Value_2"));
    assert GetAll(columns, row, VALUE_COLUMNS) == Err(MissingColumn("Value_2"));
  }
}
