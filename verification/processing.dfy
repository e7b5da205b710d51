// The processing service's transform of an uploaded humanitarian-aid table and
// the dispatch that selects it by dataset name. The `processing.helpers`
// functions are not part of this model: they are parameters, constrained only
// by the frame conditions `Lawful` states.

module Processing {
  import opened Text
  import opened Frames
  import opened Constants

  /** One entry of `process_config`, passed on to the helpers untouched. */
  type Setting = map<string, string>

  /** `process_config`: the service's processing settings by key. */
  type ProcessConfig = map<string, Setting>

  /** `process_config.get(key)` */
  function ConfigGet(config: ProcessConfig, key: string): (r: Option<Setting>)
    ensures r.Some? <==> key in config
    ensures r.Some? ==> r.value == config[key]
  {
    if key in config then Some(config[key]) else None
  }

  /** The `processing.helpers` functions, each returning the new table or
      failing. */
  datatype Helpers = Helpers(
    prepare: Table -> Result<Table>,
    classification: (Table, Option<Setting>, string, string) -> Result<Table>,
    nullReplacement: (Table, string) -> Result<Table>,
    typeConversion: (Table, map<string, DType>) -> Result<Table>,
    multiReplace: (Table, string, Option<Setting>) -> Result<Table>,
    uppercaseFirstLetter: (Table, string) -> Result<Table>,
    setMonthNames: (Table, string, string) -> Result<Table>)

  /** `after` has the rows of `before`, and under every name outside `touched`
      the same column (or the same KeyError). */
  ghost predicate KeepsOthers(before: Table, after: Table, touched: set<string>)
  {
    after.height == before.height &&
    forall n {:trigger Get(after, n)} :: n !in touched ==> Get(after, n) == Get(before, n)
  }

  /** What the transform relies on from the two helpers it calls after its own
      column assignments: a type conversion changes only the columns it is
      given and keeps the list of names; `set_month_names` writes only its
      target column, which exists afterwards. */
  ghost predicate Lawful(h: Helpers)
  {
    (forall t: Table, types: map<string, DType> :: h.typeConversion(t, types).Ok? ==>
       KeepsOthers(t, h.typeConversion(t, types).value, types.Keys) &&
       Names(h.typeConversion(t, types).value) == Names(t)) &&
    (forall t: Table, src: string, dst: string :: h.setMonthNames(t, src, dst).Ok? ==>
       KeepsOthers(t, h.setMonthNames(t, src, dst).value, {dst}) &&
       dst in Names(h.setMonthNames(t, src, dst).value))
  }

  // ---------------------------------------------------------------------
  // Cell-wise series operations

  /** A binary series operation applied row by row; `None` when some row
      raises. */
  function ZipCells(a: seq<Cell>, b: seq<Cell>, f: (Cell, Cell) -> Option<Cell>): (r: Option<seq<Cell>>)
    requires |a| == |b|
    ensures r.Some? ==> |r.value| == |a| && forall i :: 0 <= i < |a| ==> f(a[i], b[i]) == Some(r.value[i])
    ensures r.None? ==> exists i :: 0 <= i < |a| && f(a[i], b[i]).None?
  {
    if a == [] then Some([])
    else
      var n := |a| - 1;
      match ZipCells(a[..n], b[..n], f)
      case None =>
        assert forall i :: 0 <= i < n ==> a[..n][i] == a[i] && b[..n][i] == b[i];
        None
      case Some(init) =>
        match f(a[n], b[n])
        case None => None
        case Some(c) =>
          assert forall i :: 0 <= i < n ==> a[..n][i] == a[i] && b[..n][i] == b[i];
          Some(init + [c])
  }

  /** One row of `need - quantity`: integers subtract, a missing operand gives
      a missing result, and text or a date raises TypeError (`None`). */
  function SubCell(a: Cell, b: Cell): (r: Option<Cell>)
  {
    if a.Str? || a.Date? || b.Str? || b.Date? then None
    else if a.Null? || b.Null? then Some(Null)
    else Some(Int(a.value - b.value))
  }

  /** The dtype of a difference of two series. */
  function SubDtype(a: DType, b: DType): DType
  {
    if a == Object || b == Object then Object
    else if a == Float64 || b == Float64 then Float64
    else if a == NullableInt64 || b == NullableInt64 then NullableInt64
    else Int64
  }

  /** Whether every cell holds a date (no NaT). */
  predicate AllDates(cells: seq<Cell>)
  {
    forall i :: 0 <= i < |cells| ==> cells[i].Date?
  }

  /** `str(v)` of a date part: `.dt.year` and `.dt.month` are integers, or
      floats printed with ".0" when the column has a missing date. */
  function PartText(v: int, asFloat: bool): string
  {
    if asFloat then IntToString(v) + ".0" else IntToString(v)
  }

  /** `.dt.year.astype(str)` of one cell; a missing date gives "nan". */
  function YearText(c: Cell, asFloat: bool): Cell
  {
    if c.Date? then Str(PartText(c.year, asFloat)) else Str("nan")
  }

  /** `.dt.month.astype(str)` of one cell; a missing date gives "nan". */
  function MonthText(c: Cell, asFloat: bool): Cell
  {
    if c.Date? then Str(PartText(c.month, asFloat)) else Str("nan")
  }

  function YearTexts(cells: seq<Cell>): (r: seq<Cell>)
    ensures |r| == |cells|
  {
    seq(|cells|, i requires 0 <= i < |cells| => YearText(cells[i], !AllDates(cells)))
  }

  function MonthTexts(cells: seq<Cell>): (r: seq<Cell>)
    ensures |r| == |cells|
  {
    seq(|cells|, i requires 0 <= i < |cells| => MonthText(cells[i], !AllDates(cells)))
  }

  /** When no date is missing, "Год" is the plain decimal text of the year
      and reads back as the year, and likewise "Месяц" for the month. */
  lemma DatePartTexts(cells: seq<Cell>, i: nat)
    requires AllDates(cells) && i < |cells|
    ensures YearTexts(cells)[i] == Str(IntToString(cells[i].year))
    ensures MonthTexts(cells)[i] == Str(IntToString(cells[i].month))
    ensures cells[i].year >= 0 ==> DigitsValue(YearTexts(cells)[i].text) == cells[i].year
    ensures cells[i].month >= 0 ==> DigitsValue(MonthTexts(cells)[i].text) == cells[i].month
  {
    if cells[i].year >= 0 {
      NatToStringRoundTrip(cells[i].year);
    }
    if cells[i].month >= 0 {
      NatToStringRoundTrip(cells[i].month);
    }
  }

  /** `str(n)` padded to two digits. */
  function Pad2(n: int): string
  {
    if 0 <= n < 10 then "0" + IntToString(n) else IntToString(n)
  }

  /** What `.astype(str)` writes for a missing value of a column of dtype `d`. */
  function NullText(d: DType): string
  {
    if d == NullableInt64 || d == StringDtype then "<NA>"
    else if d == Datetime64 || d == DatetimeTz then "NaT"
    else "nan"
  }

  /** What `.astype(str)` writes for one cell of a column of dtype `d`. */
  function CellText(c: Cell, d: DType): string
  {
    match c
    case Null => NullText(d)
    case Str(s) => s
    case Int(v) => if d == Float64 then IntToString(v) + ".0" else IntToString(v)
    case Date(y, m, day) => IntToString(y) + "-" + Pad2(m) + "-" + Pad2(day)
  }

  /** One row of `series.astype(str) + " " + units`: a missing unit gives a
      missing result, a unit that is not text raises TypeError (`None`). */
  function UnitCell(x: Cell, d: DType, unit: Cell): (r: Option<Cell>)
  {
    match unit
    case Str(u) => Some(Str(CellText(x, d) + " " + u))
    case Null => Some(Null)
    case _ => None
  }

  /** An integer quantity with a text unit reads "<quantity> <unit>". */
  lemma UnitCellOfInt(v: int, d: DType, u: string)
    requires d != Float64
    ensures UnitCell(Int(v), d, Str(u)) == Some(Str(IntToString(v) + " " + u))
  {
  }

  // ---------------------------------------------------------------------
  // The stages of `humanitarian_aid`

  /** The type conversion applied right after null replacement. */
  const FirstConversion: map<string, DType> :=
    map[ItemNo := Int64, Quantity := NullableInt64, Unmet := NullableInt64, SpentFunds := Float64]

  /** The conversion of the month column to integers. */
  const MonthConversion: map<string, DType> := map[Month := Int64]

  const AllYears := "Все года"
  const AllMonths := "Все месяца"

  /** The helper chain that opens `humanitarian_aid`: preparation,
      classification, null replacement, the first type conversion, the four
      regex replacements and the three capitalisations. */
  function Prepared(df: Table, config: ProcessConfig, h: Helpers): Result<Table>
  {
    var renameData := ConfigGet(config, "rename_data");
    var t1 :- h.prepare(df);
    var t2 :- h.classification(t1, renameData, AssetName, WhatTransferred);
    var t3 :- h.nullReplacement(t2, "type");
    var t4 :- h.typeConversion(t3, FirstConversion);
    var voenRegex := ConfigGet(config, "voen_regex");
    var oivRegex := ConfigGet(config, "oiv_regex");
    var t5 :- h.multiReplace(t4, RequestSender, voenRegex);
    var t6 :- h.multiReplace(t5, Recipient, voenRegex);
    var t7 :- h.multiReplace(t6, GovernmentBody, oivRegex);
    var t8 :- h.multiReplace(t7, Contractor, oivRegex);
    var t9 :- h.uppercaseFirstLetter(t8, AssetName);
    var t10 :- h.uppercaseFirstLetter(t9, GovernmentBody);
    h.uppercaseFirstLetter(t10, Contractor)
  }

  /** The unmet quantity overwritten with need minus transferred quantity. */
  function WithUnmet(t: Table): Result<Table>
  {
    var need :- Get(t, Need);
    var quantity :- Get(t, Quantity);
    match ZipCells(need.cells, quantity.cells, SubCell)
    case None => Err(TypeError(Unmet))
    case Some(cells) => Ok(Assigned(t, Unmet, SubDtype(need.dtype, quantity.dtype), cells))
  }

  /** "Год" and "Месяц" as the text of the transfer date's year and month. */
  function WithYearMonth(t: Table): Result<Table>
  {
    var date :- Get(t, TransferDate);
    if !IsDatetimeLike(date.dtype) then Err(AttributeError(TransferDate))
    else
      var withYear := Assigned(t, Year, Object, YearTexts(date.cells));
      Ok(Assigned(withYear, Month, Object, MonthTexts(date.cells)))
  }

  /** `df[dst] = df[src].astype(str) + " " + df["Ед. изм."]` */
  function WithUnitText(t: Table, src: string, dst: string): Result<Table>
  {
    var values :- Get(t, src);
    var unit :- Get(t, Unit);
    match ZipCells(values.cells, unit.cells, (x, u) => UnitCell(x, values.dtype, u))
    case None => Err(TypeError(dst))
    case Some(texts) => Ok(Assigned(t, dst, Object, texts))
  }

  /** The two "quantity + space + unit" columns. */
  function WithUnitTexts(t: Table): Result<Table>
  {
    var withRequested :- WithUnitText(t, Need, RequestedInUnits);
    WithUnitText(withRequested, Quantity, TransferredInUnits)
  }

  /** The transfer date cast to `datetime64[ms]`: the dates themselves stay;
      a timezone-aware column cannot be cast to a naive dtype and raises
      `TypeError`. */
  function WithDateCast(t: Table): Result<Table>
  {
    var date :- Get(t, TransferDate);
    if date.dtype == DatetimeTz then Err(TypeError(TransferDate))
    else Ok(Assigned(t, TransferDate, Datetime64, date.cells))
  }

  /** The prepared table with the unmet quantity, "Год", "Месяц" (converted
      to integers) and "Месяц_назв". */
  function WithMonthNames(s: Table, h: Helpers): Result<Table>
  {
    var withUnmet :- WithUnmet(s);
    var withYearMonth :- WithYearMonth(withUnmet);
    var converted :- h.typeConversion(withYearMonth, MonthConversion);
    h.setMonthNames(converted, Month, MonthName)
  }

  /** The prepared table with every derived column. */
  function Derive(s: Table, h: Helpers): Result<Table>
  {
    var named :- WithMonthNames(s, h);
    var withUnits :- WithUnitTexts(named);
    WithDateCast(withUnits)
  }

  /** The table just before it is duplicated. */
  function Derived(df: Table, config: ProcessConfig, h: Helpers): Result<Table>
  {
    var prepared :- Prepared(df, config, h);
    Derive(prepared, h)
  }

  /** The all-years copy: "Год" is "Все года". */
  function AllYearsCopy(t: Table): Table
  {
    Assigned(t, Year, Object, Broadcast(t.height, Str(AllYears)))
  }

  /** The all-months copy: "Месяц_назв" is "Все месяца" and "Месяц" is 0. */
  function AllMonthsCopy(t: Table): Table
  {
    var named := Assigned(t, MonthName, Object, Broadcast(t.height, Str(AllMonths)));
    Assigned(named, Month, Int64, Broadcast(t.height, Int(0)))
  }

  /** The copy with both: all months of all years. */
  function BothCopy(t: Table): Table
  {
    Assigned(AllMonthsCopy(t), Year, Object, Broadcast(t.height, Str(AllYears)))
  }

  /** `pd.concat([df, df_d, df_d2, df_d3], ignore_index=True)` */
  function Expanded(t: Table): Table
  {
    Concat2(Concat2(Concat2(t, AllYearsCopy(t)), AllMonthsCopy(t)), BothCopy(t))
  }

  /** The table before the final rename. */
  function Transformed(df: Table, config: ProcessConfig, h: Helpers): Result<Table>
  {
    var derived :- Derived(df, config, h);
    Ok(Expanded(derived))
  }

  /** What `humanitarian_aid(df, process_config)` returns. A missing config
      (`None`) fails on its first `process_config.get`, before any helper runs. */
  function HumanitarianAidResult(df: Table, config: Option<ProcessConfig>, h: Helpers): Result<Frame>
  {
    if config.None? then Err(NoneAttribute("get"))
    else
      var t :- Transformed(df, config.value, h);
      Ok(Renamed(t, EnHasvoCols))
  }

  // ---------------------------------------------------------------------
  // What each stage does

  /** An assignment touches only the assigned name. */
  lemma AssignedKeeps(t: Table, name: string, dtype: DType, cells: seq<Cell>)
    requires |cells| == t.height
    ensures KeepsOthers(t, Assigned(t, name, dtype, cells), {name})
  {
    forall n | n !in {name}
      ensures Get(Assigned(t, name, dtype, cells), n) == Get(t, n)
    {
      AssignedKeepsOthers(t, name, dtype, cells, n);
    }
  }

  /** A name outside the touched ones reads the same column before and after. */
  lemma KeepsAt(a: Table, b: Table, touched: set<string>, n: string)
    requires KeepsOthers(a, b, touched) && n !in touched
    ensures Get(b, n) == Get(a, n)
  {
  }

  /** Changes compose: what two steps leave alone, their sequence leaves alone. */
  lemma KeepsTrans(a: Table, b: Table, c: Table, s1: set<string>, s2: set<string>, s: set<string>)
    requires KeepsOthers(a, b, s1) && KeepsOthers(b, c, s2) && s1 + s2 <= s
    ensures KeepsOthers(a, c, s)
  {
  }

  /** The unmet quantity is computed when need and quantity exist and every
      row subtracts; then each row holds need minus quantity and nothing else
      changes. */
  lemma UnmetStage(t: Table)
    ensures WithUnmet(t).Ok? <==>
              Get(t, Need).Ok? && Get(t, Quantity).Ok? &&
              forall i :: 0 <= i < t.height ==> SubCell(Get(t, Need).value.cells[i], Get(t, Quantity).value.cells[i]).Some?
    ensures WithUnmet(t).Ok? ==>
              KeepsOthers(t, WithUnmet(t).value, {Unmet}) &&
              Get(WithUnmet(t).value, Unmet).Ok? &&
              forall i :: 0 <= i < t.height ==>
                SubCell(Get(t, Need).value.cells[i], Get(t, Quantity).value.cells[i]) ==
                Some(Get(WithUnmet(t).value, Unmet).value.cells[i])
  {
    if Get(t, Need).Ok? && Get(t, Quantity).Ok? {
      var need, quantity := Get(t, Need).value, Get(t, Quantity).value;
      var z := ZipCells(need.cells, quantity.cells, SubCell);
      if z.Some? {
        AssignedKeeps(t, Unmet, SubDtype(need.dtype, quantity.dtype), z.value);
        AssignedReadsBack(t, Unmet, SubDtype(need.dtype, quantity.dtype), z.value);
      }
    }
  }

  /** "Год" and "Месяц" are derived when the transfer date exists and is
      datetime-like (`.dt` raises AttributeError otherwise); they then hold
      the year and month texts and nothing else changes. */
  lemma YearMonthStage(t: Table)
    ensures WithYearMonth(t).Ok? <==> Get(t, TransferDate).Ok? && IsDatetimeLike(Get(t, TransferDate).value.dtype)
    ensures Get(t, TransferDate).Ok? && !IsDatetimeLike(Get(t, TransferDate).value.dtype) ==>
              WithYearMonth(t) == Err(AttributeError(TransferDate))
    ensures WithYearMonth(t).Ok? ==>
              KeepsOthers(t, WithYearMonth(t).value, {Year, Month}) &&
              Get(WithYearMonth(t).value, Year) == Ok(Column(Year, Object, YearTexts(Get(t, TransferDate).value.cells))) &&
              Get(WithYearMonth(t).value, Month) == Ok(Column(Month, Object, MonthTexts(Get(t, TransferDate).value.cells)))
  {
    if WithYearMonth(t).Ok? {
      var date := Get(t, TransferDate).value;
      var withYear := Assigned(t, Year, Object, YearTexts(date.cells));
      AssignedKeeps(t, Year, Object, YearTexts(date.cells));
      AssignedReadsBack(t, Year, Object, YearTexts(date.cells));
      AssignedKeeps(withYear, Month, Object, MonthTexts(date.cells));
      AssignedReadsBack(withYear, Month, Object, MonthTexts(date.cells));
      KeepsTrans(t, withYear, WithYearMonth(t).value, {Year}, {Month}, {Year, Month});
    }
  }

  /** A unit column is built when the source column and the unit exist and
      every unit is text or missing; it then holds, row by row, the source
      value's text, a space and the unit, and nothing else changes. */
  lemma UnitTextStage(t: Table, src: string, dst: string)
    ensures WithUnitText(t, src, dst).Ok? <==>
              Get(t, src).Ok? && Get(t, Unit).Ok? &&
              forall i :: 0 <= i < t.height ==>
                UnitCell(Get(t, src).value.cells[i], Get(t, src).value.dtype, Get(t, Unit).value.cells[i]).Some?
    ensures WithUnitText(t, src, dst).Ok? ==>
              KeepsOthers(t, WithUnitText(t, src, dst).value, {dst}) &&
              Get(WithUnitText(t, src, dst).value, dst).Ok? &&
              forall i :: 0 <= i < t.height ==>
                UnitCell(Get(t, src).value.cells[i], Get(t, src).value.dtype, Get(t, Unit).value.cells[i]) ==
                Some(Get(WithUnitText(t, src, dst).value, dst).value.cells[i])
  {
    if Get(t, src).Ok? && Get(t, Unit).Ok? {
      var values, unit := Get(t, src).value, Get(t, Unit).value;
      var z := ZipCells(values.cells, unit.cells, (x, u) => UnitCell(x, values.dtype, u));
      if z.Some? {
        AssignedKeeps(t, dst, Object, z.value);
        AssignedReadsBack(t, dst, Object, z.value);
      }
    }
  }

  /** The date cast keeps the dates and everything else. */
  lemma DateCastStage(t: Table)
    ensures WithDateCast(t).Ok? <==> Get(t, TransferDate).Ok? && Get(t, TransferDate).value.dtype != DatetimeTz
    ensures Get(t, TransferDate).Ok? && Get(t, TransferDate).value.dtype == DatetimeTz ==>
              WithDateCast(t) == Err(TypeError(TransferDate))
    ensures WithDateCast(t).Ok? ==>
              KeepsOthers(t, WithDateCast(t).value, {TransferDate}) &&
              Get(WithDateCast(t).value, TransferDate) == Ok(Column(TransferDate, Datetime64, Get(t, TransferDate).value.cells))
  {
    if WithDateCast(t).Ok? {
      var date := Get(t, TransferDate).value;
      AssignedKeeps(t, TransferDate, Datetime64, date.cells);
      AssignedReadsBack(t, TransferDate, Datetime64, date.cells);
    }
  }

  // ---------------------------------------------------------------------
  // The table before duplication

  /** The columns the transform writes before duplicating the table. */
  const DerivedColumns: set<string> :=
    {Unmet, Year, Month, MonthName, RequestedInUnits, TransferredInUnits, TransferDate}

  /** Up to the month names only the unmet quantity, "Год", "Месяц" and
      "Месяц_назв" change, and the last three exist. */
  lemma MonthNamesChain(s: Table, h: Helpers)
    requires Lawful(h) && WithMonthNames(s, h).Ok?
    ensures KeepsOthers(s, WithMonthNames(s, h).value, {Unmet, Year, Month, MonthName})
    ensures Year in Names(WithMonthNames(s, h).value) && Month in Names(WithMonthNames(s, h).value) &&
            MonthName in Names(WithMonthNames(s, h).value)
  {
    var u := WithUnmet(s).value;
    var y := WithYearMonth(u).value;
    var c := h.typeConversion(y, MonthConversion).value;
    var m := WithMonthNames(s, h).value;
    assert KeepsOthers(s, y, {Unmet, Year, Month}) && Year in Names(y) && Month in Names(y) by {
      UnmetStage(s);
      YearMonthStage(u);
      KeepsTrans(s, u, y, {Unmet}, {Year, Month}, {Unmet, Year, Month});
    }
    assert KeepsOthers(s, c, {Unmet, Year, Month}) && Year in Names(c) && Month in Names(c) by {
      assert KeepsOthers(y, c, MonthConversion.Keys) && Names(c) == Names(y);
      KeepsTrans(s, y, c, {Unmet, Year, Month}, MonthConversion.Keys, {Unmet, Year, Month});
    }
    assert KeepsOthers(c, m, {MonthName}) && MonthName in Names(m);
    KeepsTrans(s, c, m, {Unmet, Year, Month}, {MonthName}, {Unmet, Year, Month, MonthName});
    assert Get(m, Year) == Get(c, Year) && Get(m, Month) == Get(c, Month);
  }

  /** From the unmet quantity to the month names only "Год", "Месяц" and
      "Месяц_назв" change, and "Год" keeps the year texts. */
  lemma DatePartsChain(u: Table, h: Helpers)
    requires Lawful(h) && WithYearMonth(u).Ok?
    requires h.typeConversion(WithYearMonth(u).value, MonthConversion).Ok?
    requires h.setMonthNames(h.typeConversion(WithYearMonth(u).value, MonthConversion).value, Month, MonthName).Ok?
    ensures var m := h.setMonthNames(h.typeConversion(WithYearMonth(u).value, MonthConversion).value, Month, MonthName).value;
            KeepsOthers(u, m, {Year, Month, MonthName}) &&
            Get(u, TransferDate).Ok? &&
            Get(m, Year) == Ok(Column(Year, Object, YearTexts(Get(u, TransferDate).value.cells)))
  {
    var y := WithYearMonth(u).value;
    var c := h.typeConversion(y, MonthConversion).value;
    var m := h.setMonthNames(c, Month, MonthName).value;
    TransformColumnsDistinct();
    YearMonthStage(u);
    assert KeepsOthers(y, c, {Month});
    assert KeepsOthers(c, m, {MonthName});
    KeepsTrans(y, c, m, {Month}, {MonthName}, {Month, MonthName});
    KeepsTrans(u, y, m, {Year, Month}, {Month, MonthName}, {Year, Month, MonthName});
    KeepsAt(y, m, {Month, MonthName}, Year);
  }

  /** The unmet step leaves the columns the later steps read alone. */
  lemma UnmetKeepsInputs(s: Table, u: Table)
    requires KeepsOthers(s, u, {Unmet})
    ensures Get(u, Need) == Get(s, Need) && Get(u, Quantity) == Get(s, Quantity)
    ensures Get(u, Unit) == Get(s, Unit) && Get(u, TransferDate) == Get(s, TransferDate)
  {
    TransformColumnsDistinct();
    KeepsAt(s, u, {Unmet}, TransferDate);
    KeepsAt(s, u, {Unmet}, Need);
    KeepsAt(s, u, {Unmet}, Quantity);
    KeepsAt(s, u, {Unmet}, Unit);
  }

  /** The date-part steps leave the unmet quantity and the columns the later
      steps read alone. */
  lemma DatePartsKeepInputs(u: Table, m: Table)
    requires KeepsOthers(u, m, {Year, Month, MonthName})
    ensures Get(m, Unmet) == Get(u, Unmet)
    ensures Get(m, Need) == Get(u, Need) && Get(m, Quantity) == Get(u, Quantity)
    ensures Get(m, Unit) == Get(u, Unit) && Get(m, TransferDate) == Get(u, TransferDate)
  {
    TransformColumnsDistinct();
    KeepsAt(u, m, {Year, Month, MonthName}, Unmet);
    KeepsAt(u, m, {Year, Month, MonthName}, Need);
    KeepsAt(u, m, {Year, Month, MonthName}, Quantity);
    KeepsAt(u, m, {Year, Month, MonthName}, Unit);
    KeepsAt(u, m, {Year, Month, MonthName}, TransferDate);
  }

  /** After the month names: the unmet quantity as computed, "Год" as the year
      texts, and need, quantity, unit and transfer date as prepared. */
  lemma MonthNamesContents(s: Table, h: Helpers)
    requires Lawful(h) && WithMonthNames(s, h).Ok?
    ensures var m := WithMonthNames(s, h).value;
            WithUnmet(s).Ok? &&
            Get(m, Unmet) == Get(WithUnmet(s).value, Unmet) &&
            Get(s, TransferDate).Ok? &&
            Get(m, Year) == Ok(Column(Year, Object, YearTexts(Get(s, TransferDate).value.cells))) &&
            Get(m, Need) == Get(s, Need) && Get(m, Quantity) == Get(s, Quantity) &&
            Get(m, Unit) == Get(s, Unit) && Get(m, TransferDate) == Get(s, TransferDate)
  {
    var u := WithUnmet(s).value;
    assert KeepsOthers(s, u, {Unmet}) by {
      UnmetStage(s);
    }
    DatePartsChain(u, h);
    UnmetKeepsInputs(s, u);
    DatePartsKeepInputs(u, WithMonthNames(s, h).value);
  }

  /** The two unit steps leave each other's inputs and the dates alone. */
  lemma UnitTextsKeepInputs(m: Table, w1: Table, w: Table)
    requires KeepsOthers(m, w1, {RequestedInUnits}) && KeepsOthers(w1, w, {TransferredInUnits})
    ensures Get(w1, Quantity) == Get(m, Quantity) && Get(w1, Unit) == Get(m, Unit)
    ensures Get(w, RequestedInUnits) == Get(w1, RequestedInUnits)
    ensures Get(w, TransferDate) == Get(m, TransferDate)
  {
    TransformColumnsDistinct();
    KeepsAt(m, w1, {RequestedInUnits}, Quantity);
    KeepsAt(m, w1, {RequestedInUnits}, Unit);
    KeepsAt(m, w1, {RequestedInUnits}, TransferDate);
    KeepsAt(w1, w, {TransferredInUnits}, RequestedInUnits);
    KeepsAt(w1, w, {TransferredInUnits}, TransferDate);
  }

  /** After the unit texts: the two unit columns row by row from the
      quantities and units before them, and the same dates. */
  lemma UnitTextsContents(m: Table)
    requires WithUnitTexts(m).Ok?
    ensures var w := WithUnitTexts(m).value;
            Get(m, Need).Ok? && Get(m, Quantity).Ok? && Get(m, Unit).Ok? &&
            Get(w, RequestedInUnits).Ok? && Get(w, TransferredInUnits).Ok? && m.height == w.height &&
            (forall r :: 0 <= r < m.height ==>
               UnitCell(Get(m, Need).value.cells[r], Get(m, Need).value.dtype, Get(m, Unit).value.cells[r]) ==
               Some(Get(w, RequestedInUnits).value.cells[r])) &&
            (forall r :: 0 <= r < m.height ==>
               UnitCell(Get(m, Quantity).value.cells[r], Get(m, Quantity).value.dtype, Get(m, Unit).value.cells[r]) ==
               Some(Get(w, TransferredInUnits).value.cells[r])) &&
            Get(w, TransferDate) == Get(m, TransferDate)
  {
    var w1 := WithUnitText(m, Need, RequestedInUnits).value;
    UnitTextStage(m, Need, RequestedInUnits);
    UnitTextStage(w1, Quantity, TransferredInUnits);
    UnitTextsKeepInputs(m, w1, WithUnitTexts(m).value);
  }

  /** After the date cast: the unit columns stay and the dates are the same. */
  lemma DateCastContents(w: Table)
    requires WithDateCast(w).Ok?
    ensures var d := WithDateCast(w).value;
            Get(w, TransferDate).Ok? && d.height == w.height &&
            Get(d, RequestedInUnits) == Get(w, RequestedInUnits) &&
            Get(d, TransferredInUnits) == Get(w, TransferredInUnits) &&
            Get(d, TransferDate) == Ok(Column(TransferDate, Datetime64, Get(w, TransferDate).value.cells))
  {
    TransformColumnsDistinct();
    DateCastStage(w);
    KeepsAt(w, WithDateCast(w).value, {TransferDate}, RequestedInUnits);
    KeepsAt(w, WithDateCast(w).value, {TransferDate}, TransferredInUnits);
  }

  /** A name outside the touched ones that exists before exists after. */
  lemma KeepsName(a: Table, b: Table, touched: set<string>, n: string)
    requires KeepsOthers(a, b, touched) && n !in touched && n in Names(a)
    ensures n in Names(b)
  {
    assert Get(b, n) == Get(a, n);
  }

  /** The unit texts and the date cast change only their own three columns. */
  lemma UnitsAndCastChain(m: Table)
    requires WithUnitTexts(m).Ok? && WithDateCast(WithUnitTexts(m).value).Ok?
    ensures KeepsOthers(m, WithDateCast(WithUnitTexts(m).value).value,
                        {RequestedInUnits, TransferredInUnits, TransferDate})
  {
    var w1 := WithUnitText(m, Need, RequestedInUnits).value;
    var w := WithUnitTexts(m).value;
    UnitTextStage(m, Need, RequestedInUnits);
    UnitTextStage(w1, Quantity, TransferredInUnits);
    KeepsTrans(m, w1, w, {RequestedInUnits}, {TransferredInUnits}, {RequestedInUnits, TransferredInUnits});
    DateCastStage(w);
    KeepsTrans(m, w, WithDateCast(w).value, {RequestedInUnits, TransferredInUnits}, {TransferDate},
               {RequestedInUnits, TransferredInUnits, TransferDate});
  }

  /** The two halves of the derivation compose: the month-name half and the
      unit-and-cast half together touch only the derived columns. */
  lemma DerivedHalves(s: Table, m: Table, d: Table)
    requires KeepsOthers(s, m, {Unmet, Year, Month, MonthName})
    requires KeepsOthers(m, d, {RequestedInUnits, TransferredInUnits, TransferDate})
    requires Year in Names(m) && Month in Names(m) && MonthName in Names(m)
    ensures KeepsOthers(s, d, DerivedColumns)
    ensures Year in Names(d) && Month in Names(d) && MonthName in Names(d)
  {
    var tail := {RequestedInUnits, TransferredInUnits, TransferDate};
    TransformColumnsDistinct();
    KeepsTrans(s, m, d, {Unmet, Year, Month, MonthName}, tail, DerivedColumns);
    KeepsName(m, d, tail, Year);
    KeepsName(m, d, tail, Month);
    KeepsName(m, d, tail, MonthName);
  }

  /** Between the helper chain and the duplication only the derived columns
      change, the rows stay, and "Год", "Месяц" and "Месяц_назв" exist. */
  lemma DeriveChain(s: Table, h: Helpers)
    requires Lawful(h) && Derive(s, h).Ok?
    ensures KeepsOthers(s, Derive(s, h).value, DerivedColumns)
    ensures Year in Names(Derive(s, h).value) && Month in Names(Derive(s, h).value) &&
            MonthName in Names(Derive(s, h).value)
  {
    var m := WithMonthNames(s, h).value;
    MonthNamesChain(s, h);
    UnitsAndCastChain(m);
    DerivedHalves(s, m, Derive(s, h).value);
  }

  /** A successful derivation is the month-name half followed by the unit
      texts and the date cast. */
  lemma DeriveSteps(s: Table, h: Helpers)
    requires Derive(s, h).Ok?
    ensures WithMonthNames(s, h).Ok? && WithUnitTexts(WithMonthNames(s, h).value).Ok?
    ensures WithDateCast(WithUnitTexts(WithMonthNames(s, h).value).value).Ok?
    ensures Derive(s, h).value == WithDateCast(WithUnitTexts(WithMonthNames(s, h).value).value).value
  {
  }

  /** The unit texts and the date cast leave the unmet quantity and "Год" alone. */
  lemma TailKeepsDateParts(m: Table, d: Table)
    requires KeepsOthers(m, d, {RequestedInUnits, TransferredInUnits, TransferDate})
    ensures Get(d, Unmet) == Get(m, Unmet) && Get(d, Year) == Get(m, Year)
  {
    TransformColumnsDistinct();
    KeepsAt(m, d, {RequestedInUnits, TransferredInUnits, TransferDate}, Unmet);
    KeepsAt(m, d, {RequestedInUnits, TransferredInUnits, TransferDate}, Year);
  }

  /** The unmet quantity of the derived table: need minus quantity, row by row. */
  lemma DerivedUnmet(s: Table, h: Helpers)
    requires Lawful(h) && Derive(s, h).Ok?
    ensures var d := Derive(s, h).value;
            d.height == s.height && Get(s, Need).Ok? && Get(s, Quantity).Ok? && Get(d, Unmet).Ok? &&
            forall r :: 0 <= r < s.height ==>
              SubCell(Get(s, Need).value.cells[r], Get(s, Quantity).value.cells[r]) ==
              Some(Get(d, Unmet).value.cells[r])
  {
    var m := WithMonthNames(s, h).value;
    DeriveChain(s, h);
    MonthNamesContents(s, h);
    UnmetStage(s);
    DeriveSteps(s, h);
    UnitsAndCastChain(m);
    TailKeepsDateParts(m, Derive(s, h).value);
  }

  /** "Год" of the derived table: the year texts of the prepared dates. */
  lemma DerivedYear(s: Table, h: Helpers)
    requires Lawful(h) && Derive(s, h).Ok?
    ensures Get(s, TransferDate).Ok? &&
            Get(Derive(s, h).value, Year) == Ok(Column(Year, Object, YearTexts(Get(s, TransferDate).value.cells)))
  {
    var m := WithMonthNames(s, h).value;
    MonthNamesContents(s, h);
    DeriveSteps(s, h);
    UnitsAndCastChain(m);
    TailKeepsDateParts(m, Derive(s, h).value);
  }

  /** The transfer date of the derived table: the prepared dates, as
      `datetime64[ms]`. */
  lemma DerivedDate(s: Table, h: Helpers)
    requires Lawful(h) && Derive(s, h).Ok?
    ensures Get(s, TransferDate).Ok? &&
            Get(Derive(s, h).value, TransferDate) ==
              Ok(Column(TransferDate, Datetime64, Get(s, TransferDate).value.cells))
  {
    var m := WithMonthNames(s, h).value;
    MonthNamesContents(s, h);
    UnitTextsContents(m);
    DateCastContents(WithUnitTexts(m).value);
  }

  /** The unit columns of the derived table: the prepared need and quantity,
      each followed by a space and the prepared unit, row by row. */
  lemma DerivedUnitTexts(s: Table, h: Helpers)
    requires Lawful(h) && Derive(s, h).Ok?
    ensures var d := Derive(s, h).value;
            d.height == s.height && Get(s, Need).Ok? && Get(s, Quantity).Ok? && Get(s, Unit).Ok? &&
            Get(d, RequestedInUnits).Ok? && Get(d, TransferredInUnits).Ok? &&
            (forall r :: 0 <= r < s.height ==>
               UnitCell(Get(s, Need).value.cells[r], Get(s, Need).value.dtype, Get(s, Unit).value.cells[r]) ==
               Some(Get(d, RequestedInUnits).value.cells[r])) &&
            (forall r :: 0 <= r < s.height ==>
               UnitCell(Get(s, Quantity).value.cells[r], Get(s, Quantity).value.dtype, Get(s, Unit).value.cells[r]) ==
               Some(Get(d, TransferredInUnits).value.cells[r]))
  {
    var m := WithMonthNames(s, h).value;
    DeriveChain(s, h);
    MonthNamesContents(s, h);
    UnitTextsContents(m);
    DateCastContents(WithUnitTexts(m).value);
  }

  /** Every other column of the derived table is the prepared one. */
  lemma DerivedUntouched(s: Table, h: Helpers, name: string)
    requires Lawful(h) && Derive(s, h).Ok? && name !in DerivedColumns
    ensures Get(Derive(s, h).value, name) == Get(s, name)
  {
    DeriveChain(s, h);
  }

  // ---------------------------------------------------------------------
  // The four copies

  /** The cell of copy `b` (0: as derived, 1: all years, 2: all months,
      3: both) under `name`, given the derived cell `c`. */
  function BlockCell(b: nat, name: string, c: Cell): Cell
  {
    if name == Year && (b == 1 || b == 3) then Str(AllYears)
    else if name == MonthName && b >= 2 then Str(AllMonths)
    else if name == Month && b >= 2 then Int(0)
    else c
  }

  /** Copy `b` of a whole column. */
  function BlockCells(b: nat, name: string, cells: seq<Cell>): (r: seq<Cell>)
    ensures |r| == |cells|
  {
    seq(|cells|, i requires 0 <= i < |cells| => BlockCell(b, name, cells[i]))
  }

  /** A column of the concatenation: the column followed by its three copies. */
  function Copies(name: string, cells: seq<Cell>): (r: seq<Cell>)
    ensures |r| == 4 * |cells|
  {
    BlockCells(0, name, cells) + BlockCells(1, name, cells) + BlockCells(2, name, cells) + BlockCells(3, name, cells)
  }

  /** Names the copies overwrite; they must exist so that no copy gains a column. */
  predicate HasDateParts(t: Table)
  {
    Year in Names(t) && Month in Names(t) && MonthName in Names(t)
  }

  /** The all-years copy has the same columns, "Год" reading "Все года". */
  lemma AllYearsCopyCells(t: Table, name: string)
    requires HasDateParts(t) && name in Names(t)
    ensures Names(AllYearsCopy(t)) == Names(t)
    ensures Get(AllYearsCopy(t), name).Ok?
    ensures Get(AllYearsCopy(t), name).value.cells == BlockCells(1, name, Get(t, name).value.cells)
  {
    var cells := Broadcast(t.height, Str(AllYears));
    AssignedNames(t, Year, Object, cells);
    if name == Year {
      AssignedReadsBack(t, Year, Object, cells);
    } else {
      AssignedKeepsOthers(t, Year, Object, cells, name);
    }
  }

  /** The all-months copy has the same columns, "Месяц_назв" reading
      "Все месяца" and "Месяц" reading 0. */
  lemma AllMonthsCopyCells(t: Table, name: string)
    requires HasDateParts(t) && name in Names(t)
    ensures Names(AllMonthsCopy(t)) == Names(t)
    ensures Get(AllMonthsCopy(t), name).Ok?
    ensures Get(AllMonthsCopy(t), name).value.cells == BlockCells(2, name, Get(t, name).value.cells)
  {
    TransformColumnsDistinct();
    var monthNames := Broadcast(t.height, Str(AllMonths));
    var zeros := Broadcast(t.height, Int(0));
    var named := Assigned(t, MonthName, Object, monthNames);
    AssignedNames(t, MonthName, Object, monthNames);
    AssignedNames(named, Month, Int64, zeros);
    if name == Month {
      AssignedReadsBack(named, Month, Int64, zeros);
    } else {
      AssignedKeepsOthers(named, Month, Int64, zeros, name);
      if name == MonthName {
        AssignedReadsBack(t, MonthName, Object, monthNames);
      } else {
        AssignedKeepsOthers(t, MonthName, Object, monthNames, name);
      }
    }
  }

  /** The copy with both has the same columns and the overwrites of both. */
  lemma BothCopyCells(t: Table, name: string)
    requires HasDateParts(t) && name in Names(t)
    ensures Names(BothCopy(t)) == Names(t)
    ensures Get(BothCopy(t), name).Ok?
    ensures Get(BothCopy(t), name).value.cells == BlockCells(3, name, Get(t, name).value.cells)
  {
    TransformColumnsDistinct();
    var months := AllMonthsCopy(t);
    var cells := Broadcast(t.height, Str(AllYears));
    AllMonthsCopyCells(t, name);
    AssignedNames(months, Year, Object, cells);
    if name == Year {
      AssignedReadsBack(months, Year, Object, cells);
    } else {
      AssignedKeepsOthers(months, Year, Object, cells, name);
    }
  }

  /** `pd.concat` of the four copies: the same columns, four times the rows,
      and under every name the derived column followed by its three copies. */
  lemma ExpandedColumns(t: Table, name: string)
    requires HasDateParts(t) && name in Names(t)
    ensures Names(Expanded(t)) == Names(t)
    ensures Expanded(t).height == 4 * t.height
    ensures Get(Expanded(t), name).Ok?
    ensures Get(Expanded(t), name).value.cells == Copies(name, Get(t, name).value.cells)
  {
    var src := Get(t, name).value.cells;
    assert BlockCells(0, name, src) == src;
    AllYearsCopyCells(t, name);
    AllMonthsCopyCells(t, name);
    BothCopyCells(t, name);
    var c1 := Concat2(t, AllYearsCopy(t));
    Concat2Get(t, AllYearsCopy(t), name);
    var c2 := Concat2(c1, AllMonthsCopy(t));
    Concat2Get(c1, AllMonthsCopy(t), name);
    Concat2Get(c2, BothCopy(t), name);
  }

  /** Row `r` of copy `b` in a concatenation of four copies of `n` rows. */
  function CopyRow(b: nat, n: nat, r: nat): (i: nat)
    requires b < 4
    ensures r < n ==> i < 4 * n
  {
    if b == 0 then r else if b == 1 then n + r else if b == 2 then n + n + r else n + n + n + r
  }

  /** Row `r` of copy `b` of a concatenated column is `BlockCell` of row `r`
      of the original column. */
  lemma CopiesAt(name: string, src: seq<Cell>, b: nat, r: nat)
    requires b < 4 && r < |src|
    ensures CopyRow(b, |src|, r) < |Copies(name, src)|
    ensures Copies(name, src)[CopyRow(b, |src|, r)] == BlockCell(b, name, src[r])
  {
  }

  // ---------------------------------------------------------------------
  // What `humanitarian_aid` computes, before the rename

  /** What the derivation guarantees about the derived table `d` in terms of
      the prepared table `s`: the same rows; every column it does not write
      unchanged; the unmet quantity as need minus quantity; "Год" as the year
      texts; the two unit columns; the same dates; and the date-part columns
      present. */
  ghost predicate DerivedFrom(s: Table, d: Table)
  {
    d.height == s.height &&
    KeepsOthers(s, d, DerivedColumns) &&
    HasDateParts(d) &&
    Get(s, Need).Ok? && Get(s, Quantity).Ok? && Get(s, Unit).Ok? && Get(s, TransferDate).Ok? &&
    Get(d, Unmet).Ok? && Get(d, RequestedInUnits).Ok? && Get(d, TransferredInUnits).Ok? &&
    (forall r :: 0 <= r < s.height ==>
       SubCell(Get(s, Need).value.cells[r], Get(s, Quantity).value.cells[r]) ==
       Some(Get(d, Unmet).value.cells[r])) &&
    Get(d, Year) == Ok(Column(Year, Object, YearTexts(Get(s, TransferDate).value.cells))) &&
    (forall r :: 0 <= r < s.height ==>
       UnitCell(Get(s, Need).value.cells[r], Get(s, Need).value.dtype, Get(s, Unit).value.cells[r]) ==
       Some(Get(d, RequestedInUnits).value.cells[r])) &&
    (forall r :: 0 <= r < s.height ==>
       UnitCell(Get(s, Quantity).value.cells[r], Get(s, Quantity).value.dtype, Get(s, Unit).value.cells[r]) ==
       Some(Get(d, TransferredInUnits).value.cells[r])) &&
    Get(d, TransferDate) == Ok(Column(TransferDate, Datetime64, Get(s, TransferDate).value.cells))
  }

  /** `e` is `d` followed by its all-years, all-months and combined copies:
      the same names, four times the rows, and under every name the copies of
      the column. */
  ghost predicate CopiesOf(d: Table, e: Table)
  {
    e.height == 4 * d.height && Names(e) == Names(d) &&
    forall name {:trigger Get(e, name)} :: name in Names(d) ==>
      Get(e, name).Ok? && Get(e, name).value.cells == Copies(name, Get(d, name).value.cells)
  }

  /** A successful derivation meets `DerivedFrom`. */
  lemma DeriveMeaning(s: Table, h: Helpers)
    requires Lawful(h) && Derive(s, h).Ok?
    ensures DerivedFrom(s, Derive(s, h).value)
  {
    DeriveChain(s, h);
    DerivedUnmet(s, h);
    DerivedYear(s, h);
    DerivedUnitTexts(s, h);
    DerivedDate(s, h);
  }

  /** The concatenation of the four copies meets `CopiesOf`. */
  lemma ExpandedMeaning(d: Table)
    requires HasDateParts(d)
    ensures CopiesOf(d, Expanded(d))
  {
    ExpandedColumns(d, Year);
    forall name | name in Names(d)
      ensures Get(Expanded(d), name).Ok? &&
              Get(Expanded(d), name).value.cells == Copies(name, Get(d, name).value.cells)
    {
      ExpandedColumns(d, name);
    }
  }

  /** A successful transform is the helper chain, a derivation meeting
      `DerivedFrom` and four copies of what it derived. */
  lemma TransformedMeaning(df: Table, config: ProcessConfig, h: Helpers)
    requires Lawful(h) && Transformed(df, config, h).Ok?
    ensures Prepared(df, config, h).Ok? && Derive(Prepared(df, config, h).value, h).Ok?
    ensures DerivedFrom(Prepared(df, config, h).value, Derive(Prepared(df, config, h).value, h).value)
    ensures CopiesOf(Derive(Prepared(df, config, h).value, h).value, Transformed(df, config, h).value)
  {
    var s := Prepared(df, config, h).value;
    DeriveMeaning(s, h);
    ExpandedMeaning(Derive(s, h).value);
  }

  /** The result has four times the prepared rows and, besides every prepared
      column, the unmet quantity, "Год", "Месяц", "Месяц_назв", the two unit
      columns and the transfer date. */
  lemma ResultColumns(s: Table, d: Table, e: Table)
    requires DerivedFrom(s, d) && CopiesOf(d, e)
    ensures e.height == 4 * s.height
    ensures forall name :: name in Names(s) ==> name in Names(e)
    ensures Unmet in Names(e) && Year in Names(e) && Month in Names(e) && MonthName in Names(e)
    ensures RequestedInUnits in Names(e) && TransferredInUnits in Names(e) && TransferDate in Names(e)
  {
    forall name | name in Names(s)
      ensures name in Names(d)
    {
      if name !in DerivedColumns {
        KeepsAt(s, d, DerivedColumns, name);
      }
    }
  }

  /** In every copy, the unmet quantity is the prepared need minus the
      prepared quantity of the same row. */
  lemma UnmetInEveryCopy(s: Table, d: Table, e: Table, b: nat, r: nat)
    requires DerivedFrom(s, d) && CopiesOf(d, e) && b < 4 && r < s.height
    ensures Get(s, Need).Ok? && Get(s, Quantity).Ok? && Get(e, Unmet).Ok?
    ensures CopyRow(b, s.height, r) < e.height
    ensures SubCell(Get(s, Need).value.cells[r], Get(s, Quantity).value.cells[r]) ==
              Some(Get(e, Unmet).value.cells[CopyRow(b, s.height, r)])
  {
    TransformColumnsDistinct();
    CopiesAt(Unmet, Get(d, Unmet).value.cells, b, r);
  }

  /** "Год" is the year text of the transfer date in the original and the
      all-months copies, and "Все года" in the other two. */
  lemma YearPerCopy(s: Table, d: Table, e: Table, b: nat, r: nat)
    requires DerivedFrom(s, d) && CopiesOf(d, e) && b < 4 && r < s.height
    ensures Get(s, TransferDate).Ok? && Get(e, Year).Ok?
    ensures CopyRow(b, s.height, r) < e.height
    ensures Get(e, Year).value.cells[CopyRow(b, s.height, r)] ==
              if b == 1 || b == 3 then Str(AllYears) else YearTexts(Get(s, TransferDate).value.cells)[r]
  {
    TransformColumnsDistinct();
    CopiesAt(Year, Get(d, Year).value.cells, b, r);
  }

  /** "Месяц" and "Месяц_назв" are the same in the original and the
      all-years copies, and 0 and "Все месяца" in the other two. */
  lemma MonthPerCopy(s: Table, d: Table, e: Table, b: nat, r: nat)
    requires DerivedFrom(s, d) && CopiesOf(d, e) && b < 4 && r < s.height
    ensures Get(e, Month).Ok? && Get(e, MonthName).Ok?
    ensures CopyRow(b, s.height, r) < e.height
    ensures b >= 2 ==> Get(e, Month).value.cells[CopyRow(b, s.height, r)] == Int(0) &&
                       Get(e, MonthName).value.cells[CopyRow(b, s.height, r)] == Str(AllMonths)
    ensures CopyRow(1, s.height, r) < e.height
    ensures Get(e, Month).value.cells[CopyRow(1, s.height, r)] == Get(e, Month).value.cells[CopyRow(0, s.height, r)]
    ensures Get(e, MonthName).value.cells[CopyRow(1, s.height, r)] ==
              Get(e, MonthName).value.cells[CopyRow(0, s.height, r)]
  {
    TransformColumnsDistinct();
    CopiesAt(Month, Get(d, Month).value.cells, b, r);
    CopiesAt(Month, Get(d, Month).value.cells, 0, r);
    CopiesAt(Month, Get(d, Month).value.cells, 1, r);
    CopiesAt(MonthName, Get(d, MonthName).value.cells, b, r);
    CopiesAt(MonthName, Get(d, MonthName).value.cells, 0, r);
    CopiesAt(MonthName, Get(d, MonthName).value.cells, 1, r);
  }

  /** In every copy, the unit columns read the prepared need and quantity of
      the same row, a space and the unit. */
  lemma UnitTextsInEveryCopy(s: Table, d: Table, e: Table, b: nat, r: nat)
    requires DerivedFrom(s, d) && CopiesOf(d, e) && b < 4 && r < s.height
    ensures Get(s, Need).Ok? && Get(s, Quantity).Ok? && Get(s, Unit).Ok?
    ensures Get(e, RequestedInUnits).Ok? && Get(e, TransferredInUnits).Ok?
    ensures CopyRow(b, s.height, r) < e.height
    ensures UnitCell(Get(s, Need).value.cells[r], Get(s, Need).value.dtype, Get(s, Unit).value.cells[r]) ==
              Some(Get(e, RequestedInUnits).value.cells[CopyRow(b, s.height, r)])
    ensures UnitCell(Get(s, Quantity).value.cells[r], Get(s, Quantity).value.dtype, Get(s, Unit).value.cells[r]) ==
              Some(Get(e, TransferredInUnits).value.cells[CopyRow(b, s.height, r)])
  {
    TransformColumnsDistinct();
    CopiesAt(RequestedInUnits, Get(d, RequestedInUnits).value.cells, b, r);
    CopiesAt(TransferredInUnits, Get(d, TransferredInUnits).value.cells, b, r);
  }

  /** In every copy, the transfer date is the prepared date of the same row. */
  lemma DateInEveryCopy(s: Table, d: Table, e: Table, b: nat, r: nat)
    requires DerivedFrom(s, d) && CopiesOf(d, e) && b < 4 && r < s.height
    ensures Get(s, TransferDate).Ok? && Get(e, TransferDate).Ok?
    ensures CopyRow(b, s.height, r) < e.height
    ensures Get(e, TransferDate).value.cells[CopyRow(b, s.height, r)] == Get(s, TransferDate).value.cells[r]
  {
    TransformColumnsDistinct();
    CopiesAt(TransferDate, Get(d, TransferDate).value.cells, b, r);
  }

  /** Every column the transform does not write holds, in every copy, the
      prepared value of the same row. */
  lemma UntouchedInEveryCopy(s: Table, d: Table, e: Table, name: string, b: nat, r: nat)
    requires DerivedFrom(s, d) && CopiesOf(d, e) && b < 4 && r < s.height
    requires name !in DerivedColumns && name in Names(s)
    ensures Get(e, name).Ok? && CopyRow(b, s.height, r) < e.height
    ensures Get(e, name).value.cells[CopyRow(b, s.height, r)] == Get(s, name).value.cells[r]
  {
    KeepsAt(s, d, DerivedColumns, name);
    TransformColumnsDistinct();
    CopiesAt(name, Get(d, name).value.cells, b, r);
  }

  // ---------------------------------------------------------------------
  // The rename and the whole transform

  /** The rename keeps every column in place with its cells, under its English
      name when it has one. */
  lemma RenamedColumn(t: Table, name: string)
    requires name in Names(t)
    ensures var j := IndexOf(t, name).value;
            j < |Renamed(t, EnHasvoCols).columns| &&
            Renamed(t, EnHasvoCols).columns[j].name == RenameName(EnHasvoCols, name) &&
            Renamed(t, EnHasvoCols).columns[j].cells == Get(t, name).value.cells &&
            Renamed(t, EnHasvoCols).columns[j].dtype == Get(t, name).value.dtype
  {
  }

  /** The renamed table still has distinct column names, unless a column the
      map does not cover already bears one of the English names. */
  lemma RenamedDistinct(t: Table)
    requires forall j :: 0 <= j < |t.columns| && t.columns[j].name !in EnHasvoCols ==>
               t.columns[j].name !in EnHasvoCols.Values
    ensures DistinctNames(Renamed(t, EnHasvoCols))
  {
    HasvoColsInjective();
    RenamedKeepsNamesDistinct(t, EnHasvoCols);
  }

  /** The helper chain, one call after another; the first failure is the result. */
  method ApplyHelpers(df: Table, config: ProcessConfig, h: Helpers) returns (r: Result<Table>)
    ensures r == Prepared(df, config, h)
  {
    var renameData := ConfigGet(config, "rename_data");
    var t := h.prepare(df);
    if t.Err? { return Err(t.error); }
    t := h.classification(t.value, renameData, AssetName, WhatTransferred);
    if t.Err? { return Err(t.error); }
    t := h.nullReplacement(t.value, "type");
    if t.Err? { return Err(t.error); }
    t := h.typeConversion(t.value, FirstConversion);
    if t.Err? { return Err(t.error); }
    var voenRegex := ConfigGet(config, "voen_regex");
    var oivRegex := ConfigGet(config, "oiv_regex");
    t := h.multiReplace(t.value, RequestSender, voenRegex);
    if t.Err? { return Err(t.error); }
    t := h.multiReplace(t.value, Recipient, voenRegex);
    if t.Err? { return Err(t.error); }
    t := h.multiReplace(t.value, GovernmentBody, oivRegex);
    if t.Err? { return Err(t.error); }
    t := h.multiReplace(t.value, Contractor, oivRegex);
    if t.Err? { return Err(t.error); }
    t := h.uppercaseFirstLetter(t.value, AssetName);
    if t.Err? { return Err(t.error); }
    t := h.uppercaseFirstLetter(t.value, GovernmentBody);
    if t.Err? { return Err(t.error); }
    r := h.uppercaseFirstLetter(t.value, Contractor);
  }

  /** `df[Unmet] = df[Need] - df[Quantity]`, in place; the exception
      otherwise. */
  method AssignUnmet(df: DataFrame) returns (err: Option<Exception>)
    requires DistinctNames(df.frame)
    modifies df
    ensures err.None? <==> WithUnmet(old(df.frame)).Ok?
    ensures err.None? ==> df.frame == WithUnmet(old(df.frame)).value
    ensures err.Some? ==> err.value == WithUnmet(old(df.frame)).error
    ensures err.Some? ==> df.frame == old(df.frame)
  {
    var need := Get(df.frame, Need);
    if need.Err? { return Some(need.error); }
    var quantity := Get(df.frame, Quantity);
    if quantity.Err? { return Some(quantity.error); }
    var cells := ZipCells(need.value.cells, quantity.value.cells, SubCell);
    if cells.None? { return Some(TypeError(Unmet)); }
    df.Assign(Unmet, SubDtype(need.value.dtype, quantity.value.dtype), cells.value);
    err := None;
  }

  /** `df["Год"]` and `df["Месяц"]` from the transfer date, in place. */
  method AssignYearMonth(df: DataFrame) returns (err: Option<Exception>)
    requires DistinctNames(df.frame)
    modifies df
    ensures err.None? <==> WithYearMonth(old(df.frame)).Ok?
    ensures err.None? ==> df.frame == WithYearMonth(old(df.frame)).value
    ensures err.Some? ==> err.value == WithYearMonth(old(df.frame)).error
    ensures err.Some? ==> df.frame == old(df.frame)
  {
    var date := Get(df.frame, TransferDate);
    if date.Err? { return Some(date.error); }
    if !IsDatetimeLike(date.value.dtype) { return Some(AttributeError(TransferDate)); }
    df.Assign(Year, Object, YearTexts(date.value.cells));
    df.Assign(Month, Object, MonthTexts(date.value.cells));
    err := None;
  }

  /** `df[dst] = df[src].astype(str) + " " + df["Ед. изм."]`, in place. */
  method AssignUnitText(df: DataFrame, src: string, dst: string) returns (err: Option<Exception>)
    requires DistinctNames(df.frame)
    modifies df
    ensures err.None? <==> WithUnitText(old(df.frame), src, dst).Ok?
    ensures err.None? ==> df.frame == WithUnitText(old(df.frame), src, dst).value
    ensures err.Some? ==> err.value == WithUnitText(old(df.frame), src, dst).error
    ensures err.Some? ==> df.frame == old(df.frame)
  {
    var values := Get(df.frame, src);
    if values.Err? { return Some(values.error); }
    var unit := Get(df.frame, Unit);
    if unit.Err? { return Some(unit.error); }
    var dtype := values.value.dtype;
    var texts := ZipCells(values.value.cells, unit.value.cells, (x, u) => UnitCell(x, dtype, u));
    if texts.None? { return Some(TypeError(dst)); }
    df.Assign(dst, Object, texts.value);
    err := None;
  }

  /** The transfer date cast to `datetime64[ms]`, in place. */
  method CastDate(df: DataFrame) returns (err: Option<Exception>)
    requires DistinctNames(df.frame)
    modifies df
    ensures err.None? <==> WithDateCast(old(df.frame)).Ok?
    ensures err.None? ==> df.frame == WithDateCast(old(df.frame)).value
    ensures err.Some? ==> err.value == WithDateCast(old(df.frame)).error
    ensures err.Some? ==> df.frame == old(df.frame)
  {
    var date := Get(df.frame, TransferDate);
    if date.Err? { return Some(date.error); }
    if date.value.dtype == DatetimeTz { return Some(TypeError(TransferDate)); }
    df.Assign(TransferDate, Datetime64, date.value.cells);
    err := None;
  }

  /** Everything between the helper chain and the duplication: the in-place
      assignments, and the two helper calls that return a new table. */
  method Derivation(s: Table, h: Helpers) returns (r: Result<Table>)
    ensures r == Derive(s, h)
  {
    var df := new DataFrame(s);
    var err := AssignUnmet(df);
    if err.Some? { return Err(err.value); }
    err := AssignYearMonth(df);
    if err.Some? { return Err(err.value); }
    var converted := h.typeConversion(df.frame, MonthConversion);
    if converted.Err? { return Err(converted.error); }
    var named := h.setMonthNames(converted.value, Month, MonthName);
    if named.Err? { return Err(named.error); }
    assert named == WithMonthNames(s, h);
    df := new DataFrame(named.value);
    err := AssignUnitText(df, Need, RequestedInUnits);
    if err.Some? { return Err(err.value); }
    err := AssignUnitText(df, Quantity, TransferredInUnits);
    if err.Some? { return Err(err.value); }
    err := CastDate(df);
    if err.Some? { return Err(err.value); }
    r := Ok(df.frame);
  }

  /** The three copies, each changed in place, and their concatenation after
      the original. */
  method Duplicate(t: Table) returns (e: Table)
    ensures e == Expanded(t)
  {
    var df := new DataFrame(t);
    var allYears := df.Copy();
    var allMonths := df.Copy();
    var both := df.Copy();
    allYears.Assign(Year, Object, Broadcast(t.height, Str(AllYears)));
    allMonths.Assign(MonthName, Object, Broadcast(t.height, Str(AllMonths)));
    allMonths.Assign(Month, Int64, Broadcast(t.height, Int(0)));
    both.Assign(MonthName, Object, Broadcast(t.height, Str(AllMonths)));
    both.Assign(Month, Int64, Broadcast(t.height, Int(0)));
    both.Assign(Year, Object, Broadcast(t.height, Str(AllYears)));
    e := Concat2(Concat2(Concat2(t, allYears.frame), allMonths.frame), both.frame);
  }

  /** `humanitarian_aid(df, process_config)` */
  method HumanitarianAid(df: Table, config: Option<ProcessConfig>, h: Helpers) returns (r: Result<Frame>)
    ensures r == HumanitarianAidResult(df, config, h)
    ensures config.None? ==> r == Err(NoneAttribute("get"))
    ensures config.Some? ==> (r.Ok? <==> Transformed(df, config.value, h).Ok?)
  {
    if config.None? { return Err(NoneAttribute("get")); }
    var prepared := ApplyHelpers(df, config.value, h);
    if prepared.Err? { return Err(prepared.error); }
    var derived := Derivation(prepared.value, h);
    if derived.Err? { return Err(derived.error); }
    var expanded := Duplicate(derived.value);
    var result := new DataFrame(expanded);
    result.Rename(EnHasvoCols);
    r := Ok(result.frame);
  }

  /** `procces_df(df, dataset_name, process_config)`: the humanitarian-aid
      transform for its dashboard, the table unchanged for any other name.
      The service passes `processing_cfg.get(dataset_name)`, so the config is
      `None` when it has no entry for the dataset. */
  method ProcessDf(df: Table, datasetName: string, config: Option<ProcessConfig>, h: Helpers) returns (r: Result<Frame>)
    ensures datasetName == GummanitarnayaPomoshchSvo.Value() ==> r == HumanitarianAidResult(df, config, h)
    ensures datasetName == GummanitarnayaPomoshchSvo.Value() && config.None? ==> r == Err(NoneAttribute("get"))
    ensures datasetName != GummanitarnayaPomoshchSvo.Value() ==> r.Ok? && r.value == df
  {
    if datasetName == GummanitarnayaPomoshchSvo.Value() {
      r := HumanitarianAid(df, config, h);
    } else {
      r := Ok(df);
    }
  }

  /** Of all the dashboards, only the humanitarian-aid one selects the
      transform; every other dashboard's table passes through unchanged. */
  lemma DispatchSelectsOnlyHumanitarianAid(d: DashboardName)
    ensures d.Value() == GummanitarnayaPomoshchSvo.Value() <==> d == GummanitarnayaPomoshchSvo
  {
    if d.Value() == GummanitarnayaPomoshchSvo.Value() {
      DashboardValueInjective(d, GummanitarnayaPomoshchSvo);
    }
  }
}
