// The table abstraction shared by the validation chain and the transform:
// a pandas DataFrame reduced to named, typed columns of equal length, the
// exceptions pandas raises on them, and the in-place operations the
// transform performs (column assignment, copy, rename).

module Frames {

  datatype Option<T> = None | Some(value: T)

  /** The Python exceptions the modelled code can let escape. */
  datatype Exception =
    | KeyError(key: string)          // `df[name]` or `d[key]` on an absent key
    | TypeError(column: string)      // arithmetic or concatenation on unsuitable values
    | AttributeError(column: string) // `.dt` accessor on a column that is not datetime-like
    | NoneAttribute(attribute: string) // an attribute looked up on `None`, such as `None.get`
    | HelperError(helper: string)    // a failure inside one of the unmodelled helpers

  datatype Result<T> = Ok(value: T) | Err(error: Exception) {
    predicate IsFailure() { Err? }
    function PropagateFailure<U>(): Result<U> requires Err? { Err(error) }
    function Extract(): T requires Ok? { value }
  }

  /** One cell as pandas reads it from a spreadsheet; `Null` stands for
      None, NaN, NaT and pd.NA alike. */
  datatype Cell = Null | Str(text: string) | Int(value: int) | Date(year: int, month: int, day: int)

  /** The pandas dtypes a column can carry. */
  datatype DType =
    | Int64 | NullableInt64 | Float64 | Bool | Object | StringDtype
    | Datetime64 | DatetimeTz | Timedelta64 | Categorical

  /** `pd.api.types.is_numeric_dtype` (booleans count as numeric, timedeltas do not). */
  predicate IsNumericDtype(d: DType)
  {
    d == Int64 || d == NullableInt64 || d == Float64 || d == Bool
  }

  /** `pd.api.types.is_object_dtype`. */
  predicate IsObjectDtype(d: DType)
  {
    d == Object
  }

  /** `pd.api.types.is_datetime64_any_dtype`: naive or time-zone aware datetimes. */
  predicate IsDatetimeLike(d: DType)
  {
    d == Datetime64 || d == DatetimeTz
  }

  datatype Column = Column(name: string, dtype: DType, cells: seq<Cell>)

  /** Columns in order plus the number of rows (the length of the index). */
  datatype RawFrame = RawFrame(columns: seq<Column>, height: nat)

  /** Positional row alignment: every column has one cell per row. */
  predicate Aligned(f: RawFrame)
  {
    forall j :: 0 <= j < |f.columns| ==> |f.columns[j].cells| == f.height
  }

  predicate DistinctColumnNames(cs: seq<Column>)
  {
    forall i, j :: 0 <= i < j < |cs| ==> cs[i].name != cs[j].name
  }

  predicate DistinctNames(f: RawFrame)
  {
    DistinctColumnNames(f.columns)
  }

  /** Any DataFrame: aligned columns, names possibly repeated (as after a rename). */
  type Frame = f: RawFrame | Aligned(f) witness RawFrame([], 0)

  /** A DataFrame whose column names are distinct, as `pd.read_excel`
      produces and as column assignment keeps. */
  type Table = f: RawFrame | Aligned(f) && DistinctNames(f) witness RawFrame([], 0)

  /** `list(df.columns)`. */
  function Names(f: RawFrame): (r: seq<string>)
    ensures |r| == |f.columns|
    ensures forall j :: 0 <= j < |r| ==> r[j] == f.columns[j].name
  {
    seq(|f.columns|, j requires 0 <= j < |f.columns| => f.columns[j].name)
  }

  /** The position of the first column called `name`, searching from `from`. */
  function IndexFrom(cols: seq<Column>, name: string, from: nat): (r: Option<nat>)
    requires from <= |cols|
    ensures r.Some? ==> from <= r.value < |cols| && cols[r.value].name == name &&
                        forall j :: from <= j < r.value ==> cols[j].name != name
    ensures r.None? ==> forall j :: from <= j < |cols| ==> cols[j].name != name
    decreases |cols| - from
  {
    if from == |cols| then None
    else if cols[from].name == name then Some(from)
    else IndexFrom(cols, name, from + 1)
  }

  /** The position of the column called `name`, if any. */
  function IndexOf(f: RawFrame, name: string): (r: Option<nat>)
    ensures r.Some? ==> r.value < |f.columns| && f.columns[r.value].name == name
    ensures r.None? <==> name !in Names(f)
  {
    IndexFrom(f.columns, name, 0)
  }

  /** In a table, the column called `name` is the only one so called. */
  lemma IndexOfUnique(f: Table, name: string, j: nat)
    requires j < |f.columns| && f.columns[j].name == name
    ensures IndexOf(f, name) == Some(j)
  {
  }

  /** `df[name]`: the column, or KeyError. */
  function Get(f: Table, name: string): (r: Result<Column>)
    ensures r.Ok? <==> name in Names(f)
    ensures r.Ok? ==> r.value.name == name && |r.value.cells| == f.height && r.value in f.columns
    ensures r.Err? ==> r.error == KeyError(name)
  {
    match IndexOf(f, name)
    case Some(j) => Ok(f.columns[j])
    case None => Err(KeyError(name))
  }

  /** The cells of a scalar assigned to a whole column (`df[name] = v`). */
  function Broadcast(height: nat, c: Cell): (r: seq<Cell>)
    ensures |r| == height && forall i :: 0 <= i < height ==> r[i] == c
  {
    seq(height, _ => c)
  }

  /** `df[name] = cells`: overwrites the column called `name` where it stands,
      or appends a new column at the end. */
  function Assigned(f: Table, name: string, dtype: DType, cells: seq<Cell>): (r: Table)
    requires |cells| == f.height
    ensures r.height == f.height
    ensures name in Names(r)
    ensures name in Names(f) ==> |r.columns| == |f.columns|
    ensures name !in Names(f) ==> |r.columns| == |f.columns| + 1 && r.columns[|f.columns|] == Column(name, dtype, cells)
    ensures forall j :: 0 <= j < |f.columns| ==>
              r.columns[j] == if f.columns[j].name == name then Column(name, dtype, cells) else f.columns[j]
  {
    match IndexOf(f, name)
    case Some(j) =>
      var r := RawFrame(f.columns[j := Column(name, dtype, cells)], f.height);
      assert Names(r)[j] == name;
      r
    case None =>
      var r := RawFrame(f.columns + [Column(name, dtype, cells)], f.height);
      assert Names(r)[|f.columns|] == name;
      r
  }

  /** An assignment leaves every other column, and its position, as it was. */
  lemma AssignedKeepsOthers(f: Table, name: string, dtype: DType, cells: seq<Cell>, other: string)
    requires |cells| == f.height && other != name
    ensures Get(Assigned(f, name, dtype, cells), other) == Get(f, other)
    ensures IndexOf(Assigned(f, name, dtype, cells), other) == IndexOf(f, other)
  {
    var r := Assigned(f, name, dtype, cells);
    match IndexOf(f, other)
    case Some(j) =>
      IndexOfUnique(r, other, j);
    case None =>
      assert other !in Names(r);
  }

  /** The column called `name` reads back what was assigned. */
  lemma AssignedReadsBack(f: Table, name: string, dtype: DType, cells: seq<Cell>)
    requires |cells| == f.height
    ensures Get(Assigned(f, name, dtype, cells), name) == Ok(Column(name, dtype, cells))
  {
    var r := Assigned(f, name, dtype, cells);
    match IndexOf(f, name)
    case Some(j) =>
      IndexOfUnique(r, name, j);
    case None =>
      IndexOfUnique(r, name, |f.columns|);
  }

  /** The cells of the column called `name`, or nulls where the frame lacks it
      (how `pd.concat` fills a column one of its inputs does not have). */
  function CellsOrNulls(f: Table, name: string): (r: seq<Cell>)
    ensures |r| == f.height
  {
    match IndexOf(f, name)
    case Some(j) => f.columns[j].cells
    case None => Broadcast(f.height, Null)
  }

  /** The dtype of a concatenated column: kept when both parts agree,
      object otherwise. */
  function ConcatDtype(a: Table, b: Table, name: string, d: DType): DType
  {
    match IndexOf(b, name)
    case Some(k) => if b.columns[k].dtype == d then d else Object
    case None => d
  }

  /** The columns of `bs` whose names `a` lacks, in their order. */
  function ExtraColumns(a: Table, bs: seq<Column>): (r: seq<Column>)
    ensures forall k :: 0 <= k < |r| ==> r[k] in bs && r[k].name !in Names(a)
    ensures forall c :: c in bs && c.name !in Names(a) ==> c in r
    ensures |r| <= |bs|
  {
    if bs == [] then []
    else
      var init := ExtraColumns(a, bs[..|bs| - 1]);
      var last := bs[|bs| - 1];
      assert forall c :: c in bs ==> c in bs[..|bs| - 1] || c == last;
      if last.name in Names(a) then init else init + [last]
  }

  /** Filtering keeps the names of the kept columns distinct. */
  lemma {:induction false} ExtraColumnsDistinct(a: Table, bs: seq<Column>)
    requires DistinctColumnNames(bs)
    ensures DistinctColumnNames(ExtraColumns(a, bs))
  {
    if bs != [] {
      var init, last := bs[..|bs| - 1], bs[|bs| - 1];
      ExtraColumnsDistinct(a, init);
      var e := ExtraColumns(a, init);
      if last.name !in Names(a) {
        var r := e + [last];
        forall i, j | 0 <= i < j < |r|
          ensures r[i].name != r[j].name
        {
          if j == |e| {
            assert e[i] in init;
            var k :| 0 <= k < |init| && init[k] == e[i];
            assert bs[k] == e[i];
          }
        }
      }
    }
  }

  /** The columns of `a`, each extended by the rows of `b`. */
  function ConcatLeft(a: Table, b: Table): (r: seq<Column>)
    ensures |r| == |a.columns|
    ensures forall j :: 0 <= j < |r| ==>
              r[j].name == a.columns[j].name &&
              r[j].cells == a.columns[j].cells + CellsOrNulls(b, a.columns[j].name)
  {
    seq(|a.columns|, j requires 0 <= j < |a.columns| =>
      Column(a.columns[j].name, ConcatDtype(a, b, a.columns[j].name, a.columns[j].dtype),
             a.columns[j].cells + CellsOrNulls(b, a.columns[j].name)))
  }

  /** What `ExtraColumns` yields on a whole table: aligned columns with
      distinct names, none of them when both tables have the same names. */
  lemma ExtraColumnsOfTable(a: Table, b: Table)
    ensures var extra := ExtraColumns(a, b.columns);
            (forall k :: 0 <= k < |extra| ==> |extra[k].cells| == b.height) &&
            DistinctColumnNames(extra) &&
            (Names(a) == Names(b) ==> extra == [])
  {
    var extra := ExtraColumns(a, b.columns);
    ExtraColumnsDistinct(a, b.columns);
    forall k | 0 <= k < |extra| ensures |extra[k].cells| == b.height {
      var i :| 0 <= i < |b.columns| && b.columns[i] == extra[k];
    }
    if Names(a) == Names(b) {
      forall c | c in b.columns ensures c.name in Names(a) {
        var i :| 0 <= i < |b.columns| && b.columns[i] == c;
        assert Names(b)[i] == c.name;
      }
      ExtraColumnsNone(a, b.columns);
    }
  }

  lemma {:induction false} ExtraColumnsNone(a: Table, bs: seq<Column>)
    requires forall c :: c in bs ==> c.name in Names(a)
    ensures ExtraColumns(a, bs) == []
  {
    if bs != [] {
      ExtraColumnsNone(a, bs[..|bs| - 1]);
      assert bs[|bs| - 1] in bs;
    }
  }

  /** The columns only `b` has, each preceded by nulls on the rows of `a`. */
  function ConcatRight(a: Table, b: Table): (r: seq<Column>)
    ensures forall k :: 0 <= k < |r| ==> r[k].name !in Names(a) && |r[k].cells| == a.height + b.height
    ensures forall i, j :: 0 <= i < j < |r| ==> r[i].name != r[j].name
    ensures Names(a) == Names(b) ==> r == []
  {
    var extra := ExtraColumns(a, b.columns);
    ExtraColumnsOfTable(a, b);
    seq(|extra|, k requires 0 <= k < |extra| =>
      Column(extra[k].name, extra[k].dtype, Broadcast(a.height, Null) + extra[k].cells))
  }

  /** `pd.concat([a, b], ignore_index=True)`: the rows of `a` then those of `b`;
      the columns of `a` in order, then those only `b` has; a column missing
      from one input is filled with nulls on its rows. */
  function Concat2(a: Table, b: Table): (r: Table)
    ensures r.height == a.height + b.height
    ensures |r.columns| >= |a.columns|
    ensures forall j :: 0 <= j < |a.columns| ==>
              r.columns[j].name == a.columns[j].name &&
              r.columns[j].cells == a.columns[j].cells + CellsOrNulls(b, a.columns[j].name)
    ensures Names(a) == Names(b) ==> |r.columns| == |a.columns|
  {
    ConcatColumnsAligned(a, b);
    RawFrame(ConcatLeft(a, b) + ConcatRight(a, b), a.height + b.height)
  }

  /** Two aligned column lists with distinct names, no name shared between
      them, append to an aligned list with distinct names. */
  lemma AppendColumns(left: seq<Column>, right: seq<Column>, h: nat)
    requires Aligned(RawFrame(left, h)) && Aligned(RawFrame(right, h))
    requires DistinctColumnNames(left) && DistinctColumnNames(right)
    requires forall i, k :: 0 <= i < |left| && 0 <= k < |right| ==> left[i].name != right[k].name
    ensures Aligned(RawFrame(left + right, h)) && DistinctColumnNames(left + right)
  {
    var cs := left + right;
    forall j | 0 <= j < |cs|
      ensures |cs[j].cells| == h
    {
      if j >= |left| {
        assert cs[j] == right[j - |left|];
      }
    }
    forall i, j | 0 <= i < j < |cs|
      ensures cs[i].name != cs[j].name
    {
      if i >= |left| {
        assert cs[i] == right[i - |left|] && cs[j] == right[j - |left|];
      } else if j >= |left| {
        assert cs[j] == right[j - |left|];
      }
    }
  }

  /** The concatenated columns have one cell per row of both tables and
      distinct names: those of `a`, then names `a` does not have. */
  lemma ConcatColumnsAligned(a: Table, b: Table)
    ensures var cs := ConcatLeft(a, b) + ConcatRight(a, b);
            Aligned(RawFrame(cs, a.height + b.height)) && DistinctColumnNames(cs)
  {
    var left, right := ConcatLeft(a, b), ConcatRight(a, b);
    assert forall i :: 0 <= i < |left| ==> left[i].name == Names(a)[i];
    AppendColumns(left, right, a.height + b.height);
  }

  /** Assigning to an existing column keeps the list of names. */
  lemma AssignedNames(f: Table, name: string, dtype: DType, cells: seq<Cell>)
    requires |cells| == f.height && name in Names(f)
    ensures Names(Assigned(f, name, dtype, cells)) == Names(f)
  {
    var r := Assigned(f, name, dtype, cells);
    assert forall j :: 0 <= j < |f.columns| ==> Names(r)[j] == Names(f)[j];
  }

  /** Concatenating two tables with the same names keeps those names, and each
      column holds the cells of `a` followed by those of `b`. */
  lemma Concat2Get(a: Table, b: Table, name: string)
    requires Names(a) == Names(b) && name in Names(a)
    ensures Names(Concat2(a, b)) == Names(a)
    ensures Get(Concat2(a, b), name).Ok?
    ensures Get(Concat2(a, b), name).value.cells == Get(a, name).value.cells + Get(b, name).value.cells
  {
    var r := Concat2(a, b);
    assert forall j :: 0 <= j < |a.columns| ==> Names(r)[j] == Names(a)[j];
    var j := IndexOf(a, name).value;
    IndexOfUnique(r, name, j);
    assert name in Names(b);
    var k := IndexOf(b, name).value;
    assert CellsOrNulls(b, name) == b.columns[k].cells;
  }

  /** The name a rename map gives a column: its entry, or the name itself. */
  function RenameName(m: map<string, string>, name: string): string
  {
    if name in m then m[name] else name
  }

  /** `df.rename(columns=m)`: every column keeps its place, dtype and cells. */
  function Renamed(f: Frame, m: map<string, string>): (r: Frame)
    ensures r.height == f.height && |r.columns| == |f.columns|
    ensures forall j :: 0 <= j < |f.columns| ==>
              r.columns[j].name == RenameName(m, f.columns[j].name) &&
              r.columns[j].dtype == f.columns[j].dtype &&
              r.columns[j].cells == f.columns[j].cells
  {
    RawFrame(seq(|f.columns|, j requires 0 <= j < |f.columns| =>
      Column(RenameName(m, f.columns[j].name), f.columns[j].dtype, f.columns[j].cells)), f.height)
  }

  /** A rename through an injective map never merges two columns, provided no
      column that the map leaves alone already bears one of its new names. */
  lemma RenamedKeepsNamesDistinct(f: Frame, m: map<string, string>)
    requires DistinctNames(f)
    requires forall a, b :: a in m && b in m && a != b ==> m[a] != m[b]
    requires forall j :: 0 <= j < |f.columns| && f.columns[j].name !in m ==> f.columns[j].name !in m.Values
    ensures DistinctNames(Renamed(f, m))
  {
    var r := Renamed(f, m);
    forall i, j | 0 <= i < j < |r.columns|
      ensures r.columns[i].name != r.columns[j].name
    {
      var a, b := f.columns[i].name, f.columns[j].name;
      if a in m && b !in m {
        assert m[a] in m.Values;
      } else if a !in m && b in m {
        assert m[b] in m.Values;
      }
    }
  }

  /** A pandas DataFrame object, updated in place by column assignment and
      `rename(..., inplace=True)`. */
  class DataFrame {
    var frame: Frame

    constructor (f: Frame)
      ensures frame == f
    {
      frame := f;
    }

    /** `df[name] = cells` */
    method Assign(name: string, dtype: DType, cells: seq<Cell>)
      requires DistinctNames(frame) && |cells| == frame.height
      modifies this
      ensures frame == Assigned(old(frame), name, dtype, cells)
      ensures DistinctNames(frame)
    {
      frame := Assigned(frame, name, dtype, cells);
    }

    /** `df.copy()`: a new, independent object with the same contents. */
    method Copy() returns (d: DataFrame)
      ensures fresh(d) && d.frame == frame
    {
      d := new DataFrame(frame);
    }

    /** `df.rename(columns=m, inplace=True)` */
    method Rename(m: map<string, string>)
      modifies this
      ensures frame == Renamed(old(frame), m)
    {
      frame := Renamed(frame, m);
    }
  }
}
