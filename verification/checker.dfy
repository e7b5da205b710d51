// The document validation chain of the upload bot: four checks, each giving
// `(is_valid, error_msg)`, and the driver that runs them in a fixed order,
// stops after a header failure and otherwise collects every failing check's
// message into one report.

module Checker {
  import opened Text
  import opened ColumnLetters
  import opened Frames

  /** What one check returns: `(is_valid, error_msg)`. */
  datatype Verdict = Verdict(ok: bool, msg: string)

  /** What a check or the whole chain comes to: its verdict, or the exception
      that escapes it. */
  datatype Outcome = Returned(verdict: Verdict) | Raised(error: Exception)

  /** A type declared for a column: a dtype name compared with the column's
      dtype, or one of the three family constants DATETIME, OBJECT, NUMERIC. */
  datatype DeclaredType = Named(dtype: DType) | DATETIME | OBJECT | NUMERIC

  /** The per-category rule tables the checks are configured with. */
  datatype Rules = Rules(
    headers: map<string, seq<string>>,                  // CORRECT_HEADER_DATA
    nullChecked: map<string, seq<string>>,              // COLUMNS_TO_CHECK_NULLS_IN
    types: map<string, map<string, DeclaredType>>)      // COLUMNS_DATA_TYPES

  const Passed := Verdict(true, "")
  const NoHeadersMessage := "Остутсвуют правильные заголовки"
  const MissingColumnsHeading := "⬇️ <b>Остуствуют столбцы</b> \n"
  const MergedCellsMessage := "<b>🔴 Найдены объединенные ячейки</b>"
  const MissingValuesHeading := "⬇️ <b>Наличие пропущенных значений</b>\n"
  const NoTypesMessage := "Не указаны типы данных"
  const WrongTypesHeading := "⬇️ <b>Неверный тип данных</b>\n"
  const ReportHeading := "<b>🚫 Проверка документа не пройдена</b>\n\n"

  // ---------------------------------------------------------------------
  // Header check

  /** `[header.strip().lower() for header in df.columns]` */
  function NormalizedHeaders(names: seq<string>): (r: seq<string>)
    ensures |r| == |names|
    ensures forall i :: 0 <= i < |names| ==> r[i] == Lower(Strip(names[i]))
  {
    seq(|names|, i requires 0 <= i < |names| => Lower(Strip(names[i])))
  }

  /** Whether the expected header at 0-based position `j` is absent:
      it is lower-cased (not stripped) and looked up among the table's headers. */
  predicate Absent(expected: seq<string>, xls: seq<string>, j: nat)
    requires j < |expected|
  {
    Lower(expected[j]) !in xls
  }

  /** The `missing` dictionary after the first `k` expected headers, as its
      list of items: (column letter of the 1-based position, expected name)
      for each absent one, in order. */
  function MissingHeaders(expected: seq<string>, xls: seq<string>, k: nat): (r: seq<(string, string)>)
    requires k <= |expected|
    ensures |r| <= k
  {
    if k == 0 then []
    else
      MissingHeaders(expected, xls, k - 1) +
      (if Absent(expected, xls, k - 1) then [(ColumnLetter(k), expected[k - 1])] else [])
  }

  /** A dict item that reports an absent expected header among the first `k`:
      its key is the letter of that header's 1-based position and its value
      is the header. */
  predicate Reports(expected: seq<string>, xls: seq<string>, k: nat, item: (string, string))
    requires k <= |expected|
  {
    IsColumnName(item.0) && 1 <= ColumnIndex(item.0) <= k &&
    item.1 == expected[ColumnIndex(item.0) - 1] &&
    Absent(expected, xls, ColumnIndex(item.0) - 1)
  }

  /** Every reported item names an absent header by its position, and the
      positions strictly increase along the dict. */
  lemma {:induction false} MissingHeadersSound(expected: seq<string>, xls: seq<string>, k: nat)
    requires k <= |expected|
    ensures forall i :: 0 <= i < |MissingHeaders(expected, xls, k)| ==>
              Reports(expected, xls, k, MissingHeaders(expected, xls, k)[i])
    ensures forall i, i' :: 0 <= i < i' < |MissingHeaders(expected, xls, k)| ==>
              Reports(expected, xls, k, MissingHeaders(expected, xls, k)[i]) &&
              Reports(expected, xls, k, MissingHeaders(expected, xls, k)[i']) &&
              ColumnIndex(MissingHeaders(expected, xls, k)[i].0) < ColumnIndex(MissingHeaders(expected, xls, k)[i'].0)
  {
    if k > 0 {
      MissingHeadersSound(expected, xls, k - 1);
      var before := MissingHeaders(expected, xls, k - 1);
      forall i | 0 <= i < |before|
        ensures Reports(expected, xls, k, before[i])
      {
        assert Reports(expected, xls, k - 1, before[i]);
      }
      if Absent(expected, xls, k - 1) {
        IndexOfLetter(k);
        var m := MissingHeaders(expected, xls, k);
        assert m == before + [(ColumnLetter(k), expected[k - 1])];
        forall i | 0 <= i < |before|
          ensures ColumnIndex(m[i].0) < k
        {
          assert m[i] == before[i];
          assert Reports(expected, xls, k - 1, before[i]);
        }
      }
    }
  }

  /** Every absent header among the first `k` is reported. */
  lemma {:induction false} MissingHeadersComplete(expected: seq<string>, xls: seq<string>, k: nat, j: nat)
    requires j < k <= |expected| && Absent(expected, xls, j)
    ensures (ColumnLetter(j + 1), expected[j]) in MissingHeaders(expected, xls, k)
  {
    if j < k - 1 {
      MissingHeadersComplete(expected, xls, k - 1, j);
    }
  }

  /** `f"<b>{column}</b>: <code>{name}</code>\n"` for every item. */
  function MissingHeaderLines(missing: seq<(string, string)>): (r: seq<string>)
    ensures |r| == |missing|
  {
    seq(|missing|, i requires 0 <= i < |missing| =>
      "<b>" + missing[i].0 + "</b>: <code>" + missing[i].1 + "</code>\n")
  }

  /** The expected headers configured for `category` (`.get(category, [])`). */
  function ExpectedHeaders(category: string, headers: map<string, seq<string>>): seq<string>
  {
    if category in headers then headers[category] else []
  }

  /** What `check_correct_header` returns for a table with these column names. */
  function HeaderVerdict(names: seq<string>, category: string, headers: map<string, seq<string>>): Verdict
  {
    var expected := ExpectedHeaders(category, headers);
    if expected == [] then Verdict(false, NoHeadersMessage)
    else
      var missing := MissingHeaders(expected, NormalizedHeaders(names), |expected|);
      if missing == [] then Passed
      else Verdict(false, MissingColumnsHeading + Concat(MissingHeaderLines(missing)))
  }

  /** The position of the item with key `key` in a dict's item list, from `from`. */
  function KeyPosition(d: seq<(string, string)>, key: string, from: nat): (r: Option<nat>)
    requires from <= |d|
    ensures r.Some? ==> from <= r.value < |d| && d[r.value].0 == key &&
                        forall i :: from <= i < r.value ==> d[i].0 != key
    ensures r.None? ==> forall i :: from <= i < |d| ==> d[i].0 != key
    decreases |d| - from
  {
    if from == |d| then None
    else if d[from].0 == key then Some(from)
    else KeyPosition(d, key, from + 1)
  }

  /** No key occurs twice in a dict's item list. */
  predicate DistinctKeys(d: seq<(string, string)>)
  {
    forall i, j :: 0 <= i < j < |d| ==> d[i].0 != d[j].0
  }

  /** `d[key] = value` on an insertion-ordered dict held as its item list:
      an existing key keeps its place and takes the new value, every other
      item staying as it was; a new key is appended. */
  function DictPut(d: seq<(string, string)>, key: string, value: string): (r: seq<(string, string)>)
    ensures (forall i :: 0 <= i < |d| ==> d[i].0 != key) ==> r == d + [(key, value)]
    ensures forall i :: 0 <= i < |d| && d[i].0 == key && (forall j :: 0 <= j < i ==> d[j].0 != key) ==>
              r == d[i := (key, value)]
    ensures DistinctKeys(d) ==> forall i :: 0 <= i < |d| && d[i].0 == key ==> r == d[i := (key, value)]
    ensures DistinctKeys(d) ==> DistinctKeys(r)
  {
    match KeyPosition(d, key, 0)
    case Some(i) => d[i := (key, value)]
    case None => d + [(key, value)]
  }

  /** One more expected header: the absent one is appended to the dict under a
      letter no earlier item has, since letters of distinct positions differ. */
  lemma MissingHeadersStep(expected: seq<string>, xls: seq<string>, k: nat)
    requires k < |expected|
    ensures MissingHeaders(expected, xls, k + 1) ==
            if Absent(expected, xls, k)
            then DictPut(MissingHeaders(expected, xls, k), ColumnLetter(k + 1), expected[k])
            else MissingHeaders(expected, xls, k)
  {
    var m := MissingHeaders(expected, xls, k);
    if Absent(expected, xls, k) {
      MissingHeadersSound(expected, xls, k);
      IndexOfLetter(k + 1);
      forall i | 0 <= i < |m|
        ensures m[i].0 != ColumnLetter(k + 1)
      {
        assert Reports(expected, xls, k, m[i]);
      }
    }
  }

  /** `check_correct_header(df, category, correct_headers)` */
  method CheckCorrectHeader(t: Table, category: string, correctHeaders: map<string, seq<string>>)
    returns (v: Verdict)
    ensures v == HeaderVerdict(Names(t), category, correctHeaders)
  {
    var expected := if category in correctHeaders then correctHeaders[category] else [];
    if expected == [] {
      return Verdict(false, NoHeadersMessage);
    }
    var xls := NormalizedHeaders(Names(t));
    var missing: seq<(string, string)> := [];
    for i := 0 to |expected|
      invariant missing == MissingHeaders(expected, xls, i)
    {
      MissingHeadersStep(expected, xls, i);
      if Lower(expected[i]) !in xls {
        missing := DictPut(missing, ColumnLetter(i + 1), expected[i]);
      }
    }
    if missing != [] {
      return Verdict(false, MissingColumnsHeading + Concat(MissingHeaderLines(missing)));
    }
    return Passed;
  }

  /** An expected header is reported, under the letter of its 1-based
      position, exactly when its lower-cased form is not among the table's
      normalised headers. */
  lemma MissingHeaderReportedIff(expected: seq<string>, xls: seq<string>, j: nat)
    requires j < |expected|
    ensures (ColumnLetter(j + 1), expected[j]) in MissingHeaders(expected, xls, |expected|) <==>
            Lower(expected[j]) !in xls
  {
    var m := MissingHeaders(expected, xls, |expected|);
    if (ColumnLetter(j + 1), expected[j]) in m {
      MissingHeadersSound(expected, xls, |expected|);
      var i :| 0 <= i < |m| && m[i] == (ColumnLetter(j + 1), expected[j]);
      IndexOfLetter(j + 1);
    }
    if Absent(expected, xls, j) {
      MissingHeadersComplete(expected, xls, |expected|, j);
    }
  }

  /** The item is an absent expected header under the letter of its own
      1-based position. */
  predicate NamesAbsentHeader(expected: seq<string>, xls: seq<string>, item: (string, string))
  {
    exists j :: 0 <= j < |expected| && Lower(expected[j]) !in xls && item == (ColumnLetter(j + 1), expected[j])
  }

  /** Nothing but expected headers is reported, each under the letter of its
      own position, and no letter is used twice. */
  lemma MissingHeadersOnlyExpected(expected: seq<string>, xls: seq<string>)
    ensures forall i :: 0 <= i < |MissingHeaders(expected, xls, |expected|)| ==>
              NamesAbsentHeader(expected, xls, MissingHeaders(expected, xls, |expected|)[i])
    ensures forall i, i' :: 0 <= i < i' < |MissingHeaders(expected, xls, |expected|)| ==>
              MissingHeaders(expected, xls, |expected|)[i].0 != MissingHeaders(expected, xls, |expected|)[i'].0
  {
    var m := MissingHeaders(expected, xls, |expected|);
    MissingHeadersSound(expected, xls, |expected|);
    forall i | 0 <= i < |m|
      ensures NamesAbsentHeader(expected, xls, m[i])
    {
      assert Reports(expected, xls, |expected|, m[i]);
      var j := ColumnIndex(m[i].0) - 1;
      LetterOfIndex(m[i].0);
      assert Absent(expected, xls, j) && m[i] == (ColumnLetter(j + 1), expected[j]);
    }
    forall i, i' | 0 <= i < i' < |m|
      ensures m[i].0 != m[i'].0
    {
      assert ColumnIndex(m[i].0) < ColumnIndex(m[i'].0);
    }
  }

  /** The header check passes exactly when headers are configured for the
      category and every one of them, lower-cased, is among the table's
      stripped and lower-cased headers. */
  lemma HeaderPassesIff(names: seq<string>, category: string, headers: map<string, seq<string>>)
    ensures var expected := ExpectedHeaders(category, headers);
            HeaderVerdict(names, category, headers).ok <==>
              expected != [] &&
              forall j :: 0 <= j < |expected| ==> Lower(expected[j]) in NormalizedHeaders(names)
    ensures HeaderVerdict(names, category, headers).ok ==> HeaderVerdict(names, category, headers).msg == ""
  {
    var expected := ExpectedHeaders(category, headers);
    if expected != [] {
      var xls := NormalizedHeaders(names);
      var m := MissingHeaders(expected, xls, |expected|);
      MissingHeadersSound(expected, xls, |expected|);
      if m != [] {
        assert Reports(expected, xls, |expected|, m[0]);
      }
      if exists j :: 0 <= j < |expected| && Lower(expected[j]) !in xls {
        var j :| 0 <= j < |expected| && Lower(expected[j]) !in xls;
        MissingHeadersComplete(expected, xls, |expected|, j);
      }
    }
  }

  /** Without configured headers the check fails with the fixed message,
      whatever the table. */
  lemma HeaderWithoutRules(names: seq<string>, category: string, headers: map<string, seq<string>>)
    requires category !in headers || headers[category] == []
    ensures HeaderVerdict(names, category, headers) == Verdict(false, NoHeadersMessage)
  {
  }

  /** The report depends on the table's headers only through which
      normalised names occur. */
  lemma {:induction false} MissingHeadersBySet(expected: seq<string>, xls1: seq<string>, xls2: seq<string>, k: nat)
    requires k <= |expected|
    requires forall h :: h in xls1 <==> h in xls2
    ensures MissingHeaders(expected, xls1, k) == MissingHeaders(expected, xls2, k)
  {
    if k > 0 {
      MissingHeadersBySet(expected, xls1, xls2, k - 1);
    }
  }

  /** Column order and extra columns do not matter: two tables whose
      normalised headers form the same set get the same header verdict. */
  lemma HeaderIgnoresOrder(names1: seq<string>, names2: seq<string>, category: string, headers: map<string, seq<string>>)
    requires forall h :: h in NormalizedHeaders(names1) <==> h in NormalizedHeaders(names2)
    ensures HeaderVerdict(names1, category, headers) == HeaderVerdict(names2, category, headers)
  {
    var expected := ExpectedHeaders(category, headers);
    MissingHeadersBySet(expected, NormalizedHeaders(names1), NormalizedHeaders(names2), |expected|);
  }

  // ---------------------------------------------------------------------
  // Merged-cell check

  /** `check_merged_cells`, given whether the active sheet has merged regions. */
  function CheckMergedCells(hasMergedCells: bool): (v: Verdict)
    ensures v.ok <==> !hasMergedCells
    ensures v.ok ==> v.msg == ""
    ensures !v.ok ==> v.msg == MergedCellsMessage
  {
    if hasMergedCells then Verdict(false, MergedCellsMessage) else Passed
  }

  // ---------------------------------------------------------------------
  // Missing-value check

  /** `series.isna().any()` */
  predicate AnyNull(col: Column)
  {
    exists i :: 0 <= i < |col.cells| && col.cells[i] == Null
  }

  /** `(series == "-").any()` */
  predicate AnyDash(col: Column)
  {
    exists i :: 0 <= i < |col.cells| && col.cells[i] == Str("-")
  }

  /** The table has a column called `name` holding a null or a "-" cell. */
  predicate HasMissingValue(t: Table, name: string)
  {
    match Get(t, name)
    case Ok(col) => AnyNull(col) || AnyDash(col)
    case Err(_) => false
  }

  /** The columns to inspect: the category's policy, or every table column
      when the policy is absent or empty. */
  function ColumnsToCheck(t: Table, category: string, policy: map<string, seq<string>>): (r: seq<string>)
    ensures category in policy && policy[category] != [] ==> r == policy[category]
    ensures !(category in policy && policy[category] != []) ==> r == Names(t)
  {
    if category in policy && policy[category] != [] then policy[category] else Names(t)
  }

  /** The columns among the first `k` to inspect that hold a missing value,
      in inspection order (repeated as often as they are listed). */
  function Flagged(t: Table, toCheck: seq<string>, k: nat): (r: seq<string>)
    requires k <= |toCheck|
  {
    if k == 0 then []
    else
      var name := toCheck[k - 1];
      Flagged(t, toCheck, k - 1) + (if HasMissingValue(t, name) then [name] else [])
  }

  /** `f"<b>{counter}</b>. <code>{column}</code>"` */
  function NumberedLine(n: int, name: string): string
  {
    "<b>" + IntToString(n) + "</b>. <code>" + name + "</code>"
  }

  /** The defect lines for `names`, numbered from 1 in order. */
  function NumberedLines(names: seq<string>): (r: seq<string>)
    ensures |r| == |names|
    ensures forall i :: 0 <= i < |names| ==> r[i] == NumberedLine(i + 1, names[i])
  {
    seq(|names|, i requires 0 <= i < |names| => NumberedLine(i + 1, names[i]))
  }

  /** One more flagged column adds one line, numbered after the others. */
  lemma NumberedLinesAppend(names: seq<string>, name: string)
    ensures NumberedLines(names + [name]) == NumberedLines(names) + [NumberedLine(|names| + 1, name)]
  {
  }

  /** What `check_missing_cells` returns. */
  function MissingVerdict(t: Table, category: string, policy: map<string, seq<string>>): Verdict
  {
    var toCheck := ColumnsToCheck(t, category, policy);
    var flagged := Flagged(t, toCheck, |toCheck|);
    if flagged == [] then Passed
    else Verdict(false, MissingValuesHeading + Join(NumberedLines(flagged), "\n"))
  }

  /** `check_missing_cells(df, category, check_columns)` */
  method CheckMissingCells(t: Table, category: string, checkColumns: map<string, seq<string>>)
    returns (v: Verdict)
    ensures v == MissingVerdict(t, category, checkColumns)
  {
    var columnsToCheck := if category in checkColumns then checkColumns[category] else [];
    if columnsToCheck == [] {
      columnsToCheck := Names(t);
    }
    var badColumns: seq<string> := [];
    var counter := 0;
    for k := 0 to |columnsToCheck|
      invariant counter == |Flagged(t, columnsToCheck, k)|
      invariant badColumns == NumberedLines(Flagged(t, columnsToCheck, k))
    {
      var column := columnsToCheck[k];
      ghost var flagged := Flagged(t, columnsToCheck, k);
      assert Flagged(t, columnsToCheck, k + 1) ==
             flagged + (if HasMissingValue(t, column) then [column] else []);
      if column in Names(t) {
        var series := Get(t, column).value;
        if (AnyNull(series) || AnyDash(series)) && column in columnsToCheck {
          NumberedLinesAppend(flagged, column);
          counter := counter + 1;
          badColumns := badColumns + [NumberedLine(counter, column)];
        }
      }
    }
    if badColumns != [] {
      return Verdict(false, MissingValuesHeading + Join(badColumns, "\n"));
    }
    return Passed;
  }

  /** One more inspected column keeps the count of `name` among the flagged
      columns in step with its count among the inspected ones. */
  lemma FlaggedCountStep(flagged: seq<string>, inspected: seq<string>, last: string,
                         lastMissing: bool, nameMissing: bool, name: string)
    requires multiset(flagged)[name] == if nameMissing then multiset(inspected)[name] else 0
    requires last == name ==> lastMissing == nameMissing
    ensures multiset(flagged + (if lastMissing then [last] else []))[name] ==
            if nameMissing then multiset(inspected + [last])[name] else 0
  {
    assert multiset(inspected + [last]) == multiset(inspected) + multiset{last};
    if lastMissing {
      assert multiset(flagged + [last]) == multiset(flagged) + multiset{last};
    } else {
      assert flagged + [] == flagged;
    }
  }

  /** A name is flagged exactly as often as it is listed for inspection when
      the table has it with a missing value, and never otherwise. */
  lemma {:induction false} FlaggedCount(t: Table, toCheck: seq<string>, k: nat, name: string)
    requires k <= |toCheck|
    ensures multiset(Flagged(t, toCheck, k))[name] ==
            if HasMissingValue(t, name) then multiset(toCheck[..k])[name] else 0
  {
    if k > 0 {
      FlaggedCount(t, toCheck, k - 1, name);
      var last := toCheck[k - 1];
      assert toCheck[..k] == toCheck[..k - 1] + [last];
      FlaggedCountStep(Flagged(t, toCheck, k - 1), toCheck[..k - 1], last,
                       HasMissingValue(t, last), HasMissingValue(t, name), name);
    }
  }

  /** The missing-value check flags a column exactly when it is to be
      inspected (listed in the policy, or the policy is empty and it is a
      table column), the table has it, and it holds a null or a "-"; a column
      listed once is reported once. */
  lemma MissingFlagsIff(t: Table, category: string, policy: map<string, seq<string>>, name: string)
    ensures var toCheck := ColumnsToCheck(t, category, policy);
            var flagged := Flagged(t, toCheck, |toCheck|);
            (name in flagged <==>
               (if category in policy && policy[category] != [] then name in policy[category] else name in Names(t)) &&
               name in Names(t) &&
               HasMissingValue(t, name)) &&
            (HasMissingValue(t, name) ==> multiset(flagged)[name] == multiset(toCheck)[name])
  {
    var toCheck := ColumnsToCheck(t, category, policy);
    FlaggedCount(t, toCheck, |toCheck|, name);
    assert toCheck[..|toCheck|] == toCheck;
  }

  /** Nothing is flagged exactly when no inspected column holds a missing value. */
  lemma FlaggedEmptyIff(t: Table, toCheck: seq<string>)
    ensures Flagged(t, toCheck, |toCheck|) == [] <==> forall n :: n in toCheck ==> !HasMissingValue(t, n)
  {
    var flagged := Flagged(t, toCheck, |toCheck|);
    assert toCheck[..|toCheck|] == toCheck;
    if flagged == [] {
      forall n | n in toCheck
        ensures !HasMissingValue(t, n)
      {
        FlaggedCount(t, toCheck, |toCheck|, n);
        assert multiset(toCheck)[n] > 0;
      }
    } else {
      var n := flagged[0];
      FlaggedCount(t, toCheck, |toCheck|, n);
      assert multiset(flagged)[n] > 0;
      assert n in toCheck && HasMissingValue(t, n);
    }
  }

  /** The missing-values check passes, with an empty message, exactly when no
      column to inspect holds a null or a "-"; a failure's message opens with
      the missing-values heading. */
  lemma MissingPassesIff(t: Table, category: string, policy: map<string, seq<string>>)
    ensures var v := MissingVerdict(t, category, policy);
            (v.ok <==> forall n :: n in ColumnsToCheck(t, category, policy) ==> !HasMissingValue(t, n)) &&
            (v.ok ==> v.msg == "") &&
            (!v.ok ==> MissingValuesHeading <= v.msg)
  {
    FlaggedEmptyIff(t, ColumnsToCheck(t, category, policy));
  }

  // ---------------------------------------------------------------------
  // Type-conformance check

  /** A column of dtype `d` conforms to its declared type: the same dtype, or a
      family constant whose family `d` belongs to. */
  predicate Conforms(d: DType, declared: DeclaredType)
  {
    declared == Named(d) ||
    (declared == DATETIME && IsDatetimeLike(d)) ||
    (declared == OBJECT && IsObjectDtype(d)) ||
    (declared == NUMERIC && IsNumericDtype(d))
  }

  /** The names of the non-conforming columns among the first `k`, in column
      order, or the KeyError of the first column the type map does not declare. */
  function TypeDefects(cols: seq<Column>, types: map<string, DeclaredType>, k: nat): (r: Result<seq<string>>)
    requires k <= |cols|
  {
    if k == 0 then Ok([])
    else
      match TypeDefects(cols, types, k - 1)
      case Err(e) => Err(e)
      case Ok(bad) =>
        var c := cols[k - 1];
        if c.name !in types then Err(KeyError(c.name))
        else if Conforms(c.dtype, types[c.name]) then Ok(bad)
        else Ok(bad + [c.name])
  }

  /** The type map configured for `category` (`.get(category, [])`). */
  function DeclaredTypes(category: string, types: map<string, map<string, DeclaredType>>): map<string, DeclaredType>
  {
    if category in types then types[category] else map[]
  }

  /** What `check_data_types` returns, or the KeyError it raises. */
  function TypesOutcome(t: Table, category: string, types: map<string, map<string, DeclaredType>>): Outcome
  {
    var declared := DeclaredTypes(category, types);
    if |declared| == 0 then Returned(Verdict(false, NoTypesMessage))
    else
      match TypeDefects(t.columns, declared, |t.columns|)
      case Err(e) => Raised(e)
      case Ok(bad) =>
        if bad == [] then Returned(Passed)
        else Returned(Verdict(false, WrongTypesHeading + Join(NumberedLines(bad), "\n")))
  }

  /** `check_data_types(df, category, column_types)` */
  method CheckDataTypes(t: Table, category: string, columnTypes: map<string, map<string, DeclaredType>>)
    returns (o: Outcome)
    ensures o == TypesOutcome(t, category, columnTypes)
  {
    var dataTypes := if category in columnTypes then columnTypes[category] else map[];
    if |dataTypes| == 0 {
      return Returned(Verdict(false, NoTypesMessage));
    }
    var badColumns: seq<string> := [];
    var counter := 0;
    for j := 0 to |t.columns|
      invariant TypeDefects(t.columns, dataTypes, j).Ok?
      invariant counter == |TypeDefects(t.columns, dataTypes, j).value|
      invariant badColumns == NumberedLines(TypeDefects(t.columns, dataTypes, j).value)
    {
      var column := t.columns[j];
      if column.name !in dataTypes {
        assert TypeDefects(t.columns, dataTypes, j + 1) == Err(KeyError(column.name));
        TypeDefectsStaysRaised(t.columns, dataTypes, j + 1, |t.columns|);
        return Raised(KeyError(column.name));
      }
      if !Conforms(column.dtype, dataTypes[column.name]) {
        counter := counter + 1;
        badColumns := badColumns + [NumberedLine(counter, column.name)];
      }
    }
    if badColumns != [] {
      return Returned(Verdict(false, WrongTypesHeading + Join(badColumns, "\n")));
    }
    return Returned(Passed);
  }

  /** Once a KeyError is raised, later columns are not looked at. */
  lemma {:induction false} TypeDefectsStaysRaised(cols: seq<Column>, types: map<string, DeclaredType>, k: nat, n: nat)
    requires k <= n <= |cols| && TypeDefects(cols, types, k).Err?
    ensures TypeDefects(cols, types, n) == TypeDefects(cols, types, k)
    decreases n - k
  {
    if k < n {
      TypeDefectsStaysRaised(cols, types, k, n - 1);
    }
  }

  /** `name` is one of the first `k` columns, declared, and not conforming. */
  predicate Misfit(cols: seq<Column>, types: map<string, DeclaredType>, k: nat, name: string)
    requires k <= |cols|
  {
    exists j :: 0 <= j < k && name == cols[j].name && cols[j].name in types &&
                !Conforms(cols[j].dtype, types[cols[j].name])
  }

  /** The type scan raises exactly when some column is undeclared, naming the
      first such column; otherwise it lists, in column order, exactly the
      columns that do not conform. */
  lemma {:induction false} TypeDefectsMeaning(cols: seq<Column>, types: map<string, DeclaredType>, k: nat)
    requires k <= |cols|
    ensures TypeDefects(cols, types, k).Err? <==> exists j :: 0 <= j < k && cols[j].name !in types
    ensures TypeDefects(cols, types, k).Err? ==>
              exists j :: 0 <= j < k && TypeDefects(cols, types, k).error == KeyError(cols[j].name) &&
                          cols[j].name !in types &&
                          forall i :: 0 <= i < j ==> cols[i].name in types
    ensures TypeDefects(cols, types, k).Ok? ==>
              var bad := TypeDefects(cols, types, k).value;
              (forall i :: 0 <= i < |bad| ==> Misfit(cols, types, k, bad[i])) &&
              (forall j :: 0 <= j < k && !Conforms(cols[j].dtype, types[cols[j].name]) ==> cols[j].name in bad)
  {
    if k > 0 {
      TypeDefectsMeaning(cols, types, k - 1);
      match TypeDefects(cols, types, k - 1)
      case Err(e) =>
      case Ok(bad) =>
        var c := cols[k - 1];
        if c.name in types {
          var r := if Conforms(c.dtype, types[c.name]) then bad else bad + [c.name];
          assert TypeDefects(cols, types, k) == Ok(r);
          forall i | 0 <= i < |r|
            ensures Misfit(cols, types, k, r[i])
          {
            if i < |bad| {
              assert r[i] == bad[i] && Misfit(cols, types, k - 1, bad[i]);
              var j :| 0 <= j < k - 1 && bad[i] == cols[j].name && cols[j].name in types &&
                       !Conforms(cols[j].dtype, types[cols[j].name]);
            } else {
              assert r[i] == cols[k - 1].name;
            }
          }
        }
    }
  }

  /** `p` holds, in increasing order, the positions among the first `k`
      columns of the names listed in `names`, and these are exactly the
      declared columns that do not conform. */
  predicate MisfitPositions(cols: seq<Column>, types: map<string, DeclaredType>, k: nat,
                            names: seq<string>, p: seq<nat>)
    requires k <= |cols|
  {
    |p| == |names| &&
    (forall i :: 0 <= i < |p| ==>
       p[i] < k && names[i] == cols[p[i]].name && cols[p[i]].name in types &&
       !Conforms(cols[p[i]].dtype, types[cols[p[i]].name])) &&
    (forall i, i' :: 0 <= i < i' < |p| ==> p[i] < p[i']) &&
    (forall j :: 0 <= j < k && cols[j].name in types && !Conforms(cols[j].dtype, types[cols[j].name]) ==> j in p)
  }

  /** One more declared column keeps the positions of the listed names exact. */
  lemma MisfitPositionsStep(cols: seq<Column>, types: map<string, DeclaredType>, k: nat,
                            bad: seq<string>, p: seq<nat>)
    requires 0 < k <= |cols| && cols[k - 1].name in types
    requires MisfitPositions(cols, types, k - 1, bad, p)
    ensures var c := cols[k - 1];
            if Conforms(c.dtype, types[c.name]) then MisfitPositions(cols, types, k, bad, p)
            else MisfitPositions(cols, types, k, bad + [c.name], p + [k - 1])
  {
    var c := cols[k - 1];
    if !Conforms(c.dtype, types[c.name]) {
      var q, names := p + [k - 1], bad + [c.name];
      forall i | 0 <= i < |q|
        ensures q[i] < k && names[i] == cols[q[i]].name && cols[q[i]].name in types &&
                !Conforms(cols[q[i]].dtype, types[cols[q[i]].name])
      {
        if i < |p| {
          assert q[i] == p[i] && names[i] == bad[i];
        }
      }
      forall i, i' | 0 <= i < i' < |q|
        ensures q[i] < q[i']
      {
        if i' == |p| {
          assert q[i] == p[i];
        }
      }
      forall j | 0 <= j < k && cols[j].name in types && !Conforms(cols[j].dtype, types[cols[j].name])
        ensures j in q
      {
        if j < k - 1 {
          var i :| 0 <= i < |p| && p[i] == j;
          assert q[i] == j;
        } else {
          assert q[|p|] == j;
        }
      }
    }
  }

  /** Without a KeyError, the type scan lists exactly the declared columns
      that do not conform, each once, in table order. */
  lemma {:induction false} TypeDefectsInOrder(cols: seq<Column>, types: map<string, DeclaredType>, k: nat)
    requires k <= |cols|
    ensures TypeDefects(cols, types, k).Ok? ==>
              exists p :: MisfitPositions(cols, types, k, TypeDefects(cols, types, k).value, p)
  {
    if k == 0 {
      assert MisfitPositions(cols, types, 0, [], []);
    } else {
      TypeDefectsInOrder(cols, types, k - 1);
      var c := cols[k - 1];
      if TypeDefects(cols, types, k - 1).Ok? && c.name in types {
        var bad := TypeDefects(cols, types, k - 1).value;
        var p: seq<nat> :| MisfitPositions(cols, types, k - 1, bad, p);
        MisfitPositionsStep(cols, types, k, bad, p);
        if Conforms(c.dtype, types[c.name]) {
          assert TypeDefects(cols, types, k) == Ok(bad);
        } else {
          var q: seq<nat> := p + [k - 1];
          assert TypeDefects(cols, types, k) == Ok(bad + [c.name]);
          assert MisfitPositions(cols, types, k, bad + [c.name], q);
        }
      }
    }
  }

  /** The type check raises exactly when a declared type map exists and some
      column is missing from it; it passes exactly when a type map exists and
      every column is declared and conforms; a positive verdict is always the
      empty pass. */
  lemma TypesPassIff(t: Table, category: string, types: map<string, map<string, DeclaredType>>)
    ensures var declared := DeclaredTypes(category, types);
            var o := TypesOutcome(t, category, types);
            (o.Raised? <==> |declared| > 0 && exists j :: 0 <= j < |t.columns| && t.columns[j].name !in declared) &&
            (o == Returned(Passed) <==>
               |declared| > 0 &&
               forall j :: 0 <= j < |t.columns| ==>
                 t.columns[j].name in declared && Conforms(t.columns[j].dtype, declared[t.columns[j].name])) &&
            (o.Returned? && o.verdict.ok ==> o == Returned(Passed))
  {
    var declared := DeclaredTypes(category, types);
    var cols := t.columns;
    TypeDefectsMeaning(cols, declared, |cols|);
    if |declared| > 0 && TypeDefects(cols, declared, |cols|).Ok? {
      var bad := TypeDefects(cols, declared, |cols|).value;
      if bad != [] {
        assert Misfit(cols, declared, |cols|, bad[0]);
      }
    }
  }

  // ---------------------------------------------------------------------
  // The chain

  /** The check at position `idx` of the fixed list: header, merged cells,
      missing values, types. */
  function CheckOutcome(idx: nat, t: Table, hasMergedCells: bool, category: string, rules: Rules): Outcome
    requires idx < 4
  {
    if idx == 0 then Returned(HeaderVerdict(Names(t), category, rules.headers))
    else if idx == 1 then Returned(CheckMergedCells(hasMergedCells))
    else if idx == 2 then Returned(MissingVerdict(t, category, rules.nullChecked))
    else TypesOutcome(t, category, rules.types)
  }

  /** The messages of the failing verdicts, in order. */
  function FailingMessages(vs: seq<Verdict>): (r: seq<string>)
    ensures |r| <= |vs|
  {
    if vs == [] then []
    else FailingMessages(vs[..|vs| - 1]) + FailureOf(vs[|vs| - 1])
  }

  /** The message a verdict contributes to the report: none when it passes. */
  function FailureOf(v: Verdict): (r: seq<string>)
    ensures v.ok <==> r == []
  {
    if v.ok then [] else [v.msg]
  }

  /** One more verdict adds its own contribution at the end. */
  lemma FailingMessagesSnoc(vs: seq<Verdict>, v: Verdict)
    ensures FailingMessages(vs + [v]) == FailingMessages(vs) + FailureOf(v)
  {
    assert (vs + [v])[..|vs|] == vs;
  }

  /** The final report: the heading, then the collected messages one per line. */
  function Report(errors: seq<string>): string
  {
    ReportHeading + Join(errors, "\n")
  }

  /** The messages the driver collects from the results of the four checks,
      or the exception that escapes: a failing header is reported alone, and
      otherwise every failing check contributes its message, in order. */
  function Collected(header: Verdict, merged: Verdict, missing: Verdict, types: Outcome): Result<seq<string>>
  {
    if !header.ok then Ok([header.msg])
    else if types.Raised? then Err(types.error)
    else Ok(FailingMessages([header, merged, missing, types.verdict]))
  }

  /** The driver's return value for what it collected. */
  function Final(c: Result<seq<string>>): Outcome
  {
    match c
    case Err(e) => Raised(e)
    case Ok(errors) => if errors == [] then Returned(Passed) else Returned(Verdict(false, Report(errors)))
  }

  /** How the driver combines the results of the four checks. */
  function ChainOutcome(header: Verdict, merged: Verdict, missing: Verdict, types: Outcome): Outcome
  {
    Final(Collected(header, merged, missing, types))
  }

  /** What the rest of the driver loop collects over the check outcomes
      `outs` from position `idx`, with the messages `errors` collected so far:
      a raised exception escapes, a failure of the first check ends the loop
      at once, and any other failure adds its message. */
  function CollectFrom(outs: seq<Outcome>, idx: nat, errors: seq<string>): Result<seq<string>>
    requires idx <= |outs|
    decreases |outs| - idx
  {
    if idx == |outs| then Ok(errors)
    else
      match outs[idx]
      case Raised(e) => Err(e)
      case Returned(v) =>
        if v.ok then CollectFrom(outs, idx + 1, errors)
        else if idx == 0 then Ok(errors + [v.msg])
        else CollectFrom(outs, idx + 1, errors + [v.msg])
  }

  /** A later check that returns a verdict adds its contribution and moves on. */
  lemma CollectStep(outs: seq<Outcome>, idx: nat, errors: seq<string>)
    requires 0 < idx < |outs| && outs[idx].Returned?
    ensures CollectFrom(outs, idx, errors) == CollectFrom(outs, idx + 1, errors + FailureOf(outs[idx].verdict))
  {
    if outs[idx].verdict.ok {
      assert errors + [] == errors;
    }
  }

  /** Running the loop over four outcomes, the first three of them verdicts,
      from the start collects what `Collected` says. */
  lemma CollectFromStart(outs: seq<Outcome>)
    requires |outs| == 4 && outs[0].Returned? && outs[1].Returned? && outs[2].Returned?
    ensures CollectFrom(outs, 0, []) == Collected(outs[0].verdict, outs[1].verdict, outs[2].verdict, outs[3])
  {
    var header, merged, missing := outs[0].verdict, outs[1].verdict, outs[2].verdict;
    if header.ok {
      assert CollectFrom(outs, 0, []) == CollectFrom(outs, 1, []);
      assert FailingMessages([header]) == [] by {
        FailingMessagesSnoc([], header);
        assert [] + [header] == [header];
      }
      CollectStep(outs, 1, []);
      FailingMessagesSnoc([header], merged);
      assert [header] + [merged] == [header, merged];
      CollectStep(outs, 2, FailingMessages([header, merged]));
      FailingMessagesSnoc([header, merged], missing);
      assert [header, merged] + [missing] == [header, merged, missing];
      if outs[3].Returned? {
        CollectStep(outs, 3, FailingMessages([header, merged, missing]));
        FailingMessagesSnoc([header, merged, missing], outs[3].verdict);
        assert [header, merged, missing] + [outs[3].verdict] == [header, merged, missing, outs[3].verdict];
      }
    } else {
      assert [] + [header.msg] == [header.msg];
    }
  }

  /** What `check_document_by_category` returns for a parsed table. */
  function DocumentOutcome(t: Table, hasMergedCells: bool, category: string, rules: Rules): Outcome
  {
    ChainOutcome(CheckOutcome(0, t, hasMergedCells, category, rules).verdict,
                 CheckOutcome(1, t, hasMergedCells, category, rules).verdict,
                 CheckOutcome(2, t, hasMergedCells, category, rules).verdict,
                 CheckOutcome(3, t, hasMergedCells, category, rules))
  }

  /** `check_fn(*args)` for the check at position `idx`. */
  method RunCheck(idx: nat, t: Table, hasMergedCells: bool, category: string, rules: Rules)
    returns (o: Outcome)
    requires idx < 4
    ensures o == CheckOutcome(idx, t, hasMergedCells, category, rules)
  {
    if idx == 0 {
      var v := CheckCorrectHeader(t, category, rules.headers);
      o := Returned(v);
    } else if idx == 1 {
      o := Returned(CheckMergedCells(hasMergedCells));
    } else if idx == 2 {
      var v := CheckMissingCells(t, category, rules.nullChecked);
      o := Returned(v);
    } else {
      o := CheckDataTypes(t, category, rules.types);
    }
  }

  /** The `for` loop of `check_document_by_category`: runs the checks in
      order and collects the messages of the failing ones, stopping after a
      failing header check; an exception raised by a check escapes as `Err`. */
  method CollectErrors(t: Table, hasMergedCells: bool, category: string, rules: Rules)
    returns (r: Result<seq<string>>)
    ensures r == Collected(CheckOutcome(0, t, hasMergedCells, category, rules).verdict,
                           CheckOutcome(1, t, hasMergedCells, category, rules).verdict,
                           CheckOutcome(2, t, hasMergedCells, category, rules).verdict,
                           CheckOutcome(3, t, hasMergedCells, category, rules))
  {
    ghost var outs := [CheckOutcome(0, t, hasMergedCells, category, rules),
                       CheckOutcome(1, t, hasMergedCells, category, rules),
                       CheckOutcome(2, t, hasMergedCells, category, rules),
                       CheckOutcome(3, t, hasMergedCells, category, rules)];
    CollectFromStart(outs);
    var errors: seq<string> := [];
    var idx := 0;
    while idx < 4
      invariant idx <= 4
      invariant CollectFrom(outs, idx, errors) == CollectFrom(outs, 0, [])
    {
      var outcome := RunCheck(idx, t, hasMergedCells, category, rules);
      assert outcome == outs[idx];
      if outcome.Raised? {
        return Err(outcome.error);
      }
      var isValid, errorMsg := outcome.verdict.ok, outcome.verdict.msg;
      if !isValid {
        if idx == 0 {
          errors := errors + [errorMsg];
          break;
        }
        errors := errors + [errorMsg];
      }
      idx := idx + 1;
    }
    return Ok(errors);
  }

  /** `check_document_by_category(file_bytes, category)` after `pd.read_excel`:
      the table and whether the sheet has merged cells are given. */
  method CheckDocumentByCategory(t: Table, hasMergedCells: bool, category: string, rules: Rules)
    returns (o: Outcome)
    ensures o == DocumentOutcome(t, hasMergedCells, category, rules)
  {
    var collected := CollectErrors(t, hasMergedCells, category, rules);
    if collected.Err? {
      return Raised(collected.error);
    }
    var errors := collected.value;
    if errors != [] {
      return Returned(Verdict(false, ReportHeading + Join(errors, "\n")));
    }
    return Returned(Passed);
  }

  /** A header failure is the only error reported: no later check runs or
      contributes, and nothing is raised. */
  lemma HeaderFailureStopsChain(t: Table, hasMergedCells: bool, category: string, rules: Rules)
    requires !HeaderVerdict(Names(t), category, rules.headers).ok
    ensures DocumentOutcome(t, hasMergedCells, category, rules) ==
            Returned(Verdict(false, ReportHeading + HeaderVerdict(Names(t), category, rules.headers).msg))
  {
  }

  /** With a passing header check, each failing check among merged cells,
      missing values and types contributes its message, in that order; the
      result passes exactly when none fails, with an empty message. */
  lemma ChainCollects(header: Verdict, merged: Verdict, missing: Verdict, types: Verdict)
    requires header.ok
    ensures var errors := (if merged.ok then [] else [merged.msg]) +
                          (if missing.ok then [] else [missing.msg]) +
                          (if types.ok then [] else [types.msg]);
            ChainOutcome(header, merged, missing, Returned(types)) ==
              if errors == [] then Returned(Verdict(true, ""))
              else Returned(Verdict(false, ReportHeading + Join(errors, "\n")))
  {
    FailingMessagesSnoc([], header);
    assert [] + [header] == [header];
    FailingMessagesSnoc([header], merged);
    assert [header] + [merged] == [header, merged];
    FailingMessagesSnoc([header, merged], missing);
    assert [header, merged] + [missing] == [header, merged, missing];
    FailingMessagesSnoc([header, merged, missing], types);
    assert [header, merged, missing] + [types] == [header, merged, missing, types];
    var errors := FailingMessages([header, merged, missing, types]);
    assert errors == FailureOf(merged) + FailureOf(missing) + FailureOf(types) by {
      assert FailingMessages([]) == [] && FailureOf(header) == [];
    }
    assert ChainOutcome(header, merged, missing, Returned(types)) == Final(Ok(errors));
  }

  /** The chain's verdict is positive exactly when every check passes, and
      then its message is empty. */
  lemma ChainPassesIff(header: Verdict, merged: Verdict, missing: Verdict, types: Outcome)
    requires ChainOutcome(header, merged, missing, types).Returned?
    ensures var v := ChainOutcome(header, merged, missing, types).verdict;
            (v.ok <==> header.ok && merged.ok && missing.ok && types.Returned? && types.verdict.ok) &&
            (v.ok ==> v.msg == "")
  {
    if header.ok {
      assert types == Returned(types.verdict);
      ChainCollects(header, merged, missing, types.verdict);
      var errors := FailureOf(merged) + FailureOf(missing) + FailureOf(types.verdict);
      assert errors == [] <==> merged.ok && missing.ok && types.verdict.ok;
    }
  }
}
