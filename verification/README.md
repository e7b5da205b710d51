# DocStream core, modelled in Dafny

DocStream takes Excel documents that users upload for a dashboard category. It
validates them in the upload bot and reshapes them in the processing service.
This project models three parts of that system.

- **The bot's validation chain**, in module `Checker`. There are four checks:
  - the header check: every expected header is present, after strip/lower
    normalisation, and each absent one is reported under its Excel column letter;
  - the merged-cells check;
  - the missing-values check: a null or a `"-"` in an inspected column;
  - the type-conformance check: the exact dtype or a dtype family, and an
    undeclared column raises `KeyError`.

  The driver runs the four in order. It stops after a header failure. Otherwise
  it collects every failing check's message into one report.
- **The humanitarian-aid transform and the dataset dispatch**, in module
  `Processing`. The transform runs the `processing.helpers` chain and computes:
  - the unmet quantity;
  - the year and month texts and the month names;
  - the "quantity + unit" texts;
  - the date cast.

  It then concatenates the table with its all-years, all-months and combined
  copies, and renames the columns to English.
- **The processing constants**, in module `Constants`: the English column map,
  the dashboard-name enumeration and the English table names.

Supporting modules:
- `Text` holds `str.strip`, `str.lower`, `str(int)` and `str.join`.
- `ColumnLetters` holds openpyxl's `get_column_letter` and its inverse.
- `Frames` is a small model of a pandas `DataFrame`: named columns of equal
  height, each with a dtype. It covers `df[name]`, `df[name] = …`, `copy`,
  `concat` and `rename`.

Three of the bot's four checks become methods: the header, missing-values and
data-type checks, each proved equal to a specification function. The
merged-cells check has no loop and stays a function.
Lemmas then state what the source promises about those functions:
- both directions of each pass/fail condition;
- what is reported, and in which order;
- that a `KeyError` escapes.

The transform's in-place column assignments are methods of the `DataFrame`
class. The whole transform is proved equal to `HumanitarianAidResult`. A
layered specification then states the content of every row of the result:
- `DerivedFrom` covers what the derivation guarantees;
- `CopiesOf` covers the four-fold duplication.

## Model

| member | source | states |
|---|---|---|
| Text.StripMeaning | tg-bot/utils/excel_helpers/checker.py:33 | `strip()` keeps one contiguous part of the header, removes only whitespace, and leaves no whitespace at either end |
| Text.StripLeftMeaning | tg-bot/utils/excel_helpers/checker.py:33 | the left strip removes exactly the leading whitespace |
| Text.StripRightMeaning | tg-bot/utils/excel_helpers/checker.py:33 | the right strip removes exactly the trailing whitespace |
| Text.LowerAt | tg-bot/utils/excel_helpers/checker.py:33 | `lower()` maps every character through the per-character lower-casing |
| Text.NatToStringRoundTrip | processor-service/processing/processing_funcs.py:61-62 | reading back the decimal digits written by `str(n)` gives `n` |
| Text.IntToString | processor-service/processing/processing_funcs.py:61-62 | `str(i)` is a minus sign exactly for a negative `i`, followed by decimal digits without a leading zero that read back as the absolute value of `i` |
| ColumnLetters.ColumnLetter | tg-bot/utils/excel_helpers/checker.py:38 | `get_column_letter(n)` is a non-empty upper-case letter string, one letter exactly for columns 1..26 |
| ColumnLetters.IndexOfLetter | tg-bot/utils/excel_helpers/checker.py:38 | the column index of `get_column_letter(n)` is `n` |
| ColumnLetters.LetterOfIndex | tg-bot/utils/excel_helpers/checker.py:38 | every column-letter string is `get_column_letter` of its own index |
| ColumnLetters.ColumnLetterInjective | tg-bot/utils/excel_helpers/checker.py:38 | distinct positions get distinct letters, so the `missing` dict never overwrites an entry |
| Frames.Get | processor-service/processing/processing_funcs.py:57-58 | `df[name]` succeeds exactly when the column exists, gives that column with one cell per row, and otherwise raises `KeyError(name)` |
| Frames.Assigned | processor-service/processing/processing_funcs.py:57-59 | `df[name] = cells` keeps the height; it overwrites an existing column in place, or appends a new column at the end |
| Frames.AssignedReadsBack | processor-service/processing/processing_funcs.py:57-59 | reading an assigned column gives exactly the assigned cells and dtype |
| Frames.AssignedKeepsOthers | processor-service/processing/processing_funcs.py:57-59 | an assignment leaves every other column and its position unchanged |
| Frames.AssignedNames | processor-service/processing/processing_funcs.py:88-95 | overwriting an existing column keeps the column names and their order |
| Frames.Concat2 | processor-service/processing/processing_funcs.py:97 | `pd.concat` of two tables has the sum of their heights and keeps the first table's columns in order |
| Frames.Concat2Get | processor-service/processing/processing_funcs.py:97 | when both tables have the same columns, each column of the concatenation is the first table's cells followed by the second's |
| Frames.ExtraColumnsDistinct | processor-service/processing/processing_funcs.py:97 | the columns that only the second table has keep distinct names |
| Frames.Renamed | processor-service/processing/processing_funcs.py:98-101 | `rename(columns=m)` keeps every column in place with its cells and dtype, renaming exactly the names that `m` maps |
| Frames.RenamedKeepsNamesDistinct | processor-service/processing/processing_funcs.py:98-101 | with an injective map whose targets no unmapped column already uses, column names stay distinct |
| Frames.DataFrame.constructor | processor-service/processing/processing_funcs.py:9 | wraps the given table |
| Frames.DataFrame.Assign | processor-service/processing/processing_funcs.py:57-59 | the frame becomes the assigned table and keeps distinct column names |
| Frames.DataFrame.Copy | processor-service/processing/processing_funcs.py:86 | `df.copy()` is a fresh object holding the same table |
| Frames.DataFrame.Rename | processor-service/processing/processing_funcs.py:98-101 | `rename(..., inplace=True)` replaces the frame by the renamed table |
| Constants.HasvoColsKeys | processor-service/processing/constants.py:20-41 | the English column map has exactly the twenty source column names as keys |
| Constants.HasvoColsRoundTrip | processor-service/processing/constants.py:20-41 | every source name is recovered from its English name |
| Constants.HasvoColsInjective | processor-service/processing/constants.py:20-41 | no two source columns get the same English name |
| Constants.HasvoColsNamesDisjoint | processor-service/processing/constants.py:20-41 | no English name is itself a source name |
| Constants.HasvoColsCoverCreated | processor-service/processing/constants.py:35-40 | every column that the transform creates has its English name |
| Constants.HasvoColsCoverRead | processor-service/processing/constants.py:21-34 | every column that the transform reads or rewrites has its English name |
| Constants.TransformColumnsDistinct | processor-service/processing/constants.py:22-40 | the ten column names that the transform reads and writes are pairwise different |
| Constants.DashboardByValue | processor-service/processing/constants.py:44-55 | looking a dashboard up by value gives a member with that value |
| Constants.DashboardValueRoundTrip | processor-service/processing/constants.py:44-55 | every dashboard member is found again from its value |
| Constants.DashboardValueInjective | processor-service/processing/constants.py:44-55 | no two dashboard members share a value |
| Constants.OnlyWoutCategoryIsEmpty | processor-service/processing/constants.py:55 | only the catch-all member has the empty value |
| Constants.EnTableNames | processor-service/processing/constants.py:13-16 | exactly the humanitarian-aid and АИП dashboards have English table names, and the map gives those names |
| Checker.NormalizedHeaders | tg-bot/utils/excel_helpers/checker.py:33 | the normalised headers are, position by position, the stripped and lower-cased table headers |
| Checker.MissingHeaders | tg-bot/utils/excel_helpers/checker.py:34-38 | the scan of the first `k` expected headers reports at most `k` entries |
| Checker.MissingHeadersSound | tg-bot/utils/excel_helpers/checker.py:36-38 | every reported entry names an absent expected header under the letter of its 1-based position, and positions increase along the dict |
| Checker.MissingHeadersComplete | tg-bot/utils/excel_helpers/checker.py:36-38 | every absent expected header is reported under its letter |
| Checker.MissingHeadersStep | tg-bot/utils/excel_helpers/checker.py:36-38 | one more loop iteration appends the entry for the next position when that header is absent, and otherwise changes nothing |
| Checker.MissingHeaderLines | tg-bot/utils/excel_helpers/checker.py:41-44 | one message line per missing entry |
| Checker.KeyPosition | tg-bot/utils/excel_helpers/checker.py:38 | finds a key's position in the insertion-ordered dict, or shows that the key is absent |
| Checker.DictPut | tg-bot/utils/excel_helpers/checker.py:38 | storing a new key appends it; storing an existing key replaces that item's value in place and keeps every other item; keys stay distinct |
| Checker.CheckCorrectHeader | tg-bot/utils/excel_helpers/checker.py:27-50 | the loop computes exactly the header verdict |
| Checker.MissingHeaderReportedIff | tg-bot/utils/excel_helpers/checker.py:36-38 | an expected header is reported under its own letter exactly when its lower-cased form is not among the normalised headers |
| Checker.MissingHeadersOnlyExpected | tg-bot/utils/excel_helpers/checker.py:36-44 | only absent expected headers are reported, each under its own letter, and no letter appears twice |
| Checker.HeaderPassesIff | tg-bot/utils/excel_helpers/checker.py:30-50 | the check passes exactly when headers are configured and every one of them is present after normalisation; a pass has an empty message |
| Checker.HeaderWithoutRules | tg-bot/utils/excel_helpers/checker.py:30-32 | without configured headers the check fails with the fixed message |
| Checker.MissingHeadersBySet | tg-bot/utils/excel_helpers/checker.py:37 | the report depends only on the set of normalised headers |
| Checker.HeaderIgnoresOrder | tg-bot/utils/excel_helpers/checker.py:33-37 | reordering or repeating the table's headers does not change the verdict |
| Checker.CheckMergedCells | tg-bot/utils/excel_helpers/checker.py:53-57 | passes exactly when there are no merged cells, with an empty message; otherwise fails with the fixed message |
| Checker.ColumnsToCheck | tg-bot/utils/excel_helpers/checker.py:63-65 | the category's configured column list when it is non-empty, otherwise every table column |
| Checker.NumberedLines | tg-bot/utils/excel_helpers/checker.py:75-76 | line `i` is numbered `i + 1` and names the `i`-th flagged column |
| Checker.NumberedLinesAppend | tg-bot/utils/excel_helpers/checker.py:75-76 | flagging one more column appends one line numbered with the new counter |
| Checker.CheckMissingCells | tg-bot/utils/excel_helpers/checker.py:60-83 | the loop computes exactly the missing-values verdict |
| Checker.FlaggedCount | tg-bot/utils/excel_helpers/checker.py:69-76 | a name is flagged as often as it is listed, when the table has it with a null or a `"-"`, and never otherwise |
| Checker.MissingFlagsIff | tg-bot/utils/excel_helpers/checker.py:63-76 | a column is flagged exactly when it is to be inspected, exists in the table and holds a null or `"-"` |
| Checker.MissingPassesIff | tg-bot/utils/excel_helpers/checker.py:60-83 | the check passes, with an empty message, exactly when no column to inspect holds a null or a `"-"`; a failure's message opens with the missing-values heading |
| Checker.FlaggedEmptyIff | tg-bot/utils/excel_helpers/checker.py:69-76 | no column is flagged exactly when no inspected column holds a null or a `"-"` |
| Checker.CheckDataTypes | tg-bot/utils/excel_helpers/checker.py:86-114 | the loop computes exactly the type outcome, including the `KeyError` that escapes it |
| Checker.TypeDefectsStaysRaised | tg-bot/utils/excel_helpers/checker.py:95-96 | once a column is undeclared, the `KeyError` stays, whatever later columns hold |
| Checker.TypeDefectsMeaning | tg-bot/utils/excel_helpers/checker.py:95-110 | a `KeyError` is raised exactly when some column is undeclared, naming the first such column; otherwise a name is listed exactly when it is a declared column that does not conform |
| Checker.TypeDefectsInOrder | tg-bot/utils/excel_helpers/checker.py:95-110 | without a `KeyError`, the listed names are the declared, non-conforming columns at strictly increasing positions, so each appears once and in table order |
| Checker.TypesPassIff | tg-bot/utils/excel_helpers/checker.py:86-114 | the check raises exactly when a type map is configured and some column is missing from it; it passes exactly when a type map is configured and every column is declared and conforms; a positive verdict is always the empty pass |
| Checker.FailingMessages | tg-bot/utils/excel_helpers/checker.py:129-135 | collects no more messages than there are checks |
| Checker.RunCheck | tg-bot/utils/excel_helpers/checker.py:122-130 | runs the check at a given position of the list |
| Checker.CollectErrors | tg-bot/utils/excel_helpers/checker.py:126-133 | the loop runs the checks in order and yields exactly the collected messages, stopping after a failing header check, or the exception a check raises |
| Checker.CheckDocumentByCategory | tg-bot/utils/excel_helpers/checker.py:115-142 | the function computes exactly the document outcome: the exception of a check, the report heading with the collected messages joined by newlines, or a pass with an empty message |
| Checker.HeaderFailureStopsChain | tg-bot/utils/excel_helpers/checker.py:131-134 | after a header failure only the header message is reported, and no later check runs or raises |
| Checker.ChainCollects | tg-bot/utils/excel_helpers/checker.py:129-141 | when the header check passes, each failing later check contributes its message in order, and the document passes exactly when none fails |
| Checker.ChainPassesIff | tg-bot/utils/excel_helpers/checker.py:127-142 | the document passes exactly when the header, merged-cells, missing-values and types checks all pass and none raises; a pass has an empty message |
| Checker.CollectFromStart | tg-bot/utils/excel_helpers/checker.py:126-133 | running the loop from the first check collects the messages of the failing checks in order, stops after a failing header check, and lets a `KeyError` escape |
| Checker.CollectStep | tg-bot/utils/excel_helpers/checker.py:128-133 | after the header position, a passing check adds nothing and a failing one appends its message before the loop goes on |
| Processing.ConfigGet | processor-service/processing/processing_funcs.py:10 | `process_config.get(key)` finds the key's value exactly when the key is present |
| Processing.ZipCells | processor-service/processing/processing_funcs.py:57-59 | a row-by-row series operation gives one result per row, or fails exactly when some row fails |
| Processing.YearTexts | processor-service/processing/processing_funcs.py:61 | one year text per row |
| Processing.MonthTexts | processor-service/processing/processing_funcs.py:62 | one month text per row |
| Processing.DatePartTexts | processor-service/processing/processing_funcs.py:61-62 | without missing dates, "Год" and "Месяц" are the decimal texts of the date's year and month, and they read back as those numbers |
| Processing.UnitCellOfInt | processor-service/processing/processing_funcs.py:75-80 | an integer quantity with a text unit reads "<quantity> <unit>" |
| Processing.AssignedKeeps | processor-service/processing/processing_funcs.py:57-59 | a column assignment changes only the assigned name |
| Processing.KeepsTrans | processor-service/processing/processing_funcs.py:57-83 | two steps together leave alone whatever each of them leaves alone |
| Processing.KeepsName | processor-service/processing/processing_funcs.py:57-83 | a column that exists and is not touched still exists |
| Processing.UnmetStage | processor-service/processing/processing_funcs.py:57-59 | the unmet quantity is computed exactly when need and quantity exist and every row subtracts; it is then need minus quantity row by row, and nothing else changes |
| Processing.YearMonthStage | processor-service/processing/processing_funcs.py:61-62 | "Год"/"Месяц" are derived exactly when the transfer date exists with a datetime dtype; a non-datetime date raises; they are then the year and month texts, and nothing else changes |
| Processing.UnitTextStage | processor-service/processing/processing_funcs.py:75-80 | a unit column is built exactly when its source and the unit column exist and every row concatenates; it is then the source text, a space and the unit, row by row |
| Processing.DateCastStage | processor-service/processing/processing_funcs.py:81-83 | the date cast succeeds exactly when the date column exists and is not timezone-aware, keeping the dates and every other column; a timezone-aware date column raises `TypeError` |
| Processing.MonthNamesChain | processor-service/processing/processing_funcs.py:57-72 | up to the month names, only the unmet quantity, "Год", "Месяц" and "Месяц_назв" change, and all three date-part columns exist |
| Processing.DatePartsChain | processor-service/processing/processing_funcs.py:61-72 | from the year/month texts to the month names, only the three date-part columns change, and "Год" keeps its year texts |
| Processing.UnmetKeepsInputs | processor-service/processing/processing_funcs.py:57-59 | the unmet step leaves need, quantity, unit and date alone |
| Processing.DatePartsKeepInputs | processor-service/processing/processing_funcs.py:61-72 | the date-part steps leave the unmet quantity, need, quantity, unit and date alone |
| Processing.MonthNamesContents | processor-service/processing/processing_funcs.py:57-72 | after the month names, the unmet quantity is need minus quantity and "Год" is the year text of each date |
| Processing.UnitTextsKeepInputs | processor-service/processing/processing_funcs.py:75-80 | building one unit column leaves the other one's inputs and the dates alone |
| Processing.UnitTextsContents | processor-service/processing/processing_funcs.py:75-80 | both unit columns are built from need, quantity and unit row by row |
| Processing.DateCastContents | processor-service/processing/processing_funcs.py:81-83 | the cast keeps both unit columns, and each row keeps its date |
| Processing.UnitsAndCastChain | processor-service/processing/processing_funcs.py:75-83 | the unit texts and the cast change only their own three columns |
| Processing.DerivedHalves | processor-service/processing/processing_funcs.py:57-83 | the two halves of the derivation compose: only the derived columns change |
| Processing.DeriveChain | processor-service/processing/processing_funcs.py:57-83 | between the helper chain and the duplication only the derived columns change, and the date-part columns exist |
| Processing.TailKeepsDateParts | processor-service/processing/processing_funcs.py:75-83 | the unit texts and the cast leave the unmet quantity and "Год" alone |
| Processing.DerivedUnmet | processor-service/processing/processing_funcs.py:57-59 | in the derived table the unmet quantity is the prepared need minus quantity, row by row |
| Processing.DerivedYear | processor-service/processing/processing_funcs.py:61 | in the derived table "Год" is the year text of the prepared date, row by row |
| Processing.DerivedDate | processor-service/processing/processing_funcs.py:81-83 | in the derived table every row keeps its prepared transfer date |
| Processing.DerivedUnitTexts | processor-service/processing/processing_funcs.py:75-80 | in the derived table the unit columns are the prepared need and quantity, each followed by a space and the unit |
| Processing.DerivedUntouched | processor-service/processing/processing_funcs.py:57-83 | every column that the derivation does not write is the prepared one |
| Processing.BlockCells | processor-service/processing/processing_funcs.py:88-95 | each copy of a column has as many rows as the column |
| Processing.Copies | processor-service/processing/processing_funcs.py:97 | a concatenated column has four times the rows |
| Processing.AllYearsCopyCells | processor-service/processing/processing_funcs.py:88 | the all-years copy has the same columns; "Год" reads "Все года" and everything else is unchanged |
| Processing.AllMonthsCopyCells | processor-service/processing/processing_funcs.py:90-91 | the all-months copy has the same columns; "Месяц_назв" reads "Все месяца", "Месяц" reads 0, and everything else is unchanged |
| Processing.BothCopyCells | processor-service/processing/processing_funcs.py:93-95 | the combined copy has the same columns and both sets of overwrites |
| Processing.ExpandedColumns | processor-service/processing/processing_funcs.py:86-97 | the concatenation has the same columns and four times the rows, and each column is the original followed by its three copies |
| Processing.CopyRow | processor-service/processing/processing_funcs.py:97 | row `r` of any of the four copies lies inside the concatenation |
| Processing.CopiesAt | processor-service/processing/processing_funcs.py:86-97 | row `r` of copy `b` is row `r` of the original, overwritten as that copy demands |
| Processing.DeriveMeaning | processor-service/processing/processing_funcs.py:57-83 | a successful derivation meets everything `DerivedFrom` requires |
| Processing.ExpandedMeaning | processor-service/processing/processing_funcs.py:86-97 | the concatenation is four copies of the table, as `CopiesOf` describes |
| Processing.TransformedMeaning | processor-service/processing/processing_funcs.py:9-97 | a successful transform is the helper chain, a derivation meeting `DerivedFrom`, and the four-fold duplication |
| Processing.ResultColumns | processor-service/processing/processing_funcs.py:57-97 | the result has four times the prepared rows, every prepared column, and all derived columns |
| Processing.UnmetInEveryCopy | processor-service/processing/processing_funcs.py:57-59 | in every copy, each row's unmet quantity is the prepared need minus quantity |
| Processing.YearPerCopy | processor-service/processing/processing_funcs.py:61 | "Год" is the year text of the date in the original and the all-months copy, and "Все года" in the other two |
| Processing.MonthPerCopy | processor-service/processing/processing_funcs.py:62-95 | "Месяц" is 0 and "Месяц_назв" is "Все месяца" in the all-months and combined copies; the all-years copy repeats the original's month and month name |
| Processing.UnitTextsInEveryCopy | processor-service/processing/processing_funcs.py:75-80 | in every copy the unit columns are the prepared need and quantity, each followed by a space and the unit |
| Processing.DateInEveryCopy | processor-service/processing/processing_funcs.py:81-97 | in every copy each row keeps its prepared transfer date |
| Processing.UntouchedInEveryCopy | processor-service/processing/processing_funcs.py:86-97 | every column that the transform does not write holds the prepared cell in every copy |
| Processing.RenamedColumn | processor-service/processing/processing_funcs.py:98-101 | the rename keeps each column in place with its cells, under its English name when it has one |
| Processing.RenamedDistinct | processor-service/processing/processing_funcs.py:98-101 | the renamed table keeps distinct column names, unless a column without an English name already uses an English name |
| Processing.ApplyHelpers | processor-service/processing/processing_funcs.py:10-56 | the helper calls in order; the first failure is the result |
| Processing.AssignUnmet | processor-service/processing/processing_funcs.py:57-59 | the in-place assignment succeeds exactly when `WithUnmet` does; it then leaves the frame as `WithUnmet` gives it, and otherwise returns that exception and leaves the frame unchanged |
| Processing.AssignYearMonth | processor-service/processing/processing_funcs.py:61-62 | the same for "Год" and "Месяц": both columns are assigned on success, and on an exception neither is |
| Processing.AssignUnitText | processor-service/processing/processing_funcs.py:75-80 | the same for one unit column, the frame unchanged on an exception |
| Processing.CastDate | processor-service/processing/processing_funcs.py:81-83 | the same for the date cast, including the `TypeError` of a timezone-aware date, the frame unchanged on an exception |
| Processing.Derivation | processor-service/processing/processing_funcs.py:57-83 | the in-place steps and the two helper calls compute exactly `Derive` |
| Processing.Duplicate | processor-service/processing/processing_funcs.py:86-97 | the three in-place copies and their concatenation compute exactly `Expanded` |
| Processing.HumanitarianAid | processor-service/processing/processing_funcs.py:9-104 | computes exactly `HumanitarianAidResult`. A missing config (`None`) raises the `AttributeError` of `None.get` before any helper runs. With a config, it succeeds exactly when the transform does, giving the renamed four-fold table. The `*InEveryCopy` lemmas describe the table before the rename, which `RenamedColumn` carries over column by column under the English names |
| Processing.ProcessDf | processor-service/processing/processing_funcs.py:107-112 | the humanitarian-aid dataset name runs the transform, and a missing config (`None`, as the service passes when it has no entry for the dataset) raises `AttributeError`. Every other name returns the table unchanged, with or without a config |
| Processing.DispatchSelectsOnlyHumanitarianAid | processor-service/processing/processing_funcs.py:110 | among the dashboards, only the humanitarian-aid one passes the dispatch test |

## Left out

- Reading the workbook is not modelled: `pd.read_excel`, and `openpyxl.load_workbook` in the merged-cells check. The driver takes the parsed table and a boolean "has merged cells" as inputs.
- ColumnLetters.ColumnLetter: openpyxl's upper limit of 18278 columns is not modelled. Letters are produced for any positive position.
- Text.LowerChar: lower-casing covers the ASCII capitals A–Z, the Latin-1 capitals À–Þ except ×, and the Cyrillic capitals U+0400–U+042F only. Other capitals, such as Latin Extended Ł or Ś and Cyrillic Ґ, Қ, Ү or Ә, are left unchanged, while Python lowers them.
- The `processing.helpers` functions are parameters, not models: `prepare`, `classification`, `null_replacement`, `type_conversion`, `multi_replace`, `uppercase_first_letter` and `set_month_names`. The row-level lemmas rely on one assumption, `Lawful`: the two helpers that run after the transform's own steps change only the columns they are given. The month column's content after its integer conversion is whatever the helper produces.
- `processing/helpers.py` is not part of this model, and neither are `main.py` and `create_bot.py`. The service's queue and S3 handling and the bot's handlers are left out too.
- Floating-point values are not modelled. A `float64` column holds whole numbers, which are written with a trailing `.0`. The `float64` spent-funds conversion is therefore only a dtype.
- Processing.WithDateCast: the cast to `datetime64[ms]` changes the dtype and keeps every date, and a timezone-aware column raises `TypeError`. Sub-millisecond truncation is not modelled. Neither is the parsing of a text or number column into dates; in the transform the column is already datetime-like when it is cast.
- Frames.ConcatDtype: after `pd.concat`, a column's dtype is the first table's when both tables agree and object otherwise. pandas' full dtype-promotion rules are not modelled.
- Processing.SubCell: subtraction is modelled on whole numbers only. A missing operand gives a missing result, and a text or date operand raises `TypeError`. For two dates that is not pandas' behaviour: pandas subtracts them into a timedelta. Mixing a date with a non-date does raise in pandas.
- Processing.CellText: a date written as text shows the calendar date only, with no time part.
- The S3 constants of `constants.py` are environment reads, so they are not modelled.
- Logging and `icecream` output are left out.
- `DATETIME`, `OBJECT` and `NUMERIC` are declared-type constants whose definition is not part of this model. They are treated as three family markers that differ from every concrete dtype name.
- Column labels are modelled as text only. `pd.read_excel` can give numeric or date labels for such header cells, and then `header.strip()` in the header check raises `AttributeError`. That exception is not modelled.
- Processing.NullText: `Null` stands for both `NaN` and `None`. In a column of any other dtype than nullable integer, string or datetime, the model writes a missing value as "nan"; pandas `astype(str)` writes "None" when an object column holds `None`.
- Processing.ProcessDf: the input is a `Table`, whose column names are distinct, even for the datasets that pass through unchanged. `procces_df` accepts any DataFrame, so a table with duplicate labels is not modelled. `pd.read_excel` renames duplicate header labels, so such a table does not arrive from a workbook.
