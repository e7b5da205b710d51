// Spreadsheet column letters (openpyxl's `get_column_letter`): the bijective
// base-26 numeral of a 1-based column index, 1 -> "A", 26 -> "Z", 27 -> "AA".

module ColumnLetters {

  predicate IsLetter(c: char)
  {
    'A' <= c <= 'Z'
  }

  /** A well-formed column name: one or more capital Latin letters. */
  predicate IsColumnName(s: string)
  {
    s != [] && forall i :: 0 <= i < |s| ==> IsLetter(s[i])
  }

  /** The letter of digit `d` (1 -> 'A', 26 -> 'Z'). */
  function Letter(d: nat): (c: char)
    requires 1 <= d <= 26
    ensures IsLetter(c) && c as int - 'A' as int + 1 == d
  {
    ('A' as int + d - 1) as char
  }

  /** `get_column_letter(n)`. */
  function ColumnLetter(n: nat): (r: string)
    requires n >= 1
    ensures IsColumnName(r)
    ensures n <= 26 <==> |r| == 1
  {
    if n <= 26 then [Letter(n)]
    else ColumnLetter((n - 1) / 26) + [Letter((n - 1) % 26 + 1)]
  }

  /** `column_index_from_string(s)`: the reading of a column name as a
      bijective base-26 numeral. */
  function ColumnIndex(s: string): nat
    requires forall i :: 0 <= i < |s| ==> IsLetter(s[i])
  {
    if s == [] then 0
    else
      assert IsLetter(s[|s| - 1]);
      ColumnIndex(s[..|s| - 1]) * 26 + (s[|s| - 1] as int - 'A' as int + 1)
  }

  /** Every column index is recovered from its letters. */
  lemma {:induction false} IndexOfLetter(n: nat)
    requires n >= 1
    ensures ColumnIndex(ColumnLetter(n)) == n
  {
    if n > 26 {
      var s := ColumnLetter(n);
      assert s[..|s| - 1] == ColumnLetter((n - 1) / 26);
      IndexOfLetter((n - 1) / 26);
    }
  }

  /** Every well-formed column name is the letters of its index: the
      conversion is onto the column names. */
  lemma {:induction false} LetterOfIndex(s: string)
    requires IsColumnName(s)
    ensures ColumnIndex(s) >= 1
    ensures ColumnLetter(ColumnIndex(s)) == s
  {
    var last := s[|s| - 1] as int - 'A' as int + 1;
    var init := s[..|s| - 1];
    if init == [] {
      assert s == [s[0]];
    } else {
      LetterOfIndex(init);
      var q := ColumnIndex(init);
      assert ColumnIndex(s) == q * 26 + last;
      assert (q * 26 + last - 1) / 26 == q;
      assert (q * 26 + last - 1) % 26 + 1 == last;
      assert s == init + [s[|s| - 1]];
    }
  }

  /** Distinct columns get distinct letters, so letters can key a dictionary
      of columns without collisions. */
  lemma ColumnLetterInjective(m: nat, n: nat)
    requires m >= 1 && n >= 1 && ColumnLetter(m) == ColumnLetter(n)
    ensures m == n
  {
    IndexOfLetter(m);
    IndexOfLetter(n);
  }
}
