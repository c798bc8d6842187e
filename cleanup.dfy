/** `cleanup.py`: turns a results file, as `pd.read_csv` reads it, into one line of
    seventeen integer answers per result. Listing folders, reading and writing the files
    and pandas' choice of column types are not modelled: the cleaner takes the table of
    cells as read, and `ReadsAs` says which cells a written text may be read as. */
module Cleanup {
  import opened Wrappers
  import opened Text
  import Json
  import ManipulationCheck
  import FileProcessor

  /** A cell as pandas hands it over: missing (`NaN`), an integer, a float of a `float64`
      column, or text. A float is kept as what `int()` makes of it: its value truncated
      toward zero, or None for an infinity, on which `int()` raises the OverflowError (a
      float `NaN` is missing). */
  datatype Cell = NA | Num(n: int) | Flt(trunc: Option<int>) | Str(s: String)

  // ---------------------------------------------------------------------------
  // strip('"')

  /** The first position at or after `i` that does not hold `c` (or `|s|`). */
  function CharEnd(s: String, c: char, i: nat): (k: nat)
    requires i <= |s|
    ensures i <= k <= |s|
    ensures forall j :: i <= j < k ==> s[j] == c
    ensures k < |s| ==> s[k] != c
    decreases |s| - i
  {
    if i < |s| && s[i] == c then CharEnd(s, c, i + 1) else i
  }

  /** The position just after the last character before `j` that is not `c` (or 0). */
  function CharStart(s: String, c: char, j: nat): (k: nat)
    requires j <= |s|
    ensures k <= j
    ensures forall i :: k <= i < j ==> s[i] == c
    ensures k > 0 ==> s[k - 1] != c
  {
    if j > 0 && s[j - 1] == c then CharStart(s, c, j - 1) else j
  }

  /** `s.strip(c)`. */
  function StripChar(s: String, c: char): String {
    var a := CharEnd(s, c, 0);
    var b := CharStart(s, c, |s|);
    if b <= a then [] else s[a..b]
  }

  /** What `strip(c)` keeps is a contiguous piece of its input, and all it drops is `c`. */
  lemma {:induction false} StripCharIsSlice(s: String, c: char) returns (a: nat, b: nat)
    ensures a <= b <= |s| && StripChar(s, c) == s[a..b]
    ensures forall i :: 0 <= i < a ==> s[i] == c
    ensures forall i :: b <= i < |s| ==> s[i] == c
  {
    a := CharEnd(s, c, 0);
    b := CharStart(s, c, |s|);
    if b <= a {
      b := a;
    }
  }

  // ---------------------------------------------------------------------------
  // runs of digits

  /** The first position at or after `i` that holds a digit (or `|s|`). */
  function NextDigit(s: String, i: nat): (k: nat)
    requires i <= |s|
    ensures i <= k <= |s|
    ensures forall j :: i <= j < k ==> !IsDigit(s[j])
    ensures k < |s| ==> IsDigit(s[k])
    decreases |s| - i
  {
    if i < |s| && !IsDigit(s[i]) then NextDigit(s, i + 1) else i
  }

  /** The stretch without digits that starts at `i` ends at the first digit. */
  lemma {:induction false} NextDigitAt(s: String, i: nat, k: nat)
    requires i <= k <= |s|
    requires forall j :: i <= j < k ==> !IsDigit(s[j])
    requires k < |s| ==> IsDigit(s[k])
    ensures NextDigit(s, i) == k
    decreases |s| - i
  {
    if i < k {
      NextDigitAt(s, i + 1, k);
    }
  }

  /** `re.match(r'\d+', t)`: the value of the digits `t` starts with, if any. */
  function MatchAtStart(t: String): Option<int> {
    var b := DigitEnd(t, 0);
    if b == 0 then None else Some(DecimalValue(t[..b]))
  }

  /** `re.findall(r'\d+', t)[0]`: the value of the first run of digits in `t`, if any. */
  function FirstFound(t: String): Option<int> {
    var a := NextDigit(t, 0);
    if a == |t| then None else Some(DecimalValue(t[a..DigitEnd(t, a)]))
  }

  /** `extract_number_from_cell`: None for a missing cell, `int(cell)` for a number, and
      for text, after `strip()` and `strip('"')`, the digits it starts with, or else its
      first run of digits, or else None. On an infinite float `int(cell)` raises instead;
      `InfiniteAt` names that cell, the column loop stops there, and the value here is
      never used. */
  function ExtractNumber(cell: Cell): (r: Option<int>)
    ensures r.Some? ==> !cell.NA?
    ensures cell.Str? && r.Some? ==> r.value >= 0
    ensures cell.Flt? ==> r == cell.trunc
  {
    match cell
    case NA => None
    case Num(n) => Some(n)
    case Flt(t) => t
    case Str(s) =>
      var t := StripChar(Strip(s), '"');
      if MatchAtStart(t).Some? then MatchAtStart(t) else FirstFound(t)
  }

  /** `s[a..b]` is the first maximal run of digits in `s`. */
  predicate IsFirstRun(s: String, a: nat, b: nat) {
    && a < b <= |s|
    && (forall j :: 0 <= j < a ==> !IsDigit(s[j]))
    && AllDigits(s[a..b])
    && (b < |s| ==> !IsDigit(s[b]))
  }

  /** `findall` finds nothing exactly in a text without digits, and otherwise the value of
      the first maximal run of digits. */
  lemma {:induction false} FirstFoundIsFirstRun(s: String)
    ensures FirstFound(s).None? <==> forall j :: 0 <= j < |s| ==> !IsDigit(s[j])
    ensures forall a: nat, b: nat :: IsFirstRun(s, a, b) ==> FirstFound(s) == Some(DecimalValue(s[a..b]))
  {
    forall a: nat, b: nat | IsFirstRun(s, a, b)
      ensures FirstFound(s) == Some(DecimalValue(s[a..b]))
    {
      assert IsDigit(s[a..b][0]);
      NextDigitAt(s, 0, a);
      forall j | a <= j < b
        ensures IsDigit(s[j])
      {
        assert s[j] == s[a..b][j - a];
      }
      DigitEndAt(s, a, b);
    }
  }

  /** The anchored match succeeds exactly on a text that starts with a digit, and then it
      finds the run `findall` would find first: the fallback only decides texts that do
      not start with a digit. */
  lemma {:induction false} MatchAgreesWithFirstFound(t: String)
    ensures MatchAtStart(t).Some? <==> t != [] && IsDigit(t[0])
    ensures MatchAtStart(t).Some? ==> MatchAtStart(t) == FirstFound(t)
  {
    if t != [] && IsDigit(t[0]) {
      NextDigitAt(t, 0, 0);
      assert t[0..DigitEnd(t, 0)] == t[..DigitEnd(t, 0)];
    }
  }

  /** Cutting characters that are not digits off either end of a text does not change its
      first run of digits: `t` is `s[a..b]`. */
  lemma {:induction false} TrimKeepsFirstFound(s: String, a: nat, b: nat, t: String)
    requires a <= b <= |s| && |t| == b - a
    requires forall j :: 0 <= j < |t| ==> t[j] == s[a + j]
    requires forall j :: 0 <= j < a ==> !IsDigit(s[j])
    requires forall j :: b <= j < |s| ==> !IsDigit(s[j])
    ensures FirstFound(t) == FirstFound(s)
  {
    FirstFoundIsFirstRun(s);
    var x := NextDigit(t, 0);
    if x == |t| {
      TrimNoDigits(s, a, b, t);
    } else {
      var y := DigitEnd(t, x);
      TrimFirstRun(s, a, b, t, x, y);
      assert FirstFound(s) == Some(DecimalValue(s[a + x..a + y]));
    }
  }

  /** A text without digits cut from a text whose ends have none: neither has digits. */
  lemma {:induction false} TrimNoDigits(s: String, a: nat, b: nat, t: String)
    requires a <= b <= |s| && |t| == b - a
    requires forall j :: 0 <= j < |t| ==> t[j] == s[a + j]
    requires forall j :: 0 <= j < a ==> !IsDigit(s[j])
    requires forall j :: b <= j < |s| ==> !IsDigit(s[j])
    requires forall j :: 0 <= j < |t| ==> !IsDigit(t[j])
    ensures forall j :: 0 <= j < |s| ==> !IsDigit(s[j])
  {
    forall j | 0 <= j < |s|
      ensures !IsDigit(s[j])
    {
      if a <= j < b {
        assert s[j] == t[j - a];
      }
    }
  }

  /** The first run of digits of the cut text `t[x..y]` is the first run of `s`, at `a + x`. */
  lemma {:induction false} TrimFirstRun(s: String, a: nat, b: nat, t: String, x: nat, y: nat)
    requires a <= b <= |s| && |t| == b - a
    requires forall j :: 0 <= j < |t| ==> t[j] == s[a + j]
    requires forall j :: 0 <= j < a ==> !IsDigit(s[j])
    requires forall j :: b <= j < |s| ==> !IsDigit(s[j])
    requires x < y <= |t|
    requires forall j :: 0 <= j < x ==> !IsDigit(t[j])
    requires forall j :: x <= j < y ==> IsDigit(t[j])
    requires y < |t| ==> !IsDigit(t[y])
    ensures s[a + x..a + y] == t[x..y]
    ensures IsFirstRun(s, a + x, a + y)
  {
    assert s[a + x..a + y] == t[x..y];
    forall j | a <= j < a + x
      ensures !IsDigit(s[j])
    {
      assert s[j] == t[j - a];
    }
    var r := s[a + x..a + y];
    forall j | 0 <= j < |r|
      ensures IsDigit(r[j])
    {
      assert r[j] == t[x + j];
    }
    if a + y < b {
      assert s[a + y] == t[y];
    }
  }

  /** The number a text cell yields is the value of its first run of digits, wherever
      that run starts: neither the stripping nor the anchored match changes the result. */
  lemma {:induction false} ExtractNumberIsFirstFound(s: String)
    ensures ExtractNumber(Str(s)) == FirstFound(s)
  {
    var t := StripChar(Strip(s), '"');
    StripKeepsFirstFound(s);
    StripQuotesKeepsFirstFound(Strip(s));
    MatchAgreesWithFirstFound(t);
  }

  /** `strip()` cuts only white space, which holds no digit. */
  lemma {:induction false} StripKeepsFirstFound(s: String)
    ensures FirstFound(Strip(s)) == FirstFound(s)
  {
    var a := StripIsSlice(s);
    var u := Strip(s);
    TrimKeepsFirstFound(s, a, a + |u|, u);
  }

  /** `strip('"')` cuts only quotes, which are not digits. */
  lemma {:induction false} StripQuotesKeepsFirstFound(u: String)
    ensures FirstFound(StripChar(u, '"')) == FirstFound(u)
  {
    var c, d := StripCharIsSlice(u, '"');
    TrimKeepsFirstFound(u, c, d, StripChar(u, '"'));
  }

  /** A numeral is found as its absolute value: a sign is not a digit. */
  lemma {:induction false} NumeralFound(t: String, n: int)
    requires Json.SignedNumeral(t) == Some(n)
    ensures FirstFound(t) == Some(if n < 0 then -n else n)
  {
    FirstFoundIsFirstRun(t);
    if t[0] == '+' || t[0] == '-' {
      var d := t[1..];
      assert d != [] && AllDigits(d);
      assert t[1..|t|] == d;
      assert !IsDigit(t[0]);
      assert IsFirstRun(t, 1, |t|);
      assert FirstFound(t) == Some(DecimalValue(d));
    } else {
      assert t[0..|t|] == t;
      assert IsFirstRun(t, 0, |t|);
    }
  }

  /** A text cell holding `str(i)` yields the absolute value of `i`: a minus sign is not a
      digit, so `extract_number_from_cell` drops it. */
  lemma {:induction false} ExtractNumeral(i: int)
    ensures ExtractNumber(Str(IntToString(i))) == Some(if i < 0 then -i else i)
  {
    var s := IntToString(i);
    assert ExtractNumber(Str(s)) == FirstFound(s) by {
      ExtractNumberIsFirstFound(s);
    }
    assert FirstFound(s) == Some(if i < 0 then -i else i) by {
      Json.IntToStringNumeral(i);
      NumeralFound(s, i);
    }
  }

  /** A sign is not a digit: `-3` yields 3. */
  lemma {:induction false} ExtractDropsSign()
    ensures ExtractNumber(Str("-3")) == Some(3)
  {
    assert IntToString(-3) == "-3";
    ExtractNumeral(-3);
  }

  /** A decimal point is not a digit: `4.5` yields 4. */
  lemma {:induction false} ExtractTruncatesDecimal()
    ensures ExtractNumber(Str("4.5")) == Some(4)
  {
    var s := "4.5";
    assert FirstFound(s) == Some(4) by {
      NextDigitAt(s, 0, 0);
      DigitEndAt(s, 0, 1);
      assert s[0..1] == "4";
    }
    ExtractNumberIsFirstFound(s);
  }

  /** White space and quotes around a number do not matter: ` "12" ` yields 12. */
  lemma {:induction false} ExtractQuoted()
    ensures ExtractNumber(Str(" \"12\" ")) == Some(12)
  {
    var q := " \"12\" ";
    assert FirstFound(q) == Some(12) by {
      NextDigitAt(q, 0, 2);
      DigitEndAt(q, 2, 4);
      var d := q[2..4];
      assert d == "12";
      assert DecimalValue(d[..1]) == 1;
    }
    ExtractNumberIsFirstFound(q);
  }

  /** A text without digits and a missing cell yield nothing. */
  lemma {:induction false} ExtractNothing()
    ensures ExtractNumber(Str("n/a")) == None
    ensures ExtractNumber(NA) == None
  {
    ExtractNumberIsFirstFound("n/a");
    NextDigitAt("n/a", 0, 3);
  }

  // ---------------------------------------------------------------------------
  // clean_csv

  /** A table as `pd.read_csv` returns it: the header's column names and, per line, one
      cell per column. */
  datatype Table = Table(columns: seq<String>, rows: seq<seq<Cell>>)

  /** Every line has a cell for every column (pandas pads short lines with `NaN`). */
  predicate WellFormed(table: Table) {
    forall r :: 0 <= r < |table.rows| ==> |table.rows[r]| == |table.columns|
  }

  /** A line of the cleaned table: `Model`, `Iteration` and the answers `Q1`..`Q17`, None
      standing for `<NA>`. */
  datatype CleanRow = CleanRow(model: Cell, iteration: Cell, answers: seq<Option<int>>)

  /** How many answers a cleaned line has. */
  const Kept: nat := 17

  /** The answers of a line before any is assigned. */
  const Unanswered: seq<Option<int>> := seq(Kept, _ => None)

  /** The position of the first column called `name`, if any (`df[name]`). */
  function ColumnIndex(columns: seq<String>, name: String): (r: Option<nat>)
    ensures r.Some? ==> r.value < |columns| && columns[r.value] == name
    ensures r.Some? ==> forall i :: 0 <= i < r.value ==> columns[i] != name
    ensures r.None? ==> forall i :: 0 <= i < |columns| ==> columns[i] != name
  {
    if columns == [] then None
    else if columns[0] == name then Some(0)
    else match ColumnIndex(columns[1..], name)
      case Some(i) => Some(i + 1)
      case None => None
  }

  /** `str(cell)`. For a float, only its integral part or `inf` is written: like `str()`
      of a float it holds digits, a sign, a point, an exponent or `inf`, and never a
      letter of `claude`, which is all `IsClaude` asks of it. */
  function CellText(c: Cell): String {
    match c
    case NA => "nan"
    case Num(n) => IntToString(n)
    case Flt(t) => if t.Some? then IntToString(t.value) + ".0" else "inf"
    case Str(s) => s
  }

  /** A line is read the Claude way when its model names Claude or the input path names
      Anthropic, in any letter case. */
  predicate IsClaude(model: Cell, inputFile: String) {
    Contains(Lower(CellText(model)), "claude") || Contains(Lower(inputFile), "anthropic")
  }

  /** What `int(float(s))` does with a text: gives an integer, raises the ValueError of a
      text that is no number, or raises the OverflowError of an infinity. */
  datatype FloatInt = Converted(n: int) | NotNumeric | Infinite

  /** The number one scanned cell contributes: in the Claude branch `int(float(cell))` for
      a cell `pd.notna` lets through, where `floatOf(s)` stands for `int(float(s))` on a
      text and the ValueError it raises is skipped; otherwise `extract_number_from_cell`.
      Both read a float as its truncation. */
  function CellNumber(c: Cell, claude: bool, floatOf: String -> FloatInt): (r: Option<int>)
    ensures r.Some? ==> !c.NA?
    ensures !claude && c.Str? && r.Some? ==> r.value >= 0
    ensures c.Flt? ==> r == c.trunc
  {
    if claude then
      match c
      case NA => None
      case Num(n) => Some(n)
      case Flt(t) => t
      case Str(s) => if floatOf(s).Converted? then Some(floatOf(s).n) else None
    else ExtractNumber(c)
  }

  /** The cell at `j` raises the OverflowError when its branch converts it: an infinite
      float in either branch, and in the Claude branch also a text `int(float(...))`
      overflows on. */
  predicate InfiniteAt(cells: seq<Cell>, j: nat, claude: bool, floatOf: String -> FloatInt)
    requires j < |cells|
  {
    cells[j] == Flt(None) || (claude && cells[j].Str? && floatOf(cells[j].s).Infinite?)
  }

  /** The column loop of a line raises the OverflowError, which nothing in `clean_csv`
      catches: a cell its branch scans is an infinity. */
  predicate HitsInfinity(cells: seq<Cell>, claude: bool, floatOf: String -> FloatInt) {
    exists j :: FirstScanned(claude) <= j < |cells| && InfiniteAt(cells, j, claude, floatOf)
  }

  /** The first column a branch scans: `df.columns[3:]` for Claude, `df.columns[2:]`
      otherwise. */
  function FirstScanned(claude: bool): nat {
    if claude then 3 else 2
  }

  /** `CellNumber` of a branch as a value, the cell step the column loop takes. */
  function CellNumberOf(claude: bool, floatOf: String -> FloatInt): Cell -> Option<int> {
    c => CellNumber(c, claude, floatOf)
  }

  /** `numbers` once the column loop has seen the columns from `from` up to `j`, each
      cell yielding `num(cell)`. */
  function NumbersUpTo(cells: seq<Cell>, num: Cell -> Option<int>, from: nat, j: nat): seq<int>
    requires j <= |cells|
    decreases j
  {
    if j <= from then []
    else
      var c := num(cells[j - 1]);
      NumbersUpTo(cells, num, from, j - 1) + (if c.Some? then [c.value] else [])
  }

  /** The numbers collected from a line. */
  function Numbers(cells: seq<Cell>, claude: bool, floatOf: String -> FloatInt): seq<int> {
    NumbersUpTo(cells, CellNumberOf(claude, floatOf), FirstScanned(claude), |cells|)
  }

  /** `Q1`..`Q17` of a line whose numbers are `numbers`: the first seventeen when there
      are that many, and otherwise none at all. */
  function Answers(numbers: seq<int>): (r: seq<Option<int>>)
    ensures |r| == Kept
  {
    if |numbers| >= Kept then seq(Kept, i requires 0 <= i < Kept => Some(numbers[i])) else Unanswered
  }

  /** The cleaned line for the line `cells`: its `Model` and `Iteration` cells, and
      seventeen answers. */
  function CleanedRow(cells: seq<Cell>, modelAt: nat, iterationAt: nat, inputFile: String, floatOf: String -> FloatInt): (r: CleanRow)
    requires modelAt < |cells| && iterationAt < |cells|
    ensures r.model == cells[modelAt] && r.iteration == cells[iterationAt] && |r.answers| == Kept
  {
    var claude := IsClaude(cells[modelAt], inputFile);
    CleanRow(cells[modelAt], cells[iterationAt], Answers(Numbers(cells, claude, floatOf)))
  }

  /** Why `clean_csv` raises, so that the driver skips the file. */
  datatype CleanError =
    | MissingColumn  // the KeyError of `df['Model']` or `df['Iteration']`
    | InfiniteCell   // the OverflowError of `int(float(...))` on an infinity
    | OutOfInt64     // the OverflowError of `astype('Int64')`

  /** The range of pandas' `Int64`. */
  predicate FitsInt64(x: int) {
    -0x8000_0000_0000_0000 <= x < 0x8000_0000_0000_0000
  }

  /** An answer cell `astype('Int64')` accepts: `<NA>` or an integer in range. */
  predicate AnswerFits(a: Option<int>) {
    a.None? || FitsInt64(a.value)
  }

  /** Every answer of every cleaned line converts to `Int64`. */
  predicate AllFit(lines: seq<CleanRow>) {
    forall r, q :: 0 <= r < |lines| && 0 <= q < |lines[r].answers| ==> AnswerFits(lines[r].answers[q])
  }

  /** The cleaned lines of a table whose `Model` and `Iteration` columns are at `m` and
      `it`, before the conversion to `Int64`. */
  function CleanLines(table: Table, m: nat, it: nat, inputFile: String, floatOf: String -> FloatInt): (lines: seq<CleanRow>)
    requires WellFormed(table) && m < |table.columns| && it < |table.columns|
    ensures |lines| == |table.rows|
  {
    seq(|table.rows|, r requires 0 <= r < |table.rows| => CleanedRow(table.rows[r], m, it, inputFile, floatOf))
  }

  /** Some line of the table raises in its column loop. */
  predicate SomeLineHitsInfinity(table: Table, m: nat, inputFile: String, floatOf: String -> FloatInt)
    requires WellFormed(table) && m < |table.columns|
  {
    exists r :: 0 <= r < |table.rows| && HitsInfinity(table.rows[r], IsClaude(table.rows[r][m], inputFile), floatOf)
  }

  /** What `clean_csv` writes, or why it raises: the KeyError of a missing `Model` or
      `Iteration` column first, then the OverflowError of an infinite cell in the row
      loop, then the OverflowError of an answer outside `Int64` in the conversion. */
  function Cleaned(table: Table, inputFile: String, floatOf: String -> FloatInt): (r: Result<seq<CleanRow>, CleanError>)
    requires WellFormed(table)
    ensures r.Ok? ==> |r.value| == |table.rows| && AllFit(r.value)
    ensures r.Ok? ==> forall t :: 0 <= t < |r.value| ==> |r.value[t].answers| == Kept
  {
    match (ColumnIndex(table.columns, "Model"), ColumnIndex(table.columns, "Iteration"))
    case (Some(m), Some(it)) =>
      if SomeLineHitsInfinity(table, m, inputFile, floatOf) then Err(InfiniteCell)
      else
        var lines := CleanLines(table, m, it, inputFile, floatOf);
        if AllFit(lines) then Ok(lines) else Err(OutOfInt64)
    case _ => Err(MissingColumn)
  }

  /** The column loop of one line: the numbers its scanned cells yield, in column order,
      unless a cell raises the OverflowError first. */
  method CollectNumbers(cells: seq<Cell>, claude: bool, floatOf: String -> FloatInt) returns (numbers: seq<int>, overflow: bool)
    ensures overflow <==> HitsInfinity(cells, claude, floatOf)
    ensures !overflow ==> numbers == Numbers(cells, claude, floatOf)
  {
    var from := FirstScanned(claude);
    numbers, overflow := [], false;
    var col := if from <= |cells| then from else |cells|;
    while col < |cells|
      invariant col <= |cells|
      invariant numbers == NumbersUpTo(cells, CellNumberOf(claude, floatOf), from, col)
      invariant forall j :: from <= j < col ==> !InfiniteAt(cells, j, claude, floatOf)
    {
      if InfiniteAt(cells, col, claude, floatOf) {
        overflow := true;
        return;
      }
      var num := CellNumber(cells[col], claude, floatOf);
      if num.Some? {
        numbers := numbers + [num.value];
      }
      col := col + 1;
    }
  }

  /** The assignment of one line's answers: `Q1`..`Q17` start as `<NA>` and, when there are
      at least seventeen numbers, receive the first seventeen one by one. */
  method AssignAnswers(numbers: seq<int>) returns (answers: seq<Option<int>>)
    ensures answers == Answers(numbers)
  {
    answers := Unanswered;
    if |numbers| >= Kept {
      var i := 0;
      while i < Kept
        invariant 0 <= i <= Kept && |answers| == Kept
        invariant forall j :: 0 <= j < i ==> answers[j] == Some(numbers[j])
      {
        answers := answers[i := Some(numbers[i])];
        i := i + 1;
      }
    }
  }

  /** The answers of one line: read it the Claude way or not, collect its numbers, then
      assign them; or the OverflowError of its column loop. */
  method CleanLine(cells: seq<Cell>, modelAt: nat, inputFile: String, floatOf: String -> FloatInt) returns (answers: seq<Option<int>>, overflow: bool)
    requires modelAt < |cells|
    ensures overflow <==> HitsInfinity(cells, IsClaude(cells[modelAt], inputFile), floatOf)
    ensures !overflow ==> answers == Answers(Numbers(cells, IsClaude(cells[modelAt], inputFile), floatOf))
  {
    var claude := IsClaude(cells[modelAt], inputFile);
    var numbers;
    numbers, overflow := CollectNumbers(cells, claude, floatOf);
    if overflow {
      return [], true;
    }
    answers := AssignAnswers(numbers);
  }

  /** The row loop of `clean_csv` on a table whose `Model` and `Iteration` columns are at
      `mi` and `ii`: copy those cells, start every answer as `<NA>`, then per line collect
      the numbers column by column and, when there are at least seventeen, write the first
      seventeen into `Q1`..`Q17`; or the OverflowError of a line's column loop. */
  method CleanRows(table: Table, mi: nat, ii: nat, inputFile: String, floatOf: String -> FloatInt) returns (out: seq<CleanRow>, overflow: bool)
    requires WellFormed(table) && mi < |table.columns| && ii < |table.columns|
    ensures overflow <==> SomeLineHitsInfinity(table, mi, inputFile, floatOf)
    ensures !overflow ==> out == CleanLines(table, mi, ii, inputFile, floatOf)
  {
    var rows := table.rows;
    out := seq(|rows|, r requires 0 <= r < |rows| => CleanRow(rows[r][mi], rows[r][ii], Unanswered));
    var idx := 0;
    while idx < |rows|
      invariant 0 <= idx <= |rows| && |out| == |rows|
      invariant forall r :: 0 <= r < idx ==> out[r] == CleanedRow(rows[r], mi, ii, inputFile, floatOf)
      invariant forall r :: idx <= r < |rows| ==> out[r] == CleanRow(rows[r][mi], rows[r][ii], Unanswered)
      invariant forall r :: 0 <= r < idx ==> !HitsInfinity(rows[r], IsClaude(rows[r][mi], inputFile), floatOf)
    {
      var answers;
      answers, overflow := CleanLine(rows[idx], mi, inputFile, floatOf);
      if overflow {
        return;
      }
      out := out[idx := out[idx].(answers := answers)];
      idx := idx + 1;
    }
    overflow := false;
    assert out == CleanLines(table, mi, ii, inputFile, floatOf);
  }

  /** The conversion of each question column to `Int64`: it succeeds when every answer of
      that column fits. */
  method ConvertColumns(lines: seq<CleanRow>) returns (fits: bool)
    requires forall r :: 0 <= r < |lines| ==> |lines[r].answers| == Kept
    ensures fits <==> AllFit(lines)
  {
    for q := 0 to Kept
      invariant forall r, p :: 0 <= r < |lines| && 0 <= p < q ==> AnswerFits(lines[r].answers[p])
    {
      if exists r :: 0 <= r < |lines| && !AnswerFits(lines[r].answers[q]) {
        return false;
      }
    }
    fits := true;
  }

  /** `clean_csv` on a table already read: look up the `Model` and `Iteration` columns,
      run the row loop, then convert the question columns to `Int64`. */
  method CleanCsv(table: Table, inputFile: String, floatOf: String -> FloatInt) returns (cleaned: Result<seq<CleanRow>, CleanError>)
    requires WellFormed(table)
    ensures cleaned == Cleaned(table, inputFile, floatOf)
  {
    var m := ColumnIndex(table.columns, "Model");
    var it := ColumnIndex(table.columns, "Iteration");
    if m.None? || it.None? {
      return Err(MissingColumn);
    }
    var out, overflow := CleanRows(table, m.value, it.value, inputFile, floatOf);
    if overflow {
      return Err(InfiniteCell);
    }
    var fits := ConvertColumns(out);
    cleaned := if fits then Ok(out) else Err(OutOfInt64);
  }

  // ---------------------------------------------------------------------------
  // what the cleaner promises

  /** `clean_csv` raises the KeyError exactly when the input lacks a `Model` or an
      `Iteration` column. Given both, it writes a table exactly when no line read the
      Claude way holds an infinity among its scanned cells and every answer fits `Int64`;
      that table has one line per input line, each with that line's `Model` and
      `Iteration` cells and seventeen answers. */
  lemma {:induction false} CleanedKeepsRows(table: Table, inputFile: String, floatOf: String -> FloatInt)
    requires WellFormed(table)
    ensures Cleaned(table, inputFile, floatOf) == Err(MissingColumn)
      <==> "Model" !in table.columns || "Iteration" !in table.columns
    ensures "Model" in table.columns && "Iteration" in table.columns ==>
      var m, it := ColumnIndex(table.columns, "Model").value, ColumnIndex(table.columns, "Iteration").value;
      && (Cleaned(table, inputFile, floatOf) == Err(InfiniteCell) <==> SomeLineHitsInfinity(table, m, inputFile, floatOf))
      && (Cleaned(table, inputFile, floatOf).Ok? <==>
           !SomeLineHitsInfinity(table, m, inputFile, floatOf) && AllFit(CleanLines(table, m, it, inputFile, floatOf)))
    ensures Cleaned(table, inputFile, floatOf).Ok? ==>
      && |Cleaned(table, inputFile, floatOf).value| == |table.rows|
      && forall r :: 0 <= r < |table.rows| ==>
        && Cleaned(table, inputFile, floatOf).value[r].model == table.rows[r][ColumnIndex(table.columns, "Model").value]
        && Cleaned(table, inputFile, floatOf).value[r].iteration == table.rows[r][ColumnIndex(table.columns, "Iteration").value]
        && |Cleaned(table, inputFile, floatOf).value[r].answers| == Kept
  {
    if "Model" in table.columns {
      var i :| 0 <= i < |table.columns| && table.columns[i] == "Model";
    }
    if "Iteration" in table.columns {
      var i :| 0 <= i < |table.columns| && table.columns[i] == "Iteration";
    }
  }

  /** A line with an infinity among the cells its branch scans makes `clean_csv` raise,
      whatever the other lines hold: an infinite float in either branch, or a text
      `int(float(...))` overflows on in the Claude branch. */
  lemma {:induction false} InfinityAborts(table: Table, inputFile: String, floatOf: String -> FloatInt, r: nat, j: nat)
    requires WellFormed(table)
    requires "Model" in table.columns && "Iteration" in table.columns
    requires r < |table.rows| && j < |table.columns|
    requires FirstScanned(IsClaude(table.rows[r][ColumnIndex(table.columns, "Model").value], inputFile)) <= j
    requires InfiniteAt(table.rows[r], j, IsClaude(table.rows[r][ColumnIndex(table.columns, "Model").value], inputFile), floatOf)
    ensures Cleaned(table, inputFile, floatOf) == Err(InfiniteCell)
  {
    CleanedKeepsRows(table, inputFile, floatOf);
    var m := ColumnIndex(table.columns, "Model").value;
    assert HitsInfinity(table.rows[r], IsClaude(table.rows[r][m], inputFile), floatOf);
  }

  /** A table of lines not read the Claude way, laid out as the results file with a
      `Model` and an `Iteration` column first, is not cleaned when one of its lines holds
      an answer beyond `Int64` in each question cell: the conversion raises. */
  lemma {:induction false} OversizedAnswerAborts(table: Table, inputFile: String, floatOf: String -> FloatInt, r: nat, x: int)
    requires WellFormed(table) && |table.columns| == Kept + 4
    requires table.columns[0] == "Model" && table.columns[1] == "Iteration"
    requires forall t :: 0 <= t < |table.rows| ==> !IsClaude(table.rows[t][0], inputFile)
    requires forall t, k :: 0 <= t < |table.rows| && 2 <= k < |table.columns| ==> table.rows[t][k] != Flt(None)
    requires r < |table.rows| && x >= 0x8000_0000_0000_0000
    requires forall k :: 2 <= k < Kept + 2 ==> table.rows[r][k] == Str(IntToString(x))
    ensures Cleaned(table, inputFile, floatOf) == Err(OutOfInt64)
  {
    var cells := table.rows[r];
    assert ColumnIndex(table.columns, "Model") == Some(0);
    assert ColumnIndex(table.columns, "Iteration") == Some(1);
    var num := CellNumberOf(false, floatOf);
    forall j | 2 <= j < Kept + 2
      ensures CellNumberOf(false, floatOf)(cells[j]) == Some(x)
    {
      ExtractNumeral(x);
    }
    AnswersOfScanned(cells, num, seq(Kept, _ => x));
    var lines := CleanLines(table, 0, 1, inputFile, floatOf);
    assert lines[r].answers[0] == Some(x);
    assert !AllFit(lines);
    assert !SomeLineHitsInfinity(table, 0, inputFile, floatOf);
  }

  /** A line gets all seventeen answers or none: all of them exactly when it has at least
      seventeen numbers, and then they are its first seventeen numbers in column order. */
  lemma {:induction false} AnswersAllOrNone(numbers: seq<int>)
    ensures |Answers(numbers)| == Kept
    ensures |numbers| >= Kept ==> forall i :: 0 <= i < Kept ==> Answers(numbers)[i] == Some(numbers[i])
    ensures |numbers| < Kept ==> forall i :: 0 <= i < Kept ==> Answers(numbers)[i].None?
  {
  }

  /** The numbers collected up to a column are a prefix of those collected up to a later
      one, and there are at most as many as columns scanned. */
  lemma {:induction false} NumbersGrow(cells: seq<Cell>, num: Cell -> Option<int>, from: nat, j: nat, k: nat)
    requires j <= k <= |cells|
    ensures |NumbersUpTo(cells, num, from, j)| <= |NumbersUpTo(cells, num, from, k)|
    ensures NumbersUpTo(cells, num, from, k)[..|NumbersUpTo(cells, num, from, j)|]
      == NumbersUpTo(cells, num, from, j)
    ensures |NumbersUpTo(cells, num, from, k)| <= if k <= from then 0 else k - from
    decreases k
  {
    if j < k {
      NumbersGrow(cells, num, from, j, k - 1);
      var a := NumbersUpTo(cells, num, from, j);
      var b := NumbersUpTo(cells, num, from, k - 1);
      var c := NumbersUpTo(cells, num, from, k);
      if k > from {
        assert c[..|b|] == b;
        assert c[..|a|] == b[..|a|];
      }
    } else if k > 0 {
      NumbersGrow(cells, num, from, k - 1, k - 1);
    }
  }

  /** When every scanned cell yields a number, the numbers are exactly those, in column
      order. */
  lemma {:induction false} NumbersOfScanned(cells: seq<Cell>, num: Cell -> Option<int>, from: nat, values: seq<int>)
    requires from + |values| <= |cells|
    requires forall k :: 0 <= k < |values| ==> num(cells[from + k]) == Some(values[k])
    ensures NumbersUpTo(cells, num, from, from + |values|) == values
    decreases |values|
  {
    if values != [] {
      var last := |values| - 1;
      var front := values[..last];
      forall k | 0 <= k < |front|
        ensures num(cells[from + k]) == Some(front[k])
      {
        assert front[k] == values[k];
      }
      NumbersOfScanned(cells, num, from, front);
      var c := num(cells[from + last]);
      assert c == Some(values[last]);
      assert NumbersUpTo(cells, num, from, from + |values|)
        == NumbersUpTo(cells, num, from, from + last) + [values[last]];
      assert front + [values[last]] == values;
    }
  }

  // ---------------------------------------------------------------------------
  // cleaning what the drivers wrote

  /** The texts `pd.read_csv` reads as a missing value. */
  const NaMarkers: set<String> := {
    "", "#N/A", "#N/A N/A", "#NA", "-1.#IND", "-1.#QNAN", "-NaN", "-nan", "1.#IND", "1.#QNAN",
    "<NA>", "N/A", "NA", "NULL", "NaN", "None", "n/a", "nan", "null"}

  /** `c` is a cell `pd.read_csv` may make of the text `t` written in a line: missing for
      a missing-value marker, the number for a numeral, a float for a text `float()`
      reads (in a `float64` column), or else the text itself. Which of these pandas picks
      depends on the whole column; the relation allows each. `floatOf` stands for
      `int(float(...))`, as in the Claude branch. */
  predicate ReadsAs(t: String, c: Cell, floatOf: String -> FloatInt) {
    match c
    case NA => t in NaMarkers
    case Num(n) => Json.SignedNumeral(t) == Some(n)
    case Flt(tr) =>
      && t !in NaMarkers
      && (if floatOf(t).Converted? then tr == Some(floatOf(t).n) else floatOf(t).Infinite? && tr.None?)
    case Str(s) => s == t && t !in NaMarkers
  }

  /** A written text that is neither a missing-value marker nor a negative numeral, read
      as an integer or as text, yields its first run of digits; read as a float it yields
      what `int(float(...))` makes of it, and it is an infinity exactly when that
      overflows. So `1e3` yields 1 as text and 1000 as a float. */
  lemma {:induction false} ReadBackNumber(t: String, c: Cell, floatOf: String -> FloatInt)
    requires ReadsAs(t, c, floatOf) && t !in NaMarkers
    requires Json.SignedNumeral(t).Some? ==> Json.SignedNumeral(t).value >= 0
    ensures !c.Flt? ==> ExtractNumber(c) == FirstFound(t)
    ensures c.Flt? ==> !floatOf(t).NotNumeric? && (c == Flt(None) <==> floatOf(t).Infinite?)
    ensures c.Flt? && floatOf(t).Converted? ==> ExtractNumber(c) == Some(floatOf(t).n)
  {
    match c
    case Num(n) =>
      NumeralFound(t, n);
    case Flt(_) =>
    case Str(s) =>
      ExtractNumberIsFirstFound(s);
  }

  /** No numeral is a missing-value marker. */
  lemma {:induction false} NumeralNotMarker(s: String)
    requires |s| >= 1 && AllDigits(s)
    ensures s !in NaMarkers
  {
    assert IsDigit(s[0]);
    if |s| > 1 {
      assert IsDigit(s[1]);
    }
  }

  /** A non-negative answer written as a numeral yields itself back, however pandas
      reads the cell, when `float()` reads the numeral exactly (as it does up to 2^53). */
  lemma {:induction false} WrittenAnswerYields(x: int, c: Cell, floatOf: String -> FloatInt)
    requires x >= 0 && floatOf(IntToString(x)) == Converted(x)
    requires ReadsAs(IntToString(x), c, floatOf)
    ensures CellNumber(c, false, floatOf) == Some(x)
  {
    var t := IntToString(x);
    NumeralNotMarker(t);
    Json.IntToStringNumeral(x);
    ReadBackNumber(t, c, floatOf);
    ExtractNumberIsFirstFound(t);
    ExtractNumeral(x);
  }

  /** Cleaning a line the current driver wrote for a model that is not read the Claude way
      gives back its seventeen answers, whatever its other cells hold, provided no answer
      is negative and `float()` reads each answer exactly. */
  lemma {:induction false} CleanWrittenRow(row: FileProcessor.Row, cells: seq<Cell>, inputFile: String, floatOf: String -> FloatInt)
    requires |row.scores| == Kept && forall j :: 0 <= j < Kept ==> row.scores[j] >= 0
    requires |cells| == Kept + 4
    requires forall j :: 0 <= j < Kept ==> floatOf(IntToString(row.scores[j])) == Converted(row.scores[j])
    requires forall i :: 0 <= i < Kept + 4 ==> ReadsAs(FileProcessor.RowRecord(row, Kept)[i], cells[i], floatOf)
    requires !IsClaude(cells[0], inputFile)
    ensures Answers(Numbers(cells, false, floatOf)) == seq(Kept, j requires 0 <= j < Kept => Some(row.scores[j]))
  {
    var num := CellNumberOf(false, floatOf);
    WrittenCellsYield(row, cells, floatOf);
    AnswersOfScanned(cells, num, row.scores);
  }

  /** Each answer cell of such a line yields the answer written in it. */
  lemma {:induction false} WrittenCellsYield(row: FileProcessor.Row, cells: seq<Cell>, floatOf: String -> FloatInt)
    requires |row.scores| == Kept && forall j :: 0 <= j < Kept ==> row.scores[j] >= 0
    requires |cells| == Kept + 4
    requires forall j :: 0 <= j < Kept ==> floatOf(IntToString(row.scores[j])) == Converted(row.scores[j])
    requires forall i :: 0 <= i < Kept + 4 ==> ReadsAs(FileProcessor.RowRecord(row, Kept)[i], cells[i], floatOf)
    ensures forall k :: 0 <= k < Kept ==> CellNumberOf(false, floatOf)(cells[2 + k]) == Some(row.scores[k])
  {
    var rec := FileProcessor.RowRecord(row, Kept);
    forall k | 0 <= k < Kept
      ensures CellNumberOf(false, floatOf)(cells[2 + k]) == Some(row.scores[k])
    {
      assert rec[2 + k] == IntToString(row.scores[k]);
      WrittenAnswerYields(row.scores[k], cells[2 + k], floatOf);
    }
  }

  /** A line of twenty-one cells whose seventeen cells after the first two yield numbers
      gets those numbers as its answers, whatever its last two cells yield. */
  lemma {:induction false} AnswersOfScanned(cells: seq<Cell>, num: Cell -> Option<int>, values: seq<int>)
    requires |values| == Kept && |cells| == Kept + 4
    requires forall k :: 0 <= k < Kept ==> num(cells[2 + k]) == Some(values[k])
    ensures Answers(NumbersUpTo(cells, num, 2, |cells|)) == seq(Kept, j requires 0 <= j < Kept => Some(values[j]))
  {
    NumbersOfScanned(cells, num, 2, values);
    NumbersGrow(cells, num, 2, 2 + Kept, |cells|);
    assert NumbersUpTo(cells, num, 2, |cells|)[..Kept] == values;
  }

  /** A line read the Claude way never gets answers when it has at most nineteen columns,
      the width of the files the legacy driver writes: the Claude branch starts at the
      fourth column, so at most sixteen cells are scanned. */
  lemma {:induction false} ClaudeNarrowRowUnanswered(cells: seq<Cell>, floatOf: String -> FloatInt)
    requires |cells| <= Kept + 2
    ensures Answers(Numbers(cells, true, floatOf)) == Unanswered
  {
    NumbersGrow(cells, CellNumberOf(true, floatOf), 3, |cells|, |cells|);
  }

  /** Nor does a line of the current driver's results file read the Claude way, when its
      last two cells (the manipulation-check verdict and the explanation) do not convert:
      `Q1` is skipped, so at most sixteen numbers are found. */
  lemma {:induction false} ClaudeResultsRowUnanswered(cells: seq<Cell>, floatOf: String -> FloatInt)
    requires |cells| == Kept + 4
    requires CellNumber(cells[Kept + 2], true, floatOf).None? && CellNumber(cells[Kept + 3], true, floatOf).None?
    ensures Answers(Numbers(cells, true, floatOf)) == Unanswered
  {
    NumbersGrow(cells, CellNumberOf(true, floatOf), 3, Kept + 2, Kept + 2);
    assert NumbersUpTo(cells, CellNumberOf(true, floatOf), 3, Kept + 4) == NumbersUpTo(cells, CellNumberOf(true, floatOf), 3, Kept + 2);
  }
}
