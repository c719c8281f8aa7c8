/**
 * The two text-to-data readers of the engine: the error-matrix CSV reader and the
 * denomination ledger sum of a cash line.
 */
module Parsers {
  import opened Wrappers
  import opened Text

  // ---------------------------------------------------------------------------
  // Error matrix
  // ---------------------------------------------------------------------------

  const CODE_KEY: string := "CODIGO DE ERROR"
  const CODE_KEY_ACCENTED: string := "CÓDIGO DE ERROR"
  const DESCRIPTION_KEY: string := "DESCRIPCION DEL CODIGO"
  const CATEGORY_KEY: string := "CATEGORIA"
  const SUB_CATEGORY_KEY: string := "SUB CATEGORIA"
  const SOLUTION_KEY: string := "TIPO DE SOLUCIÓN"
  const RECOVERY_KEY: string := "TIEMPO DE RECUPERACION (MIN)"

  const NO_DESCRIPTION: string := "Sin descripción"
  const GENERAL_CATEGORY: string := "General"
  const NO_RECOVERY_TIME: string := "0"

  /** One row of the error matrix, with its defaults filled in. The recovery time stays text,
      as the matrix holds it. */
  datatype MatrixEntry = MatrixEntry(code: string, description: string, category: string,
                                     subCategory: string, solutionType: string,
                                     recoveryMinutes: string)

  /** The lines of the text that are not blank, in order (`split('\n')` then the filter). */
  function NonBlankLines(text: string): (lines: seq<string>)
  {
    KeepNonBlank(Split(text, '\n'))
  }

  function KeepNonBlank(ls: seq<string>): (r: seq<string>)
    ensures |r| <= |ls|
  {
    if ls == [] then []
    else (if Trim(ls[0]) != "" then [ls[0]] else []) + KeepNonBlank(ls[1..])
  }

  /** The filter keeps the lines that are not blank and drops the blank ones. */
  lemma {:induction false} KeepNonBlankSpec(ls: seq<string>)
    ensures forall k :: 0 <= k < |KeepNonBlank(ls)| ==>
              !IsBlank(KeepNonBlank(ls)[k]) && KeepNonBlank(ls)[k] in ls
    ensures forall l :: l in ls && !IsBlank(l) ==> l in KeepNonBlank(ls)
  {
    if ls != [] {
      KeepNonBlankSpec(ls[1..]);
      TrimSpec(ls[0]);
      assert forall l :: l in ls ==> l == ls[0] || l in ls[1..];
    }
  }

  /** A line whose upper-case form names the error-code column, in either spelling. */
  predicate IsHeaderLine(line: string) {
    var upper := ToUpper(line);
    Contains(upper, CODE_KEY) || Contains(upper, CODE_KEY_ACCENTED)
  }

  /** The index of the first header line, or `|lines|` when there is none. */
  function FirstHeader(lines: seq<string>): (i: nat)
    ensures i <= |lines|
  {
    if lines == [] || IsHeaderLine(lines[0]) then 0 else 1 + FirstHeader(lines[1..])
  }

  lemma {:induction false} FirstHeaderSpec(lines: seq<string>)
    ensures FirstHeader(lines) < |lines| ==> IsHeaderLine(lines[FirstHeader(lines)])
    ensures forall j :: 0 <= j < FirstHeader(lines) ==> !IsHeaderLine(lines[j])
  {
    if lines != [] && !IsHeaderLine(lines[0]) {
      FirstHeaderSpec(lines[1..]);
    }
  }

  /** The line the column names are read from: the first header line, else line 0. */
  function HeaderIndex(lines: seq<string>): (h: nat)
    requires lines != []
    ensures h < |lines|
  {
    var i := FirstHeader(lines);
    if i < |lines| then i else 0
  }

  /** The header line is the first line naming the code column; with no such line it is line 0. */
  lemma HeaderIndexSpec(lines: seq<string>)
    requires lines != []
    ensures (exists i :: 0 <= i < |lines| && IsHeaderLine(lines[i])) ==>
              IsHeaderLine(lines[HeaderIndex(lines)]) &&
              forall j :: 0 <= j < HeaderIndex(lines) ==> !IsHeaderLine(lines[j])
    ensures (forall i :: 0 <= i < |lines| ==> !IsHeaderLine(lines[i])) ==> HeaderIndex(lines) == 0
  {
    FirstHeaderSpec(lines);
  }

  /** A CSV cell with surrounding white space and one pair of enclosing quotes removed. */
  function Clean(cell: string): string {
    StripQuotes(Trim(cell))
  }

  /** The column names of the header line: quote-aware split, cleaned, upper-cased. */
  function Headers(line: string): (headers: seq<string>)
    ensures |headers| == |SplitFields(line)|
  {
    var cells := SplitFields(line);
    seq(|cells|, k requires 0 <= k < |cells| => ToUpper(Clean(cells[k])))
  }

  /** The cells of a data row, each with white space and one pair of quotes removed. */
  function Cells(row: seq<string>): (cells: seq<string>)
    ensures |cells| == |row|
  {
    seq(|row|, j requires 0 <= j < |row| => Clean(row[j]))
  }

  /** The cell under column `j`, or "" when the row is shorter. */
  function CellAt(cells: seq<string>, j: nat): string {
    if j < |cells| then cells[j] else ""
  }

  /** The `entry` object filled by the `forEach` over the headers: column by column, a later
      column with the same name overwriting an earlier one. */
  function EntryOf(headers: seq<string>, cells: seq<string>): map<string, string>
  {
    if headers == [] then map[]
    else EntryOf(headers[..|headers| - 1], cells)[headers[|headers| - 1] := CellAt(cells, |headers| - 1)]
  }

  /** The last column that carries the name `h`. */
  function LastIndex(headers: seq<string>, h: string): (k: nat)
    requires h in headers
    ensures k < |headers| && headers[k] == h
    ensures forall j :: k < j < |headers| ==> headers[j] != h
  {
    if headers[|headers| - 1] == h then |headers| - 1
    else LastIndex(headers[..|headers| - 1], h)
  }

  /** An entry has exactly the column names as keys, and under a repeated name it holds the
      cell of the last column with that name. */
  lemma {:induction false} EntryOfColumns(headers: seq<string>, cells: seq<string>)
    ensures EntryOf(headers, cells).Keys == set h | h in headers
    ensures forall h :: h in headers ==> EntryOf(headers, cells)[h] == CellAt(cells, LastIndex(headers, h))
  {
    if headers != [] {
      var init := headers[..|headers| - 1];
      EntryOfColumns(init, cells);
      assert headers == init + [headers[|headers| - 1]];
      forall h | h in headers
        ensures EntryOf(headers, cells)[h] == CellAt(cells, LastIndex(headers, h))
      {
        if h != headers[|headers| - 1] { assert h in init; }
      }
    }
  }

  /** JavaScript's `entry[key]` read as a string: a missing key reads like "". */
  function Field(entry: map<string, string>, key: string): string {
    if key in entry then entry[key] else ""
  }

  /** `v || default`. */
  function OrDefault(v: string, default: string): string {
    if v != "" then v else default
  }

  /** The code an entry carries, under either spelling of the column name. */
  function CodeOf(entry: map<string, string>): string {
    OrDefault(Field(entry, CODE_KEY), Field(entry, CODE_KEY_ACCENTED))
  }

  /** The matrix entry built from one field map, when its code is longer than two characters. */
  function EntryFromFields(entry: map<string, string>): Option<MatrixEntry>
  {
    var code := CodeOf(entry);
    if |code| > 2 then
      Some(MatrixEntry(code,
                       OrDefault(Field(entry, DESCRIPTION_KEY), NO_DESCRIPTION),
                       OrDefault(Field(entry, CATEGORY_KEY), GENERAL_CATEGORY),
                       Field(entry, SUB_CATEGORY_KEY),
                       Field(entry, SOLUTION_KEY),
                       OrDefault(Field(entry, RECOVERY_KEY), NO_RECOVERY_TIME)))
    else None
  }

  /** The matrix entry one data line yields under the given column names, if any. */
  function RowEntry(headers: seq<string>, line: string): Option<MatrixEntry>
  {
    EntryFromFields(EntryOf(headers, Cells(SplitFields(line))))
  }

  /** What each line from index `from` on yields under the given column names. */
  function RowEntries(headers: seq<string>, lines: seq<string>, from: nat): (found: seq<Option<MatrixEntry>>)
    requires from <= |lines|
    ensures |found| == |lines| - from
  {
    seq(|lines| - from, i requires 0 <= i < |lines| - from => RowEntry(headers, lines[from + i]))
  }

  /** What `parseMatrixCSV` returns for `text`: the entries of the lines after the header line. */
  function MatrixOf(text: string): seq<MatrixEntry>
  {
    var lines := NonBlankLines(text);
    if |lines| < 2 then []
    else
      var h := HeaderIndex(lines);
      Somes(RowEntries(Headers(lines[h]), lines, h + 1))
  }

  /** `parseMatrixCSV`: finds the header line, reads every later line into a field map column by
      column, and keeps the rows whose code is longer than two characters. */
  method ParseMatrixCSV(text: string) returns (data: seq<MatrixEntry>)
    ensures data == MatrixOf(text)
    ensures |NonBlankLines(text)| < 2 ==> data == []
    ensures forall k :: 0 <= k < |data| ==> |data[k].code| > 2
  {
    var lines := NonBlankLines(text);
    if |lines| < 2 {
      return [];
    }
    var headerIndex, headers := FindHeader(lines);
    data := ReadRows(headers, lines, headerIndex + 1);
  }

  /** The data loop of `parseMatrixCSV`: every line from `from` on, in order, keeping the entries
      found. */
  method ReadRows(headers: seq<string>, lines: seq<string>, from: nat) returns (data: seq<MatrixEntry>)
    requires from <= |lines|
    ensures data == Somes(RowEntries(headers, lines, from))
    ensures forall k :: 0 <= k < |data| ==> |data[k].code| > 2
  {
    ghost var rows := RowEntries(headers, lines, from);
    data := [];
    var r := from;
    while r < |lines|
      invariant from <= r <= |lines|
      invariant data == Somes(rows[..r - from])
    {
      var found := ReadEntry(headers, lines[r]);
      ReadRowsStep(headers, lines, from, r);
      if found.Some? {
        data := data + [found.value];
      }
      r := r + 1;
    }
    assert rows[..r - from] == rows;
    RowEntriesLong(headers, lines, from);
    LongCodesKept(rows);
  }

  lemma RowEntriesLong(headers: seq<string>, lines: seq<string>, from: nat)
    requires from <= |lines|
    ensures var rows := RowEntries(headers, lines, from);
      forall i :: 0 <= i < |rows| && rows[i].Some? ==> |rows[i].value.code| > 2
  {
  }

  /** Every entry kept has a code longer than two characters, as each line's entry has. */
  lemma LongCodesKept(rows: seq<Option<MatrixEntry>>)
    requires forall i :: 0 <= i < |rows| && rows[i].Some? ==> |rows[i].value.code| > 2
    ensures forall k :: 0 <= k < |Somes(rows)| ==> |Somes(rows)[k].code| > 2
  {
    forall k | 0 <= k < |Somes(rows)|
      ensures |Somes(rows)[k].code| > 2
    {
      var i := SomesFrom(rows, Somes(rows)[k]);
    }
  }

  /** One more line read: its entry, if any, follows those of the lines before it. */
  lemma ReadRowsStep(headers: seq<string>, lines: seq<string>, from: nat, r: nat)
    requires from <= r < |lines|
    ensures Somes(RowEntries(headers, lines, from)[..r - from + 1])
         == Somes(RowEntries(headers, lines, from)[..r - from])
            + RowEntry(headers, lines[r]).ToSeq()
  {
    var rows := RowEntries(headers, lines, from);
    assert rows[..r - from + 1] == rows[..r - from] + [RowEntry(headers, lines[r])];
    SomesSnoc(rows[..r - from], RowEntry(headers, lines[r]));
  }

  /** The header search of `parseMatrixCSV`: the first line naming the code column, else line 0,
      and its column names. */
  method FindHeader(lines: seq<string>) returns (headerIndex: nat, headers: seq<string>)
    requires lines != []
    ensures headerIndex == HeaderIndex(lines)
    ensures headers == Headers(lines[headerIndex])
  {
    var i := 0;
    while i < |lines|
      invariant 0 <= i <= |lines|
      invariant forall j :: 0 <= j < i ==> !IsHeaderLine(lines[j])
    {
      if IsHeaderLine(lines[i]) {
        FirstHeaderSpec(lines);
        return i, Headers(lines[i]);
      }
      i := i + 1;
    }
    FirstHeaderSpec(lines);
    headerIndex := 0;
    headers := Headers(lines[0]);
  }

  /** One data line of `parseMatrixCSV`: its field map, and the matrix entry built from it when its
      code is longer than two characters. */
  method ReadEntry(headers: seq<string>, line: string) returns (found: Option<MatrixEntry>)
    ensures found == RowEntry(headers, line)
    ensures found.Some? ==> |found.value.code| > 2
  {
    var entry := ReadRow(headers, line);
    var code := CodeOf(entry);
    if |code| > 2 {
      found := Some(MatrixEntry(code,
                                OrDefault(Field(entry, DESCRIPTION_KEY), NO_DESCRIPTION),
                                OrDefault(Field(entry, CATEGORY_KEY), GENERAL_CATEGORY),
                                Field(entry, SUB_CATEGORY_KEY),
                                Field(entry, SOLUTION_KEY),
                                OrDefault(Field(entry, RECOVERY_KEY), NO_RECOVERY_TIME)));
    } else {
      found := None;
    }
  }

  /** The `forEach` over the headers for one data line: the field map column by column. */
  method ReadRow(headers: seq<string>, line: string) returns (entry: map<string, string>)
    ensures entry == EntryOf(headers, Cells(SplitFields(line)))
  {
    var cells := Cells(SplitFields(line));
    entry := map[];
    var k := 0;
    while k < |headers|
      invariant 0 <= k <= |headers|
      invariant entry == EntryOf(headers[..k], cells)
    {
      assert headers[..k + 1][..k] == headers[..k];
      entry := entry[headers[k] := CellAt(cells, k)];
      k := k + 1;
    }
    assert headers[..k] == headers;
  }

  /** Only lines after the header line become entries, and each of them does so through its
      own field map. */
  lemma EntriesFollowHeader(text: string, e: MatrixEntry) returns (i: nat)
    requires e in MatrixOf(text)
    ensures var lines := NonBlankLines(text);
            |lines| >= 2 && HeaderIndex(lines) < i < |lines| &&
            RowEntry(Headers(lines[HeaderIndex(lines)]), lines[i]) == Some(e)
  {
    var lines := NonBlankLines(text);
    assert |lines| >= 2;
    var h := HeaderIndex(lines);
    i := RowFrom(Headers(lines[h]), lines, h + 1, e);
  }

  /** An entry read from the lines from `from` on comes from one of them. */
  lemma RowFrom(headers: seq<string>, lines: seq<string>, from: nat, e: MatrixEntry) returns (i: nat)
    requires from <= |lines| && e in Somes(RowEntries(headers, lines, from))
    ensures from <= i < |lines| && RowEntry(headers, lines[i]) == Some(e)
  {
    var k := SomesFrom(RowEntries(headers, lines, from), e);
    i := from + k;
  }

  /** The defaults of a row: a column the header does not name reads as 'Sin descripción',
      'General', '', '' and '0', and the description, category and recovery time of an entry are
      never empty. */
  lemma MissingColumnsDefault(headers: seq<string>, line: string)
    requires RowEntry(headers, line).Some?
    ensures var e := RowEntry(headers, line).value;
            |e.code| > 2 && e.description != "" && e.category != "" && e.recoveryMinutes != "" &&
            (DESCRIPTION_KEY !in headers ==> e.description == NO_DESCRIPTION) &&
            (CATEGORY_KEY !in headers ==> e.category == GENERAL_CATEGORY) &&
            (SUB_CATEGORY_KEY !in headers ==> e.subCategory == "") &&
            (SOLUTION_KEY !in headers ==> e.solutionType == "") &&
            (RECOVERY_KEY !in headers ==> e.recoveryMinutes == NO_RECOVERY_TIME)
  {
    EntryOfColumns(headers, Cells(SplitFields(line)));
  }

  /** A data line whose code cell is two characters or shorter is dropped. */
  lemma ShortCodeDropped(headers: seq<string>, line: string)
    requires |CodeOf(EntryOf(headers, Cells(SplitFields(line))))| <= 2
    ensures RowEntry(headers, line) == None
  {
  }

  /** A quoted cell keeps the commas inside it: after any line prefix `a`, the cell `"b"` (with no
      quote inside `b`) stays one field. */
  lemma QuotedCellStaysWhole(a: string, b: string)
    requires '"' !in b
    ensures SplitFields(a + [','] + (['"'] + b + ['"'])) == SplitFields(a) + [['"'] + b + ['"']]
  {
    QuotedHasNoFieldComma(b);
    SplitBeforeTail(a, ['"'] + b + ['"']);
  }

  lemma {:induction false} QuoteFreeCount(b: string)
    requires '"' !in b
    ensures QuoteCount(b) == 0
  {
    if b != [] {
      assert b[0] in b;
      assert forall c :: c in b[1..] ==> c in b;
      QuoteFreeCount(b[1..]);
    }
  }

  /** `"b"` has two quotes, and every comma in it is followed by exactly one. */
  lemma QuotedHasNoFieldComma(b: string)
    requires '"' !in b
    ensures var t := ['"'] + b + ['"'];
            QuoteCount(t) % 2 == 0 && FieldCommaIndex(t) == |t|
  {
    var t := ['"'] + b + ['"'];
    QuoteFreeCount(b);
    QuoteCountAppend(['"'] + b, ['"']);
    QuoteCountAppend(['"'], b);
    FieldCommaIndexFirst(t);
    forall j | 1 <= j <= |b| ensures !IsFieldComma(t, j) {
      assert t[j + 1..] == b[j..] + ['"'];
      assert '"' !in b[j..] by { assert forall c :: c in b[j..] ==> c in b; }
      QuoteFreeCount(b[j..]);
      QuoteCountAppend(b[j..], ['"']);
    }
  }

  /** Splitting `a , t` when the tail `t` has an even number of quotes and no field comma of its
      own: the commas of `a` split as they do in `a` alone, and `t` is the last field. */
  lemma {:induction false} SplitBeforeTail(a: string, t: string)
    requires QuoteCount(t) % 2 == 0 && FieldCommaIndex(t) == |t|
    ensures SplitFields(a + [','] + t) == SplitFields(a) + [t]
    decreases |a|
  {
    var s := a + [','] + t;
    var i := FieldCommaIndex(a);
    FirstCommaBeforeTail(a, t);
    if i < |a| {
      var rest := a[i + 1..];
      assert s[..i] == a[..i];
      assert s[i + 1..] == rest + [','] + t;
      SplitBeforeTail(rest, t);
      SplitFieldsAt(s, i);
      SplitFieldsAt(a, i);
      assert SplitFields(s) == [a[..i]] + (SplitFields(rest) + [t]);
    } else {
      assert s[..|a|] == a;
      assert s[|a| + 1..] == t;
    }
  }

  /** A split at the first field comma. */
  lemma SplitFieldsAt(s: string, i: nat)
    requires i == FieldCommaIndex(s) < |s|
    ensures SplitFields(s) == [s[..i]] + SplitFields(s[i + 1..])
  {
  }

  /** The first field comma of `a , t` is the first of `a`, or the joining comma. */
  lemma FirstCommaBeforeTail(a: string, t: string)
    requires QuoteCount(t) % 2 == 0
    ensures FieldCommaIndex(a + [','] + t) == FieldCommaIndex(a)
  {
    var s := a + [','] + t;
    CommasBeforeTail(a, t);
    FieldCommaIndexFirst(a);
    FieldCommaIndexFirst(s);
  }

  /** A comma of `a` is a field comma of `a , t` exactly when it is one of `a`, and the joining
      comma is a field comma. */
  lemma CommasBeforeTail(a: string, t: string)
    requires QuoteCount(t) % 2 == 0
    ensures forall j :: 0 <= j < |a| ==> (IsFieldComma(a + [','] + t, j) <==> IsFieldComma(a, j))
    ensures IsFieldComma(a + [','] + t, |a|)
  {
    var s := a + [','] + t;
    forall j | 0 <= j < |a| ensures IsFieldComma(s, j) <==> IsFieldComma(a, j) {
      CommaBeforeTail(a, t, j);
    }
    assert s[|a| + 1..] == t;
  }

  lemma CommaBeforeTail(a: string, t: string, j: nat)
    requires QuoteCount(t) % 2 == 0 && j < |a|
    ensures IsFieldComma(a + [','] + t, j) <==> IsFieldComma(a, j)
  {
    TailQuotes(a, t, j);
    EvenAdd(QuoteCount(a[j + 1..]), QuoteCount(t));
    assert (a + [','] + t)[j] == a[j];
  }

  /** The quotes after a position of `a`, in `a , t`, are those after it in `a` plus those of `t`. */
  lemma TailQuotes(a: string, t: string, j: nat)
    requires j < |a|
    ensures QuoteCount((a + [','] + t)[j + 1..]) == QuoteCount(a[j + 1..]) + QuoteCount(t)
  {
    var r := a[j + 1..];
    assert (a + [','] + t)[j + 1..] == (r + [',']) + t;
    QuoteCountAppend(r + [','], t);
    QuoteCountAppend(r, [',']);
    assert QuoteCount([',']) == 0;
  }

  lemma EvenAdd(x: nat, y: nat)
    requires y % 2 == 0
    ensures (x + y) % 2 == x % 2
  {
  }

  // ---------------------------------------------------------------------------
  // Cash ledger
  // ---------------------------------------------------------------------------

  /** Where the ledger starts in a comma-split cash line. */
  const LEDGER_START: nat := 6

  /** `parseFloat` of every field of a line (None for NaN). */
  function Numbers(parts: seq<string>): (nums: seq<Option<real>>)
    ensures |nums| == |parts|
    ensures forall k :: 0 <= k < |parts| ==> nums[k] == ParseFloat(parts[k])
  {
    seq(|parts|, k requires 0 <= k < |parts| => ParseFloat(parts[k]))
  }

  /** What the triple (denomination, currency, count) at `i` adds: the product of its outer two
      numbers, or nothing when either is NaN. */
  function TripleValue(nums: seq<Option<real>>, i: nat): real
    requires i + 2 < |nums|
  {
    match (nums[i], nums[i + 2])
    case (Some(denomination), Some(count)) => denomination * count
    case _ => 0.0
  }

  /** The running total of the triples at `i`, `i + 3`, ... whose third field exists. */
  function LedgerFrom(nums: seq<Option<real>>, i: nat): real
    decreases |nums| - i
  {
    if i + 2 >= |nums| then 0.0 else TripleValue(nums, i) + LedgerFrom(nums, i + 3)
  }

  /** The total of a ledger line. */
  function LedgerTotal(parts: seq<string>): real {
    LedgerFrom(Numbers(parts), LEDGER_START)
  }

  /** `calculateCashAmount`: a stride-3 loop from index 6 that stops when a triple has no third
      field and adds `denomination * count` for each triple whose two numbers parse. */
  method CalculateCashAmount(parts: seq<string>) returns (total: real)
    ensures total == LedgerTotal(parts)
  {
    ghost var nums := Numbers(parts);
    total := 0.0;
    var i := LEDGER_START;
    while i < |parts|
      invariant LEDGER_START <= i
      invariant total + LedgerFrom(nums, i) == LedgerTotal(parts)
      decreases |parts| - i
    {
      if i + 2 >= |parts| {
        break;
      }
      var denomination := ParseFloat(parts[i]);
      var count := ParseFloat(parts[i + 2]);
      if denomination.Some? && count.Some? {
        total := total + denomination.value * count.value;
      }
      i := i + 3;
    }
  }

  /** A triple position of the ledger: 6, 9, 12, ... */
  predicate IsTripleStart(i: nat) {
    i >= LEDGER_START && (i - LEDGER_START) % 3 == 0
  }

  /** A line of eight fields or fewer holds no complete triple and adds up to 0. */
  lemma ShortLedgerIsZero(parts: seq<string>)
    requires |parts| <= 8
    ensures LedgerTotal(parts) == 0.0
  {
  }

  /** Appending a whole triple to a line that ends on a triple boundary adds exactly that
      triple's value; one or two trailing fields add nothing. */
  lemma LedgerAppend(parts: seq<string>, d: string, c: string, n: string)
    requires IsTripleStart(|parts|)
    ensures LedgerTotal(parts + [d]) == LedgerTotal(parts)
    ensures LedgerTotal(parts + [d, c]) == LedgerTotal(parts)
    ensures LedgerTotal(parts + [d, c, n]) == LedgerTotal(parts) + TripleValue(Numbers([d, c, n]), 0)
  {
    var nums := Numbers(parts);
    assert Numbers(parts + [d]) == nums + Numbers([d]);
    assert Numbers(parts + [d, c]) == nums + Numbers([d, c]);
    assert Numbers(parts + [d, c, n]) == nums + Numbers([d, c, n]);
    LedgerAppendFrom(nums, Numbers([d]), LEDGER_START);
    LedgerAppendFrom(nums, Numbers([d, c]), LEDGER_START);
    LedgerAppendFrom(nums, Numbers([d, c, n]), LEDGER_START);
  }

  lemma {:induction false} LedgerAppendFrom(nums: seq<Option<real>>, tail: seq<Option<real>>, i: nat)
    requires 1 <= |tail| <= 3 && IsTripleStart(i) && i <= |nums| && IsTripleStart(|nums|)
    ensures LedgerFrom(nums + tail, i) ==
            LedgerFrom(nums, i) + (if |tail| == 3 then TripleValue(tail, 0) else 0.0)
    decreases |nums| - i
  {
    var s := nums + tail;
    if i == |nums| {
      if |tail| == 3 {
        assert s[i] == tail[0] && s[i + 2] == tail[2];
        assert LedgerFrom(s, i + 3) == 0.0;
      }
    } else {
      assert i + 3 <= |nums|;
      assert s[i] == nums[i] && s[i + 2] == nums[i + 2];
      LedgerAppendFrom(nums, tail, i + 3);
    }
  }

  /** Only the first and third field of each triple are read: the fields before index 6 and the
      middle (currency) field of every triple can be anything. */
  lemma LedgerIgnoresOtherFields(parts: seq<string>, k: nat, v: string)
    requires k < |parts| && (k < LEDGER_START || (k - LEDGER_START) % 3 == 1)
    ensures LedgerTotal(parts[k := v]) == LedgerTotal(parts)
  {
    assert Numbers(parts[k := v]) == Numbers(parts)[k := ParseFloat(v)];
    LedgerIgnoresFrom(Numbers(parts), k, ParseFloat(v), LEDGER_START);
  }

  lemma {:induction false} LedgerIgnoresFrom(nums: seq<Option<real>>, k: nat, v: Option<real>, i: nat)
    requires k < |nums| && (k < LEDGER_START || (k - LEDGER_START) % 3 == 1) && IsTripleStart(i)
    ensures LedgerFrom(nums[k := v], i) == LedgerFrom(nums, i)
    decreases |nums| - i
  {
    if i + 2 < |nums| {
      assert nums[k := v][i] == nums[i] && nums[k := v][i + 2] == nums[i + 2];
      LedgerIgnoresFrom(nums, k, v, i + 3);
    }
  }

  /** Replacing the two numbers of one triple changes the total by the change in that triple's
      value and nothing else. */
  lemma {:induction false} TripleReplaced(nums: seq<Option<real>>, j: nat, d: Option<real>, n: Option<real>, i: nat)
    requires IsTripleStart(j) && j + 2 < |nums| && IsTripleStart(i)
    ensures var q := nums[j := d][j + 2 := n];
            LedgerFrom(q, i) ==
            LedgerFrom(nums, i) + (if i <= j then TripleValue(q, j) - TripleValue(nums, j) else 0.0)
    decreases |nums| - i
  {
    var q := nums[j := d][j + 2 := n];
    if i + 2 < |nums| {
      TripleReplaced(nums, j, d, n, i + 3);
      assert i < j ==> i + 3 <= j by {
        assert (j - LEDGER_START) - (i - LEDGER_START) == j - i;
      }
      if i != j {
        assert q[i] == nums[i] && q[i + 2] == nums[i + 2];
      } else {
        assert LedgerFrom(q, i) == TripleValue(q, j) + LedgerFrom(q, i + 3);
      }
    }
  }

  /** A triple whose denomination or count fails to parse is skipped: the total equals the total
      with that triple's two numbers replaced by "0", every other triple counting as before. */
  lemma UnparsableTripleSkipped(parts: seq<string>, j: nat)
    requires IsTripleStart(j) && j + 2 < |parts|
    requires ParseFloat(parts[j]).None? || ParseFloat(parts[j + 2]).None?
    ensures LedgerTotal(parts) == LedgerTotal(parts[j := "0"][j + 2 := "0"])
  {
    ParseFloatOfDigits("0");
    var nums := Numbers(parts);
    assert Numbers(parts[j := "0"][j + 2 := "0"]) == nums[j := Some(0.0)][j + 2 := Some(0.0)];
    TripleReplaced(nums, j, Some(0.0), Some(0.0), LEDGER_START);
  }

  /** When every number the ledger reads is non-negative, so is the total. */
  lemma LedgerNonNegative(parts: seq<string>)
    requires forall i: nat :: IsTripleStart(i) && i + 2 < |parts| ==>
               ParseFloat(parts[i]).GetOr(0.0) >= 0.0 && ParseFloat(parts[i + 2]).GetOr(0.0) >= 0.0
    ensures LedgerTotal(parts) >= 0.0
  {
    LedgerNonNegativeFrom(Numbers(parts), LEDGER_START);
  }

  lemma {:induction false} LedgerNonNegativeFrom(nums: seq<Option<real>>, i: nat)
    requires IsTripleStart(i)
    requires forall i: nat :: IsTripleStart(i) && i + 2 < |nums| ==>
               nums[i].GetOr(0.0) >= 0.0 && nums[i + 2].GetOr(0.0) >= 0.0
    ensures LedgerFrom(nums, i) >= 0.0
    decreases |nums| - i
  {
    if i + 2 < |nums| {
      LedgerNonNegativeFrom(nums, i + 3);
      match (nums[i], nums[i + 2])
      case (Some(d), Some(c)) =>
        assert d >= 0.0 && c >= 0.0;
        assert d * c >= 0.0;
      case _ =>
    }
  }
}
