# Log reconciliation and incident dictum — a Dafny model

The application reconciles ATM cash logs with a matrix of error codes. It models these pieces:

- **Matrix CSV reader.** It finds the header line, splits lines on commas outside quotes, reads each row into a field map and keeps the rows whose error code is longer than two characters.
- **Cash ledger total.** A cash line holds triples of (denomination, currency, count) from field 6 on. The total is the sum of denomination × count.
- **Log-file processing.** Files are classified by name (collect, deposit, unverified, or error candidate); files are processed in chunks of 50 with a progress sequence.
  - A cash file yields a record read from its last non-blank line.
  - An error file yields the `E` + five hex-digit codes it mentions, each looked up in the matrix.
  - The results are merged into per-type lists. Collect and deposit are sorted newest first.
- **The derived views**:
  - the top ten error codes;
  - the daily error trend;
  - the per-category counts;
  - the cash totals;
  - the deposit success rate.
- **Claim validation of the dictum screen.** A claim is justified by an unverified deposit within $2 of the claimed difference, or by an error log within an hour of the claimed time. Failing both, deposit activity within half an hour is reported. The list of claims has two totals: claimed and justified.
- **Text stage of the incident-report reader.** It cleans the recognised text, finds the folio, and reads the candidate dates three ways: "Op DE-100" log lines, verbal dates, and plain d/m/yyyy dates. Then `analyzeDiscrepancy` looks for an error log on the same calendar day.
- **Asset inventory handlers and the asset-detail indicators**:
  - adding a service sheet and updating an asset;
  - selecting an asset, combining logs, changing tab;
  - service count, corrective count, hours, days active, MTBF and health score;
  - the two form submissions.

Modules follow the program's structure:

| module | models |
|---|---|
| `Wrappers` | Option and the values kept from a sequence of options (the `push` inside a loop). |
| `Text` | The string built-ins the code relies on: `trim`, `split`, `includes`, `toUpperCase`, `parseFloat`, `Number`, and the quote-aware comma split. |
| `Calendar` | The `Date` constructor's day and time arithmetic. |
| `Scanning` | The `while ((m = re.exec(text)) !== null)` loop and the non-global `match`. |
| `Sorting` | `Array.prototype.sort` with a numeric comparator. |
| `Tally` | The count-by-key maps built with `forEach`. |
| `Parsers` | `src/utils/parsers.js`. |
| `LogAnalysis` | `processLogFiles`. |
| `Aggregates` | Its memos. |
| `Dictum` | `DictumView.jsx`. |
| `Incidence` | `incidenceParser.js`. |
| `Inventory` | `App.jsx` and `AssetDetail.jsx`. |

Loops of the source are methods with loop invariants, each proved against a function of its inputs. These are the matrix reader, the ledger total, the chunk loop and its merge, the tallies, the validation searches, the regex loops and the day search. React state updates are functions from the old state to the new one.

## Model

| member | source | states |
|---|---|---|
| Wrappers.SomesAppend | src/hooks/useLogAnalysis.js:140-149 | The values pushed by two consecutive runs of a loop are those of the first followed by those of the second. |
| Wrappers.SomesSnoc | src/hooks/useLogAnalysis.js:140-149 | One more turn of a pushing loop appends exactly what that turn pushed. |
| Wrappers.SomesMember | src/hooks/useLogAnalysis.js:140-149 | A value is pushed if and only if some turn produced it. |
| Wrappers.SomesFrom | src/hooks/useLogAnalysis.js:140-149 | Every pushed value comes from a turn that produced it; the lemma returns that turn. |
| Wrappers.SomesHas | src/hooks/useLogAnalysis.js:140-149 | Every value a turn produced is among the pushed ones. |
| Wrappers.SomesLength | src/hooks/useLogAnalysis.js:140-149 | A loop pushes at most one value per turn. |
| Text.TrimStartSpec | src/utils/parsers.js:7 | `trimStart` removes exactly the leading white space: the result is a suffix that is empty or starts with a non-space. |
| Text.TrimEndSpec | src/utils/parsers.js:7 | `trimEnd` removes exactly the trailing white space: the result is a prefix that is empty or ends with a non-space. |
| Text.TrimSpec | src/utils/parsers.js:7 | A trimmed line is empty exactly when the line is blank; otherwise it starts and ends with a non-space. |
| Text.TrimStart | src/utils/parsers.js:7 | Trimming the start never lengthens the text. |
| Text.TrimEnd | src/utils/parsers.js:7 | Trimming the end never lengthens the text. |
| Text.Trim | src/utils/parsers.js:7 | Trimming never lengthens the text. |
| Text.ContainsSpec | src/hooks/useLogAnalysis.js:75-79 | `includes` holds exactly when the pattern occurs at some position. |
| Text.IndexOfFirst | src/hooks/useLogAnalysis.js:81 | The index `split` cuts at is the first occurrence of the character, or the length when there is none. |
| Text.IndexOf | src/hooks/useLogAnalysis.js:81 | The index found lies within the text or at its end. |
| Text.Split | src/hooks/useLogAnalysis.js:81 | `split` always yields at least one field. |
| Text.SplitJoin | src/hooks/useLogAnalysis.js:80-84 | `split` yields fields free of the separator, and joining them with it gives back the text. |
| Text.QuoteCountAppend | src/utils/parsers.js:37 | Quote counts add up over concatenation. |
| Text.FieldCommaIndexFirst | src/utils/parsers.js:37 | The split point is the first comma followed by an even number of quotes, or the end of the line. |
| Text.FieldCommaIndex | src/utils/parsers.js:37 | The split point lies within the line or at its end. |
| Text.SplitFields | src/utils/parsers.js:37 | The quote-aware split always yields at least one field. |
| Text.SplitFieldsJoin | src/utils/parsers.js:37 | Splitting on commas outside quotes and joining with commas gives back the line. |
| Text.StripQuotes | src/utils/parsers.js:41 | Removing the enclosing quotes drops one leading and one trailing quote, and leaves a quote-free cell unchanged. |
| Text.ToUpper | src/hooks/useLogAnalysis.js:72 | Upper-casing keeps the length. |
| Text.ToLowerAscii | src/utils/incidenceParser.js:112 | Lower-casing keeps the length. |
| Text.DigitRunMaximal | src/utils/incidenceParser.js:89 | A digit run consists of digits and stops at the end or before a non-digit. |
| Text.DigitRunAll | src/utils/incidenceParser.js:89 | In a string of digits, the run from `i` reaches the end. |
| Text.DigitRun | src/utils/incidenceParser.js:89 | A digit run lies within the text. |
| Text.ExponentPart | src/utils/parsers.js:72-73 | `parseFloat`'s exponent part never reads past the text. |
| Text.DecimalPrefix | src/utils/parsers.js:72-73 | `parseFloat`'s numeric prefix, when there is one, is non-empty and lies within the text. |
| Text.ParseFloatOfDigits | src/utils/parsers.js:72-73 | `parseFloat` of a string of digits is its decimal value. |
| Calendar.EpochIsDayZero | src/utils/incidenceParser.js:104 | The civil day count and `MakeDay` put 1 January 1970 at day 0. |
| Calendar.CivilEpoch | src/utils/incidenceParser.js:104 | 1 January 1970 is day 0 of the civil day count. |
| Calendar.MonthLengths | src/utils/incidenceParser.js:104 | The months from January to November other than February have their lengths: 30 days for April, June, September and November, 31 for the rest. |
| Calendar.DecemberLength | src/utils/incidenceParser.js:104 | December has 31 days. |
| Calendar.MonthShift | src/utils/incidenceParser.js:104 | Consecutive months in the same March-based year differ by the month-offset formula. |
| Calendar.MakeDayCarries | src/utils/incidenceParser.js:104 | The `Date` constructor carries month overflow into the year and day overflow into the next day. |
| Calendar.DayOfLocalTime | src/utils/incidenceParser.js:104 | A date built with a time of day falls on the day of its date, plus whole days of the time; its time within the day is the time's remainder. |
| Calendar.MidnightDay | src/utils/incidenceParser.js:119 | A `new Date(y, m, d)` falls at the start of the day it names. |
| Scanning.Next | src/utils/incidenceParser.js:97 | Each `exec` search finds a position at or after `lastIndex` where the pattern matches. |
| Scanning.NextSpec | src/utils/incidenceParser.js:97 | The search skips exactly the positions where the pattern does not match. It fails if and only if there is no match left. |
| Scanning.ScanSound | src/utils/incidenceParser.js:97 | The `exec` loop yields real matches in order; each starts at or after the previous one's end. |
| Scanning.ScanComplete | src/utils/incidenceParser.js:97 | The loop misses no match: every matching position starts or lies inside a match the loop yields. |
| Scanning.First | src/utils/incidenceParser.js:89 | A non-global `match` returns the match at the position it reports. |
| Scanning.FirstSpec | src/utils/incidenceParser.js:89 | A non-global `match` fails if and only if the pattern matches nowhere. Otherwise it returns the leftmost match. |
| Scanning.Gather | src/utils/incidenceParser.js:96-106 | The `exec` loop with a pushing body appends to the list exactly the values pushed for the scanned matches. |
| Scanning.GatherStep | src/utils/incidenceParser.js:96-106 | One turn of the loop pushes for the next match, before everything the later turns push. |
| Scanning.Pushes | src/utils/incidenceParser.js:96-106 | One push decision per match. |
| Scanning.GatheredHas | src/utils/incidenceParser.js:96-106 | Every match whose body pushes a value contributes it to the result. |
| Scanning.GatheredFrom | src/utils/incidenceParser.js:96-106 | Every gathered value was pushed for some scanned match. |
| Scanning.GatheredAll | src/utils/incidenceParser.js:96-106 | A body that always pushes gathers one value per match, in match order. |
| Scanning.AllSome | src/utils/incidenceParser.js:96-106 | When every turn pushes, the output has one value per turn, in order. |
| Sorting.InsertPermutes | src/hooks/useLogAnalysis.js:158-167 | Inserting keeps the elements: one more copy of the inserted element. |
| Sorting.Insert | src/hooks/useLogAnalysis.js:158-167 | Inserting adds one element. |
| Sorting.InsertSorted | src/hooks/useLogAnalysis.js:158-167 | Inserting into a list sorted by descending key keeps it sorted. |
| Sorting.SortDesc | src/hooks/useLogAnalysis.js:158-167 | Sorting keeps the length. |
| Sorting.SortDescSpec | src/hooks/useLogAnalysis.js:158-167 | The sort orders by descending key, with keyless entries last, and is a permutation of its input. |
| Sorting.SortDescKeepsSorted | src/hooks/useLogAnalysis.js:158-167 | An already sorted list is left as it is. |
| Sorting.InsertAtEnd | src/hooks/useLogAnalysis.js:158-167 | An element ranking no higher than all others goes last. |
| Sorting.SortDescNoDuplicates | src/hooks/useLogAnalysis.js:212 | Sorting a list without repeats gives a list without repeats. |
| Sorting.TwoPositions | src/hooks/useLogAnalysis.js:212 | A value found at two positions occurs at least twice. |
| Sorting.AtMostOnce | src/hooks/useLogAnalysis.js:212 | A list without repeats holds each value at most once. |
| Sorting.SortedFrom | src/hooks/useLogAnalysis.js:195 | Every entry of the sorted list is an entry of the input. |
| Sorting.SortedHas | src/hooks/useLogAnalysis.js:195 | Every entry of the input is somewhere in the sorted list. |
| Tally.AccumulateSpec | src/hooks/useLogAnalysis.js:181-190 | The count map has exactly the keys seen, and each maps to the sum of its weights. |
| Tally.Keys | src/hooks/useLogAnalysis.js:181-190 | One key per weighted entry. |
| Tally.Distinct | src/hooks/useLogAnalysis.js:181-190 | The first-seen key order is no longer than the keys seen. |
| Tally.Ones | src/hooks/useLogAnalysis.js:181-190 | One weighted entry per key occurrence. |
| Tally.DistinctSpec | src/hooks/useLogAnalysis.js:181-190 | The keys in first-seen order are exactly the keys seen, without repeats. |
| Tally.UpdateStep | src/hooks/useLogAnalysis.js:181-190 | One more key adds its weight to its count. A key not seen before is appended to the key order. |
| Tally.OnesCount | src/hooks/useLogAnalysis.js:181-190 | Counting with weight one per occurrence gives each key's number of occurrences. |
| Parsers.KeepNonBlankSpec | src/utils/parsers.js:7 | The kept lines are exactly the non-blank ones. |
| Parsers.KeepNonBlank | src/utils/parsers.js:7 | Filtering never adds lines. |
| Parsers.FirstHeaderSpec | src/utils/parsers.js:14-26 | The header search stops at the first line whose upper case contains 'CODIGO DE ERROR' or 'CÓDIGO DE ERROR'. |
| Parsers.FirstHeader | src/utils/parsers.js:14-26 | The header search ends within the lines or past the last one. |
| Parsers.HeaderIndexSpec | src/utils/parsers.js:14-33 | The header is the first line naming the error-code column, in either spelling. Line 0 is the fallback when no line does. |
| Parsers.HeaderIndex | src/utils/parsers.js:14-33 | The header index is a line of the text. |
| Parsers.Headers | src/utils/parsers.js:21-23 | One column name per field of the header line. |
| Parsers.Cells | src/utils/parsers.js:40-43 | One cleaned cell per field of a row. |
| Parsers.LastIndex | src/utils/parsers.js:40-43 | For a repeated column name, the last column with that name is the one whose cell the field map keeps. |
| Parsers.EntryOfColumns | src/utils/parsers.js:40-43 | The field map has exactly the header names as keys. Each name maps to the cell of its last column, or `''` past the row's end. |
| Parsers.RowEntries | src/utils/parsers.js:36-59 | One result per line after the header. |
| Parsers.ParseMatrixCSV | src/utils/parsers.js:6-61 | The reader returns the entries of the lines after the header line. Fewer than two non-blank lines give nothing, and every kept code is longer than two characters. |
| Parsers.ReadRows | src/utils/parsers.js:36-59 | The row loop keeps, in order, exactly the entries the lines yield; every kept code is longer than two characters. |
| Parsers.RowEntriesLong | src/utils/parsers.js:45-46 | Every row kept has a code longer than two characters. |
| Parsers.LongCodesKept | src/utils/parsers.js:45-46 | The kept entries all have codes longer than two characters. |
| Parsers.ReadRowsStep | src/utils/parsers.js:36-59 | Reading one more line appends that line's entry, if it has one. |
| Parsers.FindHeader | src/utils/parsers.js:14-33 | The header loop finds the header index and its column names. |
| Parsers.ReadEntry | src/utils/parsers.js:37-57 | One data line gives its entry, and a kept code is longer than two characters. |
| Parsers.ReadRow | src/utils/parsers.js:40-43 | The cell loop builds the field map of the row. |
| Parsers.EntriesFollowHeader | src/utils/parsers.js:36-59 | Every entry returned comes from a line after the header line. |
| Parsers.RowFrom | src/utils/parsers.js:36-59 | Every entry read from the lines at `from` or later comes from one of them. |
| Parsers.MissingColumnsDefault | src/utils/parsers.js:47-56 | Missing columns read as 'Sin descripción', 'General', '', '' and '0', and description, category and recovery time are never empty. |
| Parsers.ShortCodeDropped | src/utils/parsers.js:46 | A row whose code is two characters or shorter yields nothing. |
| Parsers.QuotedCellStaysWhole | src/utils/parsers.js:37 | A quoted last cell stays one field whatever commas it holds. |
| Parsers.QuoteFreeCount | src/utils/parsers.js:37 | A quote-free text has no quotes to count. |
| Parsers.QuotedHasNoFieldComma | src/utils/parsers.js:37 | Inside a quoted cell no comma splits. |
| Parsers.SplitBeforeTail | src/utils/parsers.js:37 | A comma followed by a quote-balanced tail splits the line there. |
| Parsers.SplitFieldsAt | src/utils/parsers.js:37 | The line splits at its first field comma. |
| Parsers.FirstCommaBeforeTail | src/utils/parsers.js:37 | Appending a quote-balanced tail after a comma does not move the first field comma of the prefix. |
| Parsers.CommasBeforeTail | src/utils/parsers.js:37 | Appending a quote-balanced tail after a comma leaves which commas of the prefix split unchanged, and the joining comma splits. |
| Parsers.CommaBeforeTail | src/utils/parsers.js:37 | The same, for one comma position. |
| Parsers.TailQuotes | src/utils/parsers.js:37 | The quotes after a comma of the prefix are those after it in the prefix plus those of the tail. |
| Parsers.Numbers | src/utils/parsers.js:72-73 | Each field read by `parseFloat`. |
| Parsers.CalculateCashAmount | src/utils/parsers.js:66-83 | The ledger loop returns the specified total: stride 3 from field 6, stopping when a triple lacks its third field, skipping triples with a NaN. |
| Parsers.ShortLedgerIsZero | src/utils/parsers.js:70-71 | A line of at most eight fields has total 0. |
| Parsers.LedgerAppend | src/utils/parsers.js:70-77 | Appending one or two fields adds nothing; appending a full triple adds its value. |
| Parsers.LedgerAppendFrom | src/utils/parsers.js:70-77 | Appending a triple at a triple boundary adds its value only once it is complete. |
| Parsers.LedgerIgnoresOtherFields | src/utils/parsers.js:72-73 | The currency field and the fields before 6 do not change the total. |
| Parsers.LedgerIgnoresFrom | src/utils/parsers.js:72-73 | The same, for the total from a triple boundary. |
| Parsers.TripleReplaced | src/utils/parsers.js:72-77 | Replacing one triple's numbers changes the total by the change of that triple's value. |
| Parsers.UnparsableTripleSkipped | src/utils/parsers.js:75-77 | A triple whose denomination or count is NaN counts as if both were 0. |
| Parsers.LedgerNonNegative | src/utils/parsers.js:66-83 | With non-negative numbers the total is non-negative. |
| Parsers.LedgerNonNegativeFrom | src/utils/parsers.js:66-83 | The same, from a triple boundary. |
| LogAnalysis.Classify | src/hooks/useLogAnalysis.js:75-100 | The upper-cased name decides the kind: 'COLLECT' before 'DEPOSIT' before 'UNVERIFIED', and otherwise an error candidate (each an if-and-only-if). |
| LogAnalysis.CashRecordSpec | src/hooks/useLogAnalysis.js:80-94 | A cash record comes from the last non-blank line. With more than five fields its date is field 4 and its amount the ledger total. Otherwise it is 'Desconocida' and 0. |
| LogAnalysis.LastKept | src/hooks/useLogAnalysis.js:80-83 | The last non-blank line is the line after which only blank lines follow. |
| LogAnalysis.ScanCodes | src/hooks/useLogAnalysis.js:62 | The code positions found lie within the text. |
| LogAnalysis.Codes | src/hooks/useLogAnalysis.js:105 | One code per position found. |
| LogAnalysis.CodesApart | src/hooks/useLogAnalysis.js:62 | Two codes are at least seven characters apart (word boundaries). |
| LogAnalysis.ScanCodesSpec | src/hooks/useLogAnalysis.js:62 | The positions found are exactly those where `\bE[A-F0-9]{5}\b` matches, in increasing order. |
| LogAnalysis.CodesSpec | src/hooks/useLogAnalysis.js:105 | `content.match(errorRegex)` returns every code in the text, in text order, each the six characters matched. |
| LogAnalysis.MatrixMapSpec | src/hooks/useLogAnalysis.js:60-61 | The error map has exactly the matrix's codes. Each maps to the last entry with that code. |
| LogAnalysis.MatrixMapDomain | src/hooks/useLogAnalysis.js:60-61 | The map's keys are exactly the matrix's codes. |
| LogAnalysis.MatrixMapLast | src/hooks/useLogAnalysis.js:60-61 | A code maps to its last entry in the matrix. |
| LogAnalysis.BuildErrorMap | src/hooks/useLogAnalysis.js:60-61 | The `forEach` loop builds the error map. |
| LogAnalysis.EventOf | src/hooks/useLogAnalysis.js:106-119 | A known code takes its description, category, subcategory, solution and recovery time from the matrix. An unknown one gets 'Código no encontrado', 'Desconocido', 'N/A' and 0. |
| LogAnalysis.Events | src/hooks/useLogAnalysis.js:106-120 | One event per code found, in order. |
| LogAnalysis.ProcessFileSpec | src/hooks/useLogAnalysis.js:71-132 | A cash file yields its cash record. An error candidate yields an error record if and only if it mentions a code, and otherwise nothing. The record carries the name, the modification time, the events and their count. |
| LogAnalysis.Results | src/hooks/useLogAnalysis.js:65-66 | One result per file. |
| LogAnalysis.ResultsSlice | src/hooks/useLogAnalysis.js:65-66 | The results split with the files into chunks. |
| LogAnalysis.ChunkStep | src/hooks/useLogAnalysis.js:65-149 | Merging chunk by chunk equals merging all results at once. |
| LogAnalysis.FoldAppend | src/hooks/useLogAnalysis.js:140-149 | Merging two batches in turn equals merging them together. |
| LogAnalysis.MergeChunk | src/hooks/useLogAnalysis.js:140-149 | The merge loop adds each result to its own list and adds each error count. |
| LogAnalysis.FoldSpec | src/hooks/useLogAnalysis.js:140-149 | From empty lists, each kind's results come in input order, and the error count is the sum of the records' counts. |
| LogAnalysis.PushSpec | src/hooks/useLogAnalysis.js:140-149 | One result goes to the list of its kind and no other. |
| LogAnalysis.CashOfKindSnoc | src/hooks/useLogAnalysis.js:140-149 | One more result adds to the cash list of its kind only. |
| LogAnalysis.LogsOfSnoc | src/hooks/useLogAnalysis.js:140-149 | One more result adds to the error list and count only when it is an error record. |
| LogAnalysis.PercentMonotone | src/hooks/useLogAnalysis.js:151 | The rounded percentage grows with the files done. |
| LogAnalysis.PercentOfAll | src/hooks/useLogAnalysis.js:151 | All files done is 100%. |
| LogAnalysis.ProgressFromSpec | src/hooks/useLogAnalysis.js:151 | The remaining progress values are at most 100 and non-decreasing, and end at 100. |
| LogAnalysis.ProgressSpec | src/hooks/useLogAnalysis.js:49-151 | The progress reported starts at 0 and never decreases. It stays within 100 and ends at 100. |
| LogAnalysis.ProcessLogFiles | src/hooks/useLogAnalysis.js:41-175 | No files give nothing and a missing matrix stops with the matrix alert. Otherwise the method returns the processed batch. |
| LogAnalysis.ProcessChunks | src/hooks/useLogAnalysis.js:65-152 | The chunk loop merges the results of all files and reports the progress sequence. |
| LogAnalysis.ProgressStep | src/hooks/useLogAnalysis.js:151 | One chunk reports one more progress value. |
| LogAnalysis.BatchSpec | src/hooks/useLogAnalysis.js:158-172 | Collect and deposit are sorted newest first and are permutations of their kind's results. Unverified and error logs keep input order. The stats count the files, the files with errors and all codes found. |
| LogAnalysis.CountsAreEvents | src/hooks/useLogAnalysis.js:168-172 | The total error count is the number of events over the records. |
| LogAnalysis.LogsWellFormed | src/hooks/useLogAnalysis.js:122-129 | Every error record's count is its number of events, and is positive. |
| Aggregates.KeysOf | src/hooks/useLogAnalysis.js:181-190 | One key per event. |
| Aggregates.TallyStep | src/hooks/useLogAnalysis.js:181-190 | One more occurrence adds one to its count and appends a new key to the key order. |
| Aggregates.OnesSnoc | src/hooks/useLogAnalysis.js:181-190 | One more key adds one weighted entry. |
| Aggregates.TallyCountStep | src/hooks/useLogAnalysis.js:181-190 | One more occurrence adds one to its count. |
| Aggregates.TallyKeyStep | src/hooks/useLogAnalysis.js:181-190 | A key not seen before is appended to the key order. |
| Aggregates.TallyRecord | src/hooks/useLogAnalysis.js:182-189 | The inner loop adds a record's events to the counts and the key order. |
| Aggregates.KeysOfStep | src/hooks/useLogAnalysis.js:182-189 | One more event appends its key. |
| Aggregates.TallyRecordStep | src/hooks/useLogAnalysis.js:182-189 | A seen key increments its count; a new one starts at 1 and is appended to the key order. |
| Aggregates.TallyEvents | src/hooks/useLogAnalysis.js:181-190 | The nested `forEach` builds the key order and counts of all events. |
| Aggregates.CountsSpec | src/hooks/useLogAnalysis.js:181-190 | Each code is counted exactly as often as it occurs, and each appears once in the key order. |
| Aggregates.DescribeSpec | src/hooks/useLogAnalysis.js:191-194 | The description is that of the first matrix entry with the code, or 'Sin descripción'. |
| Aggregates.TopEntries | src/hooks/useLogAnalysis.js:191-194 | One entry per distinct code. |
| Aggregates.TopErrorsData | src/hooks/useLogAnalysis.js:179-197 | The memo computes the top-errors list. |
| Aggregates.TopErrorsSpec | src/hooks/useLogAnalysis.js:179-197 | At most ten codes, by non-increasing count, without repeats, each with its true count and description. No code left out occurs more often than one shown. |
| Aggregates.TopOrdered | src/hooks/useLogAnalysis.js:195-196 | Ten entries or all of them, by non-increasing count. |
| Aggregates.TopNames | src/hooks/useLogAnalysis.js:191-196 | The codes shown differ, and each carries its count and description. |
| Aggregates.TopCutoff | src/hooks/useLogAnalysis.js:195-196 | A code cut off occurs no more often than any code shown. |
| Aggregates.TopBelow | src/hooks/useLogAnalysis.js:195-196 | Every entry past the tenth has a count no higher than every entry shown. |
| Aggregates.CategoryCounts | src/hooks/useLogAnalysis.js:215-224 | The memo computes the category data. |
| Aggregates.CategoryDataSpec | src/hooks/useLogAnalysis.js:215-224 | One slice per category seen, without repeats. Each value is the number of events in the category, and the values add up to the number of events. |
| Aggregates.CategoryNames | src/hooks/useLogAnalysis.js:215-224 | The slices name exactly the categories seen, once each. |
| Aggregates.CategoryValues | src/hooks/useLogAnalysis.js:215-224 | Each slice counts its category's events; the values add up to all events. |
| Aggregates.SumValuesOf | src/hooks/useLogAnalysis.js:215-224 | The values add up to the counts of the categories. |
| Aggregates.DistinctCountsAdd | src/hooks/useLogAnalysis.js:215-224 | The counts of the distinct keys add up to the number of occurrences. |
| Aggregates.CountsOneMore | src/hooks/useLogAnalysis.js:215-224 | One more occurrence adds one to the sum when its key is counted. |
| Aggregates.TrendPoints | src/hooks/useLogAnalysis.js:199-213 | One point per day. |
| Aggregates.ErrorTrendData | src/hooks/useLogAnalysis.js:199-213 | The memo's loop computes the trend, whose order and per-day sums ErrorTrendSpec states; it keys days by day number. |
| Aggregates.TrendStep | src/hooks/useLogAnalysis.js:201-208 | A dated record adds its error count to its day, and a day not seen before is appended. An undated record changes nothing. |
| Aggregates.TrendUpdatesSpec | src/hooks/useLogAnalysis.js:199-213 | Each day's sum is the error count of the records on that day. A day appears if and only if some valid record falls on it. |
| Aggregates.TotalAppend | src/hooks/useLogAnalysis.js:199-213 | Sums add up over concatenation. |
| Aggregates.ErrorTrendSpec | src/hooks/useLogAnalysis.js:199-213 | The trend is in strictly increasing day order. Each point's day has records and its count is that day's error-count sum. Every day with a valid record appears. |
| Aggregates.TrendSkipsUndated | src/hooks/useLogAnalysis.js:202-204 | A record without errors, or whose time is an Invalid Date (outside ±8.64e15 ms), leaves the trend unchanged. |
| Aggregates.TrendAscending | src/hooks/useLogAnalysis.js:212 | Sorting distinct days gives strictly increasing days. |
| Aggregates.TrendContents | src/hooks/useLogAnalysis.js:199-213 | The trend holds exactly the days of the records, each with its sum. |
| Aggregates.SumAmountsAppend | src/hooks/useLogAnalysis.js:226-233 | Amount sums add up over concatenation. |
| Aggregates.SumAmountsPermutation | src/hooks/useLogAnalysis.js:226-233 | Reordering the records does not change the amount sum. |
| Aggregates.PositionOf | src/hooks/useLogAnalysis.js:226-233 | A record of a list is at some position of it. |
| Aggregates.SumAmountsRemove | src/hooks/useLogAnalysis.js:226-233 | The sum is the sum without one record plus its amount. |
| Aggregates.WithoutOne | src/hooks/useLogAnalysis.js:226-233 | Removing a position removes one copy of its record. |
| Aggregates.AmountsSpec | src/hooks/useLogAnalysis.js:226-233 | The collected, deposited and unverified totals are the sums of the amounts of each kind's results, whatever the sort did. |
| Aggregates.SuccessRateData | src/hooks/useLogAnalysis.js:235-247 | There are no slices if and only if there are no operations. Otherwise there are two, deposits then unverified: their values add up to all operations, and the deposit slice is the success percentage of that total. |
| Aggregates.SuccessPercentage | src/hooks/useLogAnalysis.js:244-247 | 0 with no operations, otherwise 100 × deposits / total. It lies in 0–100. It is 0 if and only if there is no deposit, and 100 if and only if nothing is unverified. |
| Dictum.FindUnverified | src/components/Dictamen/DictumView.jsx:93 | Finds the first unverified record within $2 of the claimed difference, or reports that none is. |
| Dictum.FindErrorNear | src/components/Dictamen/DictumView.jsx:104-107 | Finds the first error log less than an hour from the claimed time, or reports that none is. A found log has a time within the valid `Date` range; with no claimed time, or only logs outside that range, none is found. |
| Dictum.FindActivityNear | src/components/Dictamen/DictumView.jsx:115-118 | Finds the first deposit less than half an hour from the claimed time, or reports that none is. |
| Dictum.RunCrossValidation | src/components/Dictamen/DictumView.jsx:83-134 | Justified if and only if an unverified amount matches or an error log is near the time, with at most one finding. The amount rule is tried first, then the error rule, then activity. Without a date the result is 'No encontrado por Monto' or 'Pendiente'. |
| Dictum.Validate | src/components/Dictamen/DictumView.jsx:75-81 | No result if and only if neither date nor amount is entered; otherwise the validation's verdict. |
| Dictum.AddToListSpec | src/components/Dictamen/DictumView.jsx:136-151 | Nothing changes if and only if both folio and amount are empty. Otherwise one claim is appended after the old ones, the result is cleared, and the folio and amount are emptied while the date stays. |
| Dictum.NewIncidenceSpec | src/components/Dictamen/DictumView.jsx:138-146 | The new claim has the clock's id, the date, the folio or 'S/N', and no amount exactly when none was entered. It is justified if and only if the current result is. Without a result it is 'Sin análisis' and 'N/A'. |
| Dictum.Without | src/components/Dictamen/DictumView.jsx:153 | Removing never lengthens the list. |
| Dictum.WithoutSpec | src/components/Dictamen/DictumView.jsx:153 | Removing keeps exactly the claims with another id. A list without the id stays as it was. |
| Dictum.WithoutMembers | src/components/Dictamen/DictumView.jsx:153 | A claim is kept if and only if it has another id. |
| Dictum.WithoutNone | src/components/Dictamen/DictumView.jsx:153 | Removing an id the list lacks changes nothing. |
| Dictum.WithoutAppend | src/components/Dictamen/DictumView.jsx:153 | Removing works piecewise, so the kept claims keep their order. |
| Dictum.AddThenRemove | src/components/Dictamen/DictumView.jsx:147-153 | Adding a claim whose id is new and removing it again restores the list. |
| Dictum.JustifiedAtMostClaimed | src/components/Dictamen/DictumView.jsx:65-66 | With non-negative amounts, 0 ≤ justified total ≤ claimed total. |
| Dictum.AllJustified | src/components/Dictamen/DictumView.jsx:65-66 | When every claim is justified the two totals agree. |
| Dictum.AddToListTotals | src/components/Dictamen/DictumView.jsx:65-66 | Adding a claim adds its amount to the claimed total, and to the justified total only when it is justified. |
| Incidence.NonSpaceAppend | src/utils/incidenceParser.js:81-84 | The non-space characters of a concatenation are those of each part. |
| Incidence.NonSpaceOfBlank | src/utils/incidenceParser.js:81-84 | A blank text has no non-space characters. |
| Incidence.CollapseSpacesShape | src/utils/incidenceParser.js:82 | After collapsing, every white space is one blank and no two are adjacent. The text starts with a space if and only if the original did. |
| Incidence.CollapseSpacesKeeps | src/utils/incidenceParser.js:82 | Collapsing keeps the non-space characters in order. |
| Incidence.RemoveJunkSpec | src/utils/incidenceParser.js:83 | The junk characters (vertical bar, «, », _ and —) are removed and nothing is added. Removal commutes with taking the non-space characters. |
| Incidence.RemoveJunkKeeps | src/utils/incidenceParser.js:83 | What remains is junk-free and from the text. |
| Incidence.RemoveJunkNonSpace | src/utils/incidenceParser.js:83 | Removing junk commutes with dropping spaces. |
| Incidence.TrimKeepsNonSpace | src/utils/incidenceParser.js:84 | Trimming drops only white space. |
| Incidence.TrimNonSpace | src/utils/incidenceParser.js:84 | Trimming keeps the non-space characters. |
| Incidence.TrimKeeps | src/utils/incidenceParser.js:84 | Every trimmed character is from the text. |
| Incidence.CleanTextSpec | src/utils/incidenceParser.js:81-84 | The clean text has no junk and no leading or trailing space. Every white-space character in it is a blank, and it keeps every other non-space character in order. |
| Incidence.SpaceRun | src/utils/incidenceParser.js:95 | A run of white space lies within the text. |
| Incidence.LetterRun | src/utils/incidenceParser.js:109 | A run of letters lies within the text. |
| Incidence.Digits12 | src/utils/incidenceParser.js:95 | `\d{1,2}` takes at most two digits, within the text. |
| Incidence.LongDigitsMatch | src/utils/incidenceParser.js:89 | A `(\d{4,})` match starts where it is tried and ends within the text. |
| Incidence.FolioMatch | src/utils/incidenceParser.js:89 | A folio match starts where it is tried and ends within the text. |
| Incidence.FolioMatcher | src/utils/incidenceParser.js:89 | Both folio patterns are matchers over the text. |
| Incidence.FolioMissing | src/utils/incidenceParser.js:89 | No folio is found if and only if no 'folio' (any case) is followed anywhere by four digits. |
| Incidence.FolioFoundAt | src/utils/incidenceParser.js:89 | A found folio is read after the first 'folio' (any case) of the text: it is the whole run of digits at the first position after that word where four digits start. |
| Incidence.FolioRunAfter | src/utils/incidenceParser.js:89 | Within a match at a 'folio', the lazy `.*?` stops at the first position where four digits start, and the capture takes that whole run. |
| Incidence.NoEarlierFolio | src/utils/incidenceParser.js:89 | No 'folio' occurs before the start of the search's match. |
| Incidence.EarlierFolioMatches | src/utils/incidenceParser.js:89 | A 'folio' followed somewhere by four digits starts a match, so the leftmost match is at the first 'folio'. |
| Incidence.FolioNowhere | src/utils/incidenceParser.js:89 | With no folio found, no 'folio' is followed by four digits. |
| Incidence.FolioDigits | src/utils/incidenceParser.js:89-90 | A found folio is four or more digits. The folio reads 'S/N (OCR)' if and only if none is found; any other folio is the first run of four digits after the first 'folio'. |
| Incidence.FolioRun | src/utils/incidenceParser.js:89 | The folio is a maximal run of four or more digits of the text: a non-digit comes before it, and a non-digit or the end of the text after it. |
| Incidence.OpMatch | src/utils/incidenceParser.js:95 | An `Op DE-100` match starts where it is tried and ends within the text. |
| Incidence.ClockMatch | src/utils/incidenceParser.js:100 | An `HH:MM:SS` match starts where it is tried and ends within the text. |
| Incidence.OpMatcher | src/utils/incidenceParser.js:95 | The `Op DE-100` pattern is a matcher over the text. |
| Incidence.OpTargetsSpec | src/utils/incidenceParser.js:95-106 | Each `Op DE-100` match pushes one date, in order. |
| Incidence.OpTargetDay | src/utils/incidenceParser.js:104 | A log-line date falls on the day it names, plus whole days of its time of day. |
| Incidence.OpTargetAtNoon | src/utils/incidenceParser.js:101-104 | With no time of day near the match, the date is noon of the day it names. |
| Incidence.ClockNearSpec | src/utils/incidenceParser.js:99-100 | No time of day is found if and only if none starts within the fifty characters from the match. Otherwise the one read is the leftmost HH:MM:SS there, with its hours, minutes and seconds. |
| Incidence.VerbalMatch | src/utils/incidenceParser.js:109 | A verbal-date match starts where it is tried and ends within the text. |
| Incidence.VerbalMatcher | src/utils/incidenceParser.js:109 | The verbal-date pattern is a matcher over the text. |
| Incidence.MonthIndex | src/utils/incidenceParser.js:11-14 | A month name in the map gives a month index 0–11. |
| Incidence.YearMatch | src/utils/incidenceParser.js:115 | A `20\d{2}` match starts where it is tried and ends within the text. |
| Incidence.DigitsValueOfFour | src/utils/incidenceParser.js:116 | Four digits read as their decimal value. |
| Incidence.YearMatchRange | src/utils/incidenceParser.js:115-116 | A year matched lies in 2000–2099. |
| Incidence.FirstYearSpec | src/utils/incidenceParser.js:115-116 | No year is found if and only if none matches. Otherwise the year is the value of the leftmost `20\d{2}` match, and lies in 2000–2099. |
| Incidence.YearNearSpec | src/utils/incidenceParser.js:114-116 | Without a year in the hundred characters from the match, the current year is used. Otherwise the year is the leftmost `20\d{2}` there, one of 2000–2099. |
| Incidence.VerbalTargetsSpec | src/utils/incidenceParser.js:109-122 | Every verbal date with a known month gives midnight of its day in the year found near it. |
| Incidence.VerbalTargetFrom | src/utils/incidenceParser.js:109-122 | Every verbal date pushed comes from a match with a known month. |
| Incidence.SimpleMatch | src/utils/incidenceParser.js:126 | A simple-date match starts where it is tried and ends within the text. |
| Incidence.SimpleMatcher | src/utils/incidenceParser.js:126 | The simple-date pattern is a matcher over the text. |
| Incidence.SimpleTargetsSpec | src/utils/incidenceParser.js:125-133 | Every simple date with a year after 2020 gives midnight of its day. |
| Incidence.SimpleHitHas | src/utils/incidenceParser.js:127-132 | A match that pushes a date contributes it. |
| Incidence.SimpleTargetOf | src/utils/incidenceParser.js:128-129 | A simple date after 2020 is midnight of the day it names. |
| Incidence.SimpleTargetFrom | src/utils/incidenceParser.js:125-133 | Every simple date pushed has a year after 2020 and is midnight of the day it names. |
| Incidence.SimpleHitOf | src/utils/incidenceParser.js:127-132 | A pushed date comes from some match. |
| Incidence.SimpleTargetValue | src/utils/incidenceParser.js:128-129 | A match that pushes a date has a year after 2020 and names that date. |
| Incidence.ReadTargets | src/utils/incidenceParser.js:92-133 | The dates are the log-line dates then the verbal dates in text order. The simple dates are read only when those are none. |
| Incidence.ReadIncidence | src/utils/incidenceParser.js:80-141 | The text stage returns the cleaned text, the folio of the cleaned text and its dates. |
| Incidence.FindSameDay | src/utils/incidenceParser.js:178-183 | Finds the first error log on the same calendar day as the date, or reports that there is none. A found log has a valid time on the target's day; a target outside the valid `Date` range matches nothing. |
| Incidence.AnalyzeDiscrepancy | src/utils/incidenceParser.js:149-196 | An unreadable or short text gives the OCR failure, and one without dates says so. Otherwise a match is found if and only if some date has an error log on its day. It takes the first such date and that date's first log. Without a match it cites the first date. |
| Inventory.Ids | src/App.jsx:36 | One id per asset. |
| Inventory.AddService | src/App.jsx:35-51 | Adding a service keeps the number of assets. |
| Inventory.AddServiceSpec | src/App.jsx:35-51 | Assets with another id are unchanged and the ids keep their order. The asset with the id gets the sheet at the head of its history. Its visit count rises by one if and only if the sheet is preventive; nothing else changes. |
| Inventory.UpdateAsset | src/App.jsx:54-56 | Updating an asset keeps the number of assets. |
| Inventory.UpdateAssetSpec | src/App.jsx:54-56 | Every asset with the updated id is replaced and every other one kept. The ids stay; an id missing from the list leaves it unchanged. |
| Inventory.SelectedAsset | src/App.jsx:30 | A selected asset is one of the list. |
| Inventory.SelectedAssetSpec | src/App.jsx:30 | Nothing is selected if and only if no id is chosen or no asset has it. Otherwise it is the first asset with the id. |
| Inventory.AddServiceSelected | src/App.jsx:30-51 | After adding a service, the selected asset is the old one with that service added. |
| Inventory.UpdateAssetSelected | src/App.jsx:30-56 | After an update, selecting its id finds the updated asset, if the list had that id. |
| Inventory.CashRows | src/App.jsx:61 | One row per cash record. |
| Inventory.ErrorRows | src/App.jsx:61 | One row per error log. |
| Inventory.AllLogsSpec | src/App.jsx:61 | The combined list is collect, deposit, unverified and error logs in that order, each in its own order. |
| Inventory.TabChangeSpec | src/App.jsx:73-76 | A tab change sets the tab and clears the selection, so no asset is selected. |
| Inventory.CorrectiveCountSpec | src/components/Inventory/AssetDetail.jsx:16 | The corrective count is at most the service count. It is 0 if and only if no sheet is corrective, and all of them if and only if every sheet is. |
| Inventory.CorrectiveCountAppend | src/components/Inventory/AssetDetail.jsx:16 | Counts add up over concatenation. |
| Inventory.TotalHoursAppend | src/components/Inventory/AssetDetail.jsx:17 | Hours add up over concatenation. |
| Inventory.TotalHoursBounds | src/components/Inventory/AssetDetail.jsx:17 | With absent durations read as 0, the total is non-negative and at least each sheet's hours. |
| Inventory.DaysActiveSpec | src/components/Inventory/AssetDetail.jsx:19-21 | The days active are the whole days from installation to today, rounded down. |
| Inventory.MtbfSpec | src/components/Inventory/AssetDetail.jsx:22 | With no corrective sheet the MTBF is the days active; otherwise it is those days divided by the correctives, rounded down. |
| Inventory.HealthScoreSpec | src/components/Inventory/AssetDetail.jsx:23 | Health lies in 0–100. It is 100 if and only if there are no correctives and 0 if and only if there are ten or more; each corrective costs ten points. |
| Inventory.AddServiceKpis | src/components/Inventory/AssetDetail.jsx:15-23 | A new sheet adds one service and its hours. A corrective one adds a corrective and costs ten health points down to 0; any other sheet leaves health and MTBF as they were. |
| Inventory.BuildService | src/components/Inventory/AssetDetail.jsx:173-199 | The submitted sheet is 'Completado' with the form's fields and the duration read by `Number`. It carries the first chosen file only, typed PDF if and only if its name ends in '.pdf'. |
| Inventory.EditAssetSpec | src/components/Inventory/AssetDetail.jsx:278-290 | An edit sets the six form fields and keeps every other field. Saving it replaces the asset in place, keeping the ids and the indicators. |

## Left out

- File reading (`FileReader`), promises and `setTimeout` are not modelled. Files arrive as name, text and modification time, and each chunk is processed in one step.
- PDF text extraction and OCR are not modelled: `pdfjs`, Tesseract, `performOCR`, the 50-character OCR switch and `handleIncidenceUpload`. The model starts from the recognised text.
- The current time (`Date.now()`, `new Date()`, the current year) is a parameter.
- `new Date(string)` is a parameter from text to milliseconds, where no value means Invalid Date. Date strings are not parsed.
- Local time is treated as UTC; time zones and daylight saving time are not modelled.
- Amounts are exact reals, not IEEE doubles: rounding, `Infinity`, `-0` and `toFixed`/`toLocaleString` formatting are left out. In `parseFloat` the text "Infinity" reads as NaN.
- Text is a sequence of characters. UTF-16 code units, Unicode case mapping beyond ASCII and the full Unicode white-space set are simplified.
- Regular-expression `.` is taken to match any character, line terminators included, in the folio pattern.
- The sort is stable and unparsable timestamps go last. With NaN results the JavaScript comparator's order is implementation-defined.
- `Object.entries` lists integer-like keys first. The model keeps first-seen order for every key.
- `MONTH_MAP.hasOwnProperty` is modelled exactly, as membership among the twelve month names: inherited names are not own properties.
- React rendering, state hooks and re-running effects are not modelled. `generateConclusions`' report text other than the two totals is also left out. Validation findings and the discrepancy conclusion are datatypes in place of their text, and the displayed dates are not modelled.
- The `depositLogs` parameter of `analyzeDiscrepancy` is unused in the source and is absent from the model.
- The error-match short conclusion reads `.name` of an error record, which has no such field. The model keeps the resulting text 'Falla técnica (undefined)'.
- `formData.get` returning null is not modelled, and `Number` of a non-numeric duration is None.
- LogAnalysis.ProcessLogFiles: requires that every cash file has a non-blank line. For a cash file without one the source throws inside the reader callback, and that batch never finishes.
- Calendar.MonthLengths: February's length (28 or 29 days) is not stated; no property depends on it.
- The cross-validation has no collect-amount tolerance mode: only unverified deposits are matched by amount.
- The error trend sums `errorCount` per day rather than counting records.
- The top-ten description comes from the first matrix entry with the code (`find`), while error enrichment uses the last one (the `Map`).
- ErrorTrendData (Aggregates.ErrorTrendData): the source keys each day by `toLocaleDateString()` and sorts by re-parsing that key with `new Date`. The model keys and sorts by day number. Under a locale whose date text `new Date` cannot parse back, the source's order is undefined; that case is not modelled.
- LogAnalysis.Percent: the progress is `done / n · 100` rounded exactly. IEEE doubles can round one lower: with 2000 files and 1150 done, JavaScript reports 57 where the model reports 58.
