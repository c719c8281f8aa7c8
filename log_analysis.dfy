/**
 * Batch ingestion of terminal log files (`processLogFiles`): each file is classified by its name,
 * cash files yield one record from their last line, the others yield the error codes they
 * mention, enriched from the error matrix. Files are taken fifty at a time, results are pushed into
 * four lists, progress is reported after each chunk, and the two cash lists are sorted by date.
 */
module LogAnalysis {
  import opened Wrappers
  import opened Text
  import opened Parsers
  import opened Sorting

  const CHUNK_SIZE: nat := 50
  const UNKNOWN_DATE: string := "Desconocida"
  const CODE_NOT_FOUND: string := "Código no encontrado"
  const UNKNOWN: string := "Desconocido"
  const NO_SOLUTION: string := "N/A"

  /** The largest time value, in ms either side of the epoch, that a JavaScript `Date` holds. */
  const MAX_TIME: int := 8640000000000000

  /** A file as the reader delivers it: its name, its text and its modification time in ms. */
  datatype LogFile = LogFile(name: string, content: string, lastModified: int)

  datatype CashKind = Collect | Deposit | Unverified
  datatype FileKind = Cash(kind: CashKind) | ErrorCandidate

  /** The record a cash file yields; the time stays the text of the ledger's date field. */
  datatype CashRecord = CashRecord(kind: CashKind, fileName: string, timestamp: string,
                                   amount: real, rawContent: string)

  datatype ErrorEvent = ErrorEvent(code: string, description: string, category: string,
                                   subCategory: string, solution: string, timeRecovery: real)

  datatype ErrorRecord = ErrorRecord(fileName: string, timestamp: int, errors: seq<ErrorEvent>,
                                     errorCount: nat)

  /** What one file resolves to; `NoResult` is the `null` of a file without error codes. */
  datatype FileResult = CashResult(cash: CashRecord) | ErrorResult(log: ErrorRecord) | NoResult

  /** `new Date(ms)` on a number, the TimeClip of the ECMAScript standard: None (an Invalid
      Date) when it lies outside the range a `Date` can hold. */
  function DateValue(ms: int): Option<int>
  {
    if -MAX_TIME <= ms <= MAX_TIME then Some(ms) else None
  }

  // ---------------------------------------------------------------------------
  // Classification
  // ---------------------------------------------------------------------------

  /** The kind a file name selects, checked on its upper-case form in the order COLLECT, DEPOSIT,
      UNVERIFIED. */
  function Classify(name: string): (k: FileKind)
    ensures k == Cash(Collect) <==> Contains(ToUpper(name), "COLLECT")
    ensures k == Cash(Deposit) <==> !Contains(ToUpper(name), "COLLECT") && Contains(ToUpper(name), "DEPOSIT")
    ensures k == Cash(Unverified) <==>
              !Contains(ToUpper(name), "COLLECT") && !Contains(ToUpper(name), "DEPOSIT")
              && Contains(ToUpper(name), "UNVERIFIED")
  {
    var upper := ToUpper(name);
    if Contains(upper, "COLLECT") || Contains(upper, "DEPOSIT") || Contains(upper, "UNVERIFIED") then
      Cash(if Contains(upper, "COLLECT") then Collect
           else if Contains(upper, "DEPOSIT") then Deposit
           else Unverified)
    else ErrorCandidate
  }

  /** A file the reader can get through: a cash file must have a line that is not blank. */
  predicate Readable(file: LogFile) {
    Classify(file.name).Cash? ==> NonBlankLines(file.content) != []
  }

  predicate AllReadable(files: seq<LogFile>) {
    forall k :: 0 <= k < |files| ==> Readable(files[k])
  }

  // ---------------------------------------------------------------------------
  // Cash files
  // ---------------------------------------------------------------------------

  /** The record of a cash file: read from its last non-blank line, whose fifth field is the date and
      whose ledger gives the amount, when the line has more than five fields. */
  function CashRecordOf(file: LogFile, kind: CashKind): CashRecord
    requires NonBlankLines(file.content) != []
  {
    var lines := NonBlankLines(file.content);
    var lastLine := lines[|lines| - 1];
    var parts := Split(lastLine, ',');
    CashRecord(kind, file.name,
               if |parts| > 5 then parts[4] else UNKNOWN_DATE,
               if |parts| > 5 then LedgerTotal(parts) else 0.0,
               lastLine)
  }

  /** The record reads the last line of the file that is not blank, its date is the fifth field and
      its amount the ledger total when there are more than five fields, and otherwise the date is
      unknown and the amount 0; fewer than nine fields always give 0. */
  lemma CashRecordSpec(file: LogFile, kind: CashKind) returns (j: nat)
    requires NonBlankLines(file.content) != []
    ensures var ls := Split(file.content, '\n'); var r := CashRecordOf(file, kind);
      && j < |ls| && r.rawContent == ls[j] && !IsBlank(ls[j])
      && (forall k :: j < k < |ls| ==> IsBlank(ls[k]))
      && r.kind == kind && r.fileName == file.name
    ensures var r := CashRecordOf(file, kind); var parts := Split(r.rawContent, ',');
      && (|parts| > 5 ==> r.timestamp == parts[4] && r.amount == LedgerTotal(parts))
      && (|parts| <= 5 ==> r.timestamp == UNKNOWN_DATE && r.amount == 0.0)
      && (|parts| <= 8 ==> r.amount == 0.0)
  {
    j := LastKept(Split(file.content, '\n'));
    var r := CashRecordOf(file, kind);
    if |Split(r.rawContent, ',')| <= 8 {
      ShortLedgerIsZero(Split(r.rawContent, ','));
    }
  }

  /** The last line the blank-line filter keeps is the last line that is not blank. */
  lemma {:induction false} LastKept(ls: seq<string>) returns (j: nat)
    requires KeepNonBlank(ls) != []
    ensures j < |ls| && ls[j] == KeepNonBlank(ls)[|KeepNonBlank(ls)| - 1] && !IsBlank(ls[j])
    ensures forall k :: j < k < |ls| ==> IsBlank(ls[k])
  {
    var rest := KeepNonBlank(ls[1..]);
    if rest != [] {
      var j' := LastKept(ls[1..]);
      j := j' + 1;
    } else {
      KeepNonBlankSpec(ls[1..]);
      TrimSpec(ls[0]);
      j := 0;
      forall k | 0 < k < |ls|
        ensures IsBlank(ls[k])
      {
        assert ls[k] == ls[1..][k - 1];
      }
    }
  }

  // ---------------------------------------------------------------------------
  // Error codes: the global regular expression \bE[A-F0-9]{5}\b
  // ---------------------------------------------------------------------------

  /** A character of the regex class `\w`. */
  predicate IsWordChar(c: char) {
    IsAsciiLetter(c) || IsDigit(c) || c == '_'
  }

  predicate IsCodeChar(c: char) {
    IsDigit(c) || ('A' <= c <= 'F')
  }

  /** An error code starts at `p`: `E`, five characters of `[A-F0-9]`, a word boundary either side. */
  predicate IsCodeAt(s: string, p: nat) {
    && p + 6 <= |s|
    && s[p] == 'E'
    && IsCodeChar(s[p + 1]) && IsCodeChar(s[p + 2]) && IsCodeChar(s[p + 3])
    && IsCodeChar(s[p + 4]) && IsCodeChar(s[p + 5])
    && (p == 0 || !IsWordChar(s[p - 1]))
    && (p + 6 == |s| || !IsWordChar(s[p + 6]))
  }

  /** The positions `match` reports from `i` on: each search resumes where the last match ended. */
  function ScanCodes(s: string, i: nat): (ps: seq<nat>)
    ensures forall k :: 0 <= k < |ps| ==> i <= ps[k] && ps[k] + 6 <= |s|
    decreases |s| - i
  {
    if i + 6 > |s| then []
    else if IsCodeAt(s, i) then [i] + ScanCodes(s, i + 6)
    else ScanCodes(s, i + 1)
  }

  /** The codes `content.match(errorRegex)` returns, in order of appearance. */
  function Codes(s: string): (codes: seq<string>)
    ensures |codes| == |ScanCodes(s, 0)|
  {
    var ps := ScanCodes(s, 0);
    seq(|ps|, k requires 0 <= k < |ps| => s[ps[k]..ps[k] + 6])
  }

  /** Two codes never lie closer than seven characters: the boundary after the first forbids it. */
  lemma CodesApart(s: string, p: nat, q: nat)
    requires IsCodeAt(s, p) && IsCodeAt(s, q) && p < q
    ensures p + 7 <= q
  {
  }

  /** The scan finds exactly the positions where a code starts, in increasing order. */
  lemma {:induction false} ScanCodesSpec(s: string, i: nat)
    ensures forall p: nat :: p in ScanCodes(s, i) <==> i <= p && IsCodeAt(s, p)
    ensures forall a, b :: 0 <= a < b < |ScanCodes(s, i)| ==> ScanCodes(s, i)[a] < ScanCodes(s, i)[b]
    decreases |s| - i
  {
    if i + 6 <= |s| {
      if IsCodeAt(s, i) {
        ScanCodesSpec(s, i + 6);
        forall p: nat | i < p < i + 6
          ensures !IsCodeAt(s, p)
        {
          if IsCodeAt(s, p) { CodesApart(s, i, p); }
        }
      } else {
        ScanCodesSpec(s, i + 1);
      }
    }
  }

  /** Every occurrence of a code in the text is reported, once, in order, duplicates kept. */
  lemma CodesSpec(s: string)
    ensures forall k :: 0 <= k < |Codes(s)| ==>
              IsCodeAt(s, ScanCodes(s, 0)[k]) && Codes(s)[k] == s[ScanCodes(s, 0)[k]..ScanCodes(s, 0)[k] + 6]
    ensures forall p: nat :: IsCodeAt(s, p) ==> exists k :: 0 <= k < |Codes(s)| && ScanCodes(s, 0)[k] == p
    ensures forall a, b :: 0 <= a < b < |Codes(s)| ==> ScanCodes(s, 0)[a] < ScanCodes(s, 0)[b]
  {
    ScanCodesSpec(s, 0);
    var ps := ScanCodes(s, 0);
    forall k | 0 <= k < |ps|
      ensures IsCodeAt(s, ps[k])
    {
      assert ps[k] in ps;
    }
  }

  // ---------------------------------------------------------------------------
  // Enrichment through the matrix
  // ---------------------------------------------------------------------------

  /** `new Map()` filled with `set(code, entry)` in matrix order: a later entry replaces an earlier
      one with the same code. */
  function MatrixMap(matrix: seq<MatrixEntry>): map<string, MatrixEntry>
  {
    if matrix == [] then map[]
    else MatrixMap(matrix[..|matrix| - 1])[matrix[|matrix| - 1].code := matrix[|matrix| - 1]]
  }

  /** A code is in the map exactly when some entry carries it, and it maps to the last such entry. */
  lemma MatrixMapSpec(matrix: seq<MatrixEntry>, code: string)
    ensures code in MatrixMap(matrix) <==> exists j :: 0 <= j < |matrix| && matrix[j].code == code
    ensures code in MatrixMap(matrix) ==>
              exists j :: 0 <= j < |matrix| && MatrixMap(matrix)[code] == matrix[j]
                && matrix[j].code == code
                && forall k :: j < k < |matrix| ==> matrix[k].code != code
  {
    MatrixMapDomain(matrix, code);
    if code in MatrixMap(matrix) {
      var j := MatrixMapLast(matrix, code);
    }
  }

  lemma {:induction false} MatrixMapDomain(matrix: seq<MatrixEntry>, code: string)
    ensures code in MatrixMap(matrix) <==> exists j :: 0 <= j < |matrix| && matrix[j].code == code
  {
    if matrix != [] {
      var init := matrix[..|matrix| - 1];
      MatrixMapDomain(init, code);
      if code != matrix[|matrix| - 1].code {
        if code in MatrixMap(init) {
          var j :| 0 <= j < |init| && init[j].code == code;
          assert matrix[j] == init[j];
        }
        if exists j :: 0 <= j < |matrix| && matrix[j].code == code {
          var j :| 0 <= j < |matrix| && matrix[j].code == code;
          assert init[j] == matrix[j];
        }
      }
    }
  }

  /** The entry a code maps to is the last one that carries it. */
  lemma {:induction false} MatrixMapLast(matrix: seq<MatrixEntry>, code: string) returns (j: nat)
    requires code in MatrixMap(matrix)
    ensures j < |matrix| && MatrixMap(matrix)[code] == matrix[j] && matrix[j].code == code
    ensures forall k :: j < k < |matrix| ==> matrix[k].code != code
  {
    var init := matrix[..|matrix| - 1];
    if code == matrix[|matrix| - 1].code {
      j := |matrix| - 1;
    } else {
      j := MatrixMapLast(init, code);
      assert matrix[j] == init[j];
    }
  }

  /** `matrixData.forEach(item => errorMap.set(item['CODIGO DE ERROR'], item))`. */
  method BuildErrorMap(matrix: seq<MatrixEntry>) returns (errorMap: map<string, MatrixEntry>)
    ensures errorMap == MatrixMap(matrix)
  {
    errorMap := map[];
    var k := 0;
    while k < |matrix|
      invariant k <= |matrix|
      invariant errorMap == MatrixMap(matrix[..k])
    {
      assert matrix[..k + 1][..k] == matrix[..k];
      errorMap := errorMap[matrix[k].code := matrix[k]];
      k := k + 1;
    }
    assert matrix[..|matrix|] == matrix;
  }

  /** The event one code becomes: the matrix's description, categories, solution and recovery time,
      or placeholders for a code the matrix does not know. */
  function EventOf(code: string, errorMap: map<string, MatrixEntry>): (e: ErrorEvent)
    ensures e.code == code
    ensures code !in errorMap ==>
              e == ErrorEvent(code, CODE_NOT_FOUND, UNKNOWN, UNKNOWN, NO_SOLUTION, 0.0)
    ensures code in errorMap ==>
              && e.description == errorMap[code].description
              && e.category == errorMap[code].category
              && e.subCategory == errorMap[code].subCategory
              && e.solution == errorMap[code].solutionType
              && e.timeRecovery == ParseFloatOrZero(errorMap[code].recoveryMinutes)
  {
    if code in errorMap then
      var d := errorMap[code];
      ErrorEvent(code, d.description, d.category, d.subCategory, d.solutionType,
                 ParseFloatOrZero(d.recoveryMinutes))
    else ErrorEvent(code, CODE_NOT_FOUND, UNKNOWN, UNKNOWN, NO_SOLUTION, 0.0)
  }

  /** One event per code found in the text, in order. */
  function Events(content: string, errorMap: map<string, MatrixEntry>): (events: seq<ErrorEvent>)
    ensures |events| == |Codes(content)|
    ensures forall k :: 0 <= k < |events| ==> events[k] == EventOf(Codes(content)[k], errorMap)
  {
    var codes := Codes(content);
    seq(|codes|, k requires 0 <= k < |codes| => EventOf(codes[k], errorMap))
  }

  /** What the reader's `onload` resolves for one file. */
  function ProcessFile(file: LogFile, errorMap: map<string, MatrixEntry>): (r: FileResult)
    requires Readable(file)
  {
    match Classify(file.name)
    case Cash(kind) => CashResult(CashRecordOf(file, kind))
    case ErrorCandidate =>
      var events := Events(file.content, errorMap);
      if |events| > 0 then ErrorResult(ErrorRecord(file.name, file.lastModified, events, |events|))
      else NoResult
  }

  /** A cash name gives a cash record of its kind; any other file gives an error record exactly
      when the text holds a code, with one event per code and the file's time, and nothing otherwise. */
  lemma ProcessFileSpec(file: LogFile, errorMap: map<string, MatrixEntry>)
    requires Readable(file)
    ensures Classify(file.name).Cash? ==>
              ProcessFile(file, errorMap) == CashResult(CashRecordOf(file, Classify(file.name).kind))
    ensures Classify(file.name) == ErrorCandidate ==>
              (ProcessFile(file, errorMap).ErrorResult? <==> |Codes(file.content)| > 0)
    ensures Classify(file.name) == ErrorCandidate && |Codes(file.content)| == 0 ==>
              ProcessFile(file, errorMap) == NoResult
    ensures ProcessFile(file, errorMap).ErrorResult? ==>
              var log := ProcessFile(file, errorMap).log;
              && log.fileName == file.name && log.timestamp == file.lastModified
              && log.errors == Events(file.content, errorMap)
              && log.errorCount == |log.errors| > 0
  {
  }

  function Results(files: seq<LogFile>, errorMap: map<string, MatrixEntry>): (rs: seq<FileResult>)
    requires AllReadable(files)
    ensures |rs| == |files|
  {
    seq(|files|, k requires 0 <= k < |files| => ProcessFile(files[k], errorMap))
  }

  /** The results of consecutive slices of the files are the slices of the results. */
  lemma ResultsSlice(files: seq<LogFile>, errorMap: map<string, MatrixEntry>, i: nat, j: nat)
    requires AllReadable(files) && i <= j <= |files|
    ensures AllReadable(files[..i]) && AllReadable(files[i..j]) && AllReadable(files[..j])
    ensures Results(files[..j], errorMap) == Results(files[..i], errorMap) + Results(files[i..j], errorMap)
  {
    assert forall k :: 0 <= k < i ==> files[..i][k] == files[k];
    assert forall k :: 0 <= k < j - i ==> files[i..j][k] == files[i + k];
    assert forall k :: 0 <= k < j ==> files[..j][k] == files[k];
  }

  /** Merging the results of the files before `i`, then those of the chunk up to `end`, is merging
      the results of all files before `end`. */
  lemma ChunkStep(files: seq<LogFile>, errorMap: map<string, MatrixEntry>, i: nat, end: nat)
    requires AllReadable(files) && i <= end <= |files|
    ensures AllReadable(files[..i]) && AllReadable(files[i..end]) && AllReadable(files[..end])
    ensures Fold(EMPTY, Results(files[..end], errorMap))
         == Fold(Fold(EMPTY, Results(files[..i], errorMap)), Results(files[i..end], errorMap))
  {
    ResultsSlice(files, errorMap, i, end);
    FoldAppend(EMPTY, Results(files[..i], errorMap), Results(files[i..end], errorMap));
  }

  // ---------------------------------------------------------------------------
  // Merging the results of a chunk
  // ---------------------------------------------------------------------------

  datatype Accumulators = Accumulators(collect: seq<CashRecord>, deposit: seq<CashRecord>,
                                       unverified: seq<CashRecord>, logs: seq<ErrorRecord>,
                                       errorCount: nat)

  const EMPTY: Accumulators := Accumulators([], [], [], [], 0)

  /** One step of `chunkResults.forEach`: the result goes to the list of its type. */
  function Push(acc: Accumulators, r: FileResult): Accumulators
  {
    match r
    case NoResult => acc
    case CashResult(c) =>
      (match c.kind
       case Collect => acc.(collect := acc.collect + [c])
       case Deposit => acc.(deposit := acc.deposit + [c])
       case Unverified => acc.(unverified := acc.unverified + [c]))
    case ErrorResult(log) => acc.(logs := acc.logs + [log], errorCount := acc.errorCount + log.errorCount)
  }

  /** The accumulators after pushing every result of `rs`, in order. */
  function Fold(acc: Accumulators, rs: seq<FileResult>): Accumulators
  {
    if rs == [] then acc else Push(Fold(acc, rs[..|rs| - 1]), rs[|rs| - 1])
  }

  lemma {:induction false} FoldAppend(acc: Accumulators, a: seq<FileResult>, b: seq<FileResult>)
    ensures Fold(acc, a + b) == Fold(Fold(acc, a), b)
  {
    if b == [] {
      assert a + b == a;
    } else {
      FoldAppend(acc, a, b[..|b| - 1]);
      assert (a + b)[..|a + b| - 1] == a + b[..|b| - 1];
    }
  }

  /** Merges one chunk's results into the accumulators. */
  method MergeChunk(acc: Accumulators, chunkResults: seq<FileResult>) returns (merged: Accumulators)
    ensures merged == Fold(acc, chunkResults)
  {
    merged := acc;
    var k := 0;
    while k < |chunkResults|
      invariant k <= |chunkResults|
      invariant merged == Fold(acc, chunkResults[..k])
    {
      assert chunkResults[..k + 1][..k] == chunkResults[..k];
      var res := chunkResults[k];
      match res {
        case NoResult =>
        case CashResult(c) =>
          match c.kind {
            case Collect => merged := merged.(collect := merged.collect + [c]);
            case Deposit => merged := merged.(deposit := merged.deposit + [c]);
            case Unverified => merged := merged.(unverified := merged.unverified + [c]);
          }
        case ErrorResult(log) =>
          merged := merged.(logs := merged.logs + [log], errorCount := merged.errorCount + log.errorCount);
      }
      k := k + 1;
    }
    assert chunkResults[..|chunkResults|] == chunkResults;
  }

  // Independent description of the merged lists: each is the results of its type, in input order.

  function CashOf(r: FileResult, kind: CashKind): Option<CashRecord> {
    if r.CashResult? && r.cash.kind == kind then Some(r.cash) else None
  }

  function LogOf(r: FileResult): Option<ErrorRecord> {
    if r.ErrorResult? then Some(r.log) else None
  }

  function CashOfKind(rs: seq<FileResult>, kind: CashKind): seq<CashRecord> {
    Somes(seq(|rs|, k requires 0 <= k < |rs| => CashOf(rs[k], kind)))
  }

  function LogsOf(rs: seq<FileResult>): seq<ErrorRecord> {
    Somes(seq(|rs|, k requires 0 <= k < |rs| => LogOf(rs[k])))
  }

  /** The sum of the error counts of a list of records. */
  function TotalCount(logs: seq<ErrorRecord>): nat {
    if logs == [] then 0 else TotalCount(logs[..|logs| - 1]) + logs[|logs| - 1].errorCount
  }

  /** Merging from empty lists gives each type's results in input order, and an error count that
      is the sum of the error records' counts. */
  lemma {:induction false} FoldSpec(rs: seq<FileResult>)
    ensures Fold(EMPTY, rs) == Accumulators(CashOfKind(rs, Collect), CashOfKind(rs, Deposit),
                                            CashOfKind(rs, Unverified), LogsOf(rs),
                                            TotalCount(LogsOf(rs)))
  {
    if rs != [] {
      var init := rs[..|rs| - 1];
      var x := rs[|rs| - 1];
      FoldSpec(init);
      assert Fold(EMPTY, rs) == Push(Fold(EMPTY, init), x);
      CashOfKindSnoc(rs, Collect);
      CashOfKindSnoc(rs, Deposit);
      CashOfKindSnoc(rs, Unverified);
      LogsOfSnoc(rs);
      PushSpec(Fold(EMPTY, init), x);
    }
  }

  /** Pushing one result appends it to the list of its type and nothing else. */
  lemma PushSpec(acc: Accumulators, x: FileResult)
    ensures Push(acc, x)
         == Accumulators(acc.collect + CashOf(x, Collect).ToSeq(), acc.deposit + CashOf(x, Deposit).ToSeq(),
                         acc.unverified + CashOf(x, Unverified).ToSeq(), acc.logs + LogOf(x).ToSeq(),
                         acc.errorCount + match LogOf(x) case Some(v) => v.errorCount case None => 0)
  {
    match x
    case NoResult =>
      assert acc.collect + [] == acc.collect && acc.deposit + [] == acc.deposit;
      assert acc.unverified + [] == acc.unverified && acc.logs + [] == acc.logs;
    case CashResult(c) =>
      assert acc.deposit + [] == acc.deposit && acc.collect + [] == acc.collect;
      assert acc.unverified + [] == acc.unverified && acc.logs + [] == acc.logs;
    case ErrorResult(log) =>
      assert acc.collect + [] == acc.collect && acc.deposit + [] == acc.deposit;
      assert acc.unverified + [] == acc.unverified;
  }

  lemma CashOfKindSnoc(rs: seq<FileResult>, kind: CashKind)
    requires rs != []
    ensures CashOfKind(rs, kind)
         == CashOfKind(rs[..|rs| - 1], kind) + CashOf(rs[|rs| - 1], kind).ToSeq()
  {
    var init, x := rs[..|rs| - 1], rs[|rs| - 1];
    var opts := seq(|init|, k requires 0 <= k < |init| => CashOf(init[k], kind));
    assert seq(|rs|, k requires 0 <= k < |rs| => CashOf(rs[k], kind)) == opts + [CashOf(x, kind)];
    SomesSnoc(opts, CashOf(x, kind));
  }

  lemma LogsOfSnoc(rs: seq<FileResult>)
    requires rs != []
    ensures LogsOf(rs) == LogsOf(rs[..|rs| - 1]) + LogOf(rs[|rs| - 1]).ToSeq()
    ensures TotalCount(LogsOf(rs))
         == TotalCount(LogsOf(rs[..|rs| - 1])) + match LogOf(rs[|rs| - 1]) case Some(v) => v.errorCount case None => 0
  {
    var init, x := rs[..|rs| - 1], rs[|rs| - 1];
    var opts := seq(|init|, k requires 0 <= k < |init| => LogOf(init[k]));
    assert seq(|rs|, k requires 0 <= k < |rs| => LogOf(rs[k])) == opts + [LogOf(x)];
    SomesSnoc(opts, LogOf(x));
    if x.ErrorResult? {
      var logs := LogsOf(init);
      assert LogsOf(rs) == logs + [x.log];
      assert (logs + [x.log])[..|logs|] == logs;
      assert TotalCount(logs + [x.log]) == TotalCount(logs) + x.log.errorCount;
    } else {
      assert LogOf(x) == None;
      assert LogsOf(rs) == LogsOf(init);
    }
  }

  // ---------------------------------------------------------------------------
  // Progress
  // ---------------------------------------------------------------------------

  function Min(a: int, b: int): int {
    if a <= b then a else b
  }

  /** `Math.round(done / n * 100)`, on exact rationals: the floor of `100 done / n + 1/2`. */
  function Percent(done: nat, n: nat): nat
    requires n > 0
  {
    (200 * done + n) / (2 * n)
  }

  /** The values reported after the chunks that start at `i`, `i + 50`, ... below `n`. */
  function ProgressFrom(i: nat, n: nat): seq<nat>
    requires n > 0
    decreases n - i
  {
    if i >= n then [] else [Percent(Min(i + CHUNK_SIZE, n), n)] + ProgressFrom(i + CHUNK_SIZE, n)
  }

  /** Every value reported for `n` files: 0 at the start, then one value per chunk. */
  function Progress(n: nat): seq<nat>
    requires n > 0
  {
    [0] + ProgressFrom(0, n)
  }

  lemma PercentMonotone(a: nat, b: nat, n: nat)
    requires a <= b && n > 0
    ensures Percent(a, n) <= Percent(b, n)
  {
    DivMonotone(200 * a + n, 200 * b + n, 2 * n);
  }

  lemma DivMonotone(x: nat, y: nat, d: nat)
    requires x <= y && d > 0
    ensures x / d <= y / d
  {
    var qx, qy := x / d, y / d;
    assert d * qx + x % d == x && d * qy + y % d == y;
    if qx > qy {
      MulAtLeast(d, qx - qy);
    }
  }

  /** The quotient is the unique `q` with `a == d * q + r` and `0 <= r < d`. */
  lemma DivUnique(a: int, d: int, q: int, r: int)
    requires d > 0 && a == d * q + r && 0 <= r < d
    ensures a / d == q
  {
    var q' := a / d;
    assert d * q' + a % d == a;
    assert d * (q - q') == a % d - r;
    if q > q' {
      MulAtLeast(d, q - q');
    } else if q < q' {
      MulAtLeast(d, q' - q);
    }
  }

  lemma {:induction false} MulAtLeast(d: nat, k: nat)
    requires k >= 1
    ensures d * k >= d
  {
    if k > 1 {
      MulAtLeast(d, k - 1);
      assert d * k == d * (k - 1) + d;
    }
  }

  lemma PercentOfAll(n: nat)
    requires n > 0
    ensures Percent(n, n) == 100
  {
    DivUnique(200 * n + n, 2 * n, 100, n);
  }

  /** The values after the chunks from `i` on never fall, never pass 100, and end at 100. */
  lemma {:induction false} ProgressFromSpec(i: nat, n: nat)
    requires n > 0
    ensures var p := ProgressFrom(i, n);
      && (forall k :: 0 <= k < |p| ==> p[k] <= 100)
      && (forall k :: 0 <= k < |p| - 1 ==> p[k] <= p[k + 1])
      && (p != [] ==> p[|p| - 1] == 100 && p[0] == Percent(Min(i + CHUNK_SIZE, n), n))
      && (p == [] <==> i >= n)
    decreases n - i
  {
    if i < n {
      ProgressFromSpec(i + CHUNK_SIZE, n);
      PercentMonotone(Min(i + CHUNK_SIZE, n), n, n);
      PercentOfAll(n);
      PercentMonotone(Min(i + CHUNK_SIZE, n), Min(i + 2 * CHUNK_SIZE, n), n);
    }
  }

  /** Progress starts at 0, never falls, stays within 100 and ends at 100 after the last chunk. */
  lemma ProgressSpec(n: nat)
    requires n > 0
    ensures var p := Progress(n);
      && p[0] == 0 && |p| >= 2 && p[|p| - 1] == 100
      && (forall k :: 0 <= k < |p| ==> p[k] <= 100)
      && (forall k :: 0 <= k < |p| - 1 ==> p[k] <= p[k + 1])
  {
    ProgressFromSpec(0, n);
    var p := Progress(n);
    var q := ProgressFrom(0, n);
    assert forall k :: 0 < k < |p| ==> p[k] == q[k - 1];
  }

  // ---------------------------------------------------------------------------
  // The batch
  // ---------------------------------------------------------------------------

  datatype Stats = Stats(totalFiles: nat, filesWithErrors: nat, totalErrors: nat)

  datatype Batch = Batch(collect: seq<CashRecord>, deposit: seq<CashRecord>,
                         unverified: seq<CashRecord>, logs: seq<ErrorRecord>,
                         stats: Stats, progress: seq<nat>)

  /** No files: nothing happens. No matrix: the user is sent to the configuration tab. */
  datatype Outcome = NoFiles | MatrixMissing | Processed(batch: Batch)

  /** The sort key of a cash record: its date field read by `new Date`. */
  function TimeKey(timeOf: string -> Option<int>): CashRecord -> Option<int>
  {
    (r: CashRecord) => timeOf(r.timestamp)
  }

  /** The state `processLogFiles` leaves behind. */
  function BatchOf(files: seq<LogFile>, matrix: seq<MatrixEntry>, timeOf: string -> Option<int>): Batch
    requires AllReadable(files) && files != []
  {
    var acc := Fold(EMPTY, Results(files, MatrixMap(matrix)));
    Batch(SortDesc(acc.collect, TimeKey(timeOf)), SortDesc(acc.deposit, TimeKey(timeOf)),
          acc.unverified, acc.logs, Stats(|files|, |acc.logs|, acc.errorCount), Progress(|files|))
  }

  /** `processLogFiles(files)` against the loaded matrix; `timeOf` is `new Date` on a date text. */
  method ProcessLogFiles(files: seq<LogFile>, matrix: seq<MatrixEntry>, timeOf: string -> Option<int>)
    returns (outcome: Outcome)
    requires AllReadable(files)
    ensures files == [] ==> outcome == NoFiles
    ensures files != [] && matrix == [] ==> outcome == MatrixMissing
    ensures files != [] && matrix != [] ==> outcome == Processed(BatchOf(files, matrix, timeOf))
  {
    if |files| == 0 { return NoFiles; }
    if |matrix| == 0 { return MatrixMissing; }
    var errorMap := BuildErrorMap(matrix);
    var acc, progress := ProcessChunks(files, errorMap);
    var collect := SortDesc(acc.collect, TimeKey(timeOf));
    var deposit := SortDesc(acc.deposit, TimeKey(timeOf));
    outcome := Processed(Batch(collect, deposit, acc.unverified, acc.logs,
                               Stats(|files|, |acc.logs|, acc.errorCount), progress));
  }

  /** The chunk loop of `processLogFiles`: fifty files at a time, merging each chunk's results
      and reporting the progress after it. */
  method ProcessChunks(files: seq<LogFile>, errorMap: map<string, MatrixEntry>)
    returns (acc: Accumulators, progress: seq<nat>)
    requires AllReadable(files) && files != []
    ensures acc == Fold(EMPTY, Results(files, errorMap))
    ensures progress == Progress(|files|)
  {
    var n := |files|;
    progress := [0];
    acc := EMPTY;
    var i: nat := 0;
    while i < n
      invariant AllReadable(files[..Min(i, n)])
      invariant acc == Fold(EMPTY, Results(files[..Min(i, n)], errorMap))
      invariant progress + ProgressFrom(i, n) == Progress(n)
    {
      var end := Min(i + CHUNK_SIZE, n);
      var chunk := files[i..end];
      ChunkStep(files, errorMap, i, end);
      acc := MergeChunk(acc, Results(chunk, errorMap));
      ProgressStep(progress, i, n);
      progress := progress + [Percent(i + |chunk|, n)];
      i := i + CHUNK_SIZE;
    }
    assert files[..n] == files;
  }

  /** Reporting one more chunk moves its value from the values still to come to those reported. */
  lemma ProgressStep(progress: seq<nat>, i: nat, n: nat)
    requires 0 < n && i < n
    ensures progress + ProgressFrom(i, n)
         == (progress + [Percent(Min(i + CHUNK_SIZE, n), n)]) + ProgressFrom(i + CHUNK_SIZE, n)
  {
    assert ProgressFrom(i, n) == [Percent(Min(i + CHUNK_SIZE, n), n)] + ProgressFrom(i + CHUNK_SIZE, n);
  }

  /** The batch's lists and statistics: the cash lists are the cash records of their type sorted by
      descending date (a permutation), the unverified and error lists keep input order, and the
      statistics count the files, the error records and the sum of their error counts, which is the
      number of events in them. */
  lemma BatchSpec(files: seq<LogFile>, matrix: seq<MatrixEntry>, timeOf: string -> Option<int>)
    requires AllReadable(files) && files != []
    ensures var b := BatchOf(files, matrix, timeOf); var rs := Results(files, MatrixMap(matrix));
      && SortedDesc(b.collect, TimeKey(timeOf)) && multiset(b.collect) == multiset(CashOfKind(rs, Collect))
      && SortedDesc(b.deposit, TimeKey(timeOf)) && multiset(b.deposit) == multiset(CashOfKind(rs, Deposit))
      && b.unverified == CashOfKind(rs, Unverified)
      && b.logs == LogsOf(rs)
      && b.stats.totalFiles == |files|
      && b.stats.filesWithErrors == |b.logs|
      && b.stats.totalErrors == TotalCount(b.logs) == TotalEvents(b.logs)
  {
    var rs := Results(files, MatrixMap(matrix));
    FoldSpec(rs);
    SortDescSpec(CashOfKind(rs, Collect), TimeKey(timeOf));
    SortDescSpec(CashOfKind(rs, Deposit), TimeKey(timeOf));
    LogsWellFormed(files, MatrixMap(matrix));
    CountsAreEvents(LogsOf(rs));
  }

  /** The number of events in a list of error records. */
  function TotalEvents(logs: seq<ErrorRecord>): nat {
    if logs == [] then 0 else TotalEvents(logs[..|logs| - 1]) + |logs[|logs| - 1].errors|
  }

  lemma {:induction false} CountsAreEvents(logs: seq<ErrorRecord>)
    requires forall k :: 0 <= k < |logs| ==> logs[k].errorCount == |logs[k].errors|
    ensures TotalCount(logs) == TotalEvents(logs)
  {
    if logs != [] {
      CountsAreEvents(logs[..|logs| - 1]);
    }
  }

  /** Every error record of the batch counts its own events and has at least one. */
  lemma LogsWellFormed(files: seq<LogFile>, errorMap: map<string, MatrixEntry>)
    requires AllReadable(files)
    ensures var logs := LogsOf(Results(files, errorMap));
      forall k :: 0 <= k < |logs| ==> logs[k].errorCount == |logs[k].errors| > 0
  {
    var rs := Results(files, errorMap);
    var opts := seq(|rs|, k requires 0 <= k < |rs| => LogOf(rs[k]));
    forall k | 0 <= k < |LogsOf(rs)|
      ensures LogsOf(rs)[k].errorCount == |LogsOf(rs)[k].errors| > 0
    {
      var log := LogsOf(rs)[k];
      assert log in Somes(opts);
      var i := SomesFrom(opts, log);
      assert rs[i] == ProcessFile(files[i], errorMap);
    }
  }
}
