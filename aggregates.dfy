/**
 * The figures derived from a processed batch: the ten most frequent error codes, the errors per
 * day, the events per category, the money totals and the deposit success rate.
 */
module Aggregates {
  import opened Wrappers
  import opened Parsers
  import opened LogAnalysis
  import opened Sorting
  import opened Tally
  import opened Calendar

  const TOP_LIMIT: nat := 10
  const NO_CATEGORY: string := "Sin Categoría"
  const DEPOSITS_LABEL: string := "Depósitos Exitosos"
  const UNVERIFIED_LABEL: string := "No Verificados / Fallidos"

  /** `counts[k]` read as a number, where a missing key reads as 0. */
  function Lookup<T>(counts: map<T, nat>, k: T): nat {
    if k in counts then counts[k] else 0
  }

  // ---------------------------------------------------------------------------
  // Counting events by a key
  // ---------------------------------------------------------------------------

  function KeysOf(events: seq<ErrorEvent>, key: ErrorEvent -> string): (ks: seq<string>)
    ensures |ks| == |events|
  {
    seq(|events|, k requires 0 <= k < |events| => key(events[k]))
  }

  /** The key of every event of every record, records in order and events in order. */
  function EventKeys(logs: seq<ErrorRecord>, key: ErrorEvent -> string): seq<string>
  {
    if logs == [] then [] else EventKeys(logs[..|logs| - 1], key) + KeysOf(logs[|logs| - 1].errors, key)
  }

  /** Counting one more occurrence of `k`. */
  lemma TallyStep(xs: seq<string>, k: string)
    ensures Ones(xs + [k]) == Ones(xs) + [Weighted(k, 1)]
    ensures var counts := Accumulate(Ones(xs));
      && Accumulate(Ones(xs + [k])) == counts[k := Lookup(counts, k) + 1]
      && Distinct(xs + [k]) == if k in counts then Distinct(xs) else Distinct(xs) + [k]
  {
    OnesSnoc(xs, k);
    TallyCountStep(xs, k);
    TallyKeyStep(xs, k);
  }

  lemma OnesSnoc(xs: seq<string>, k: string)
    ensures Ones(xs + [k]) == Ones(xs) + [Weighted(k, 1)]
  {
    assert Ones(xs + [k]) == Ones(xs) + [Weighted(k, 1)];
  }

  lemma TallyCountStep(xs: seq<string>, k: string)
    ensures Accumulate(Ones(xs + [k])) == Accumulate(Ones(xs))[k := Lookup(Accumulate(Ones(xs)), k) + 1]
  {
    OnesSnoc(xs, k);
    UpdateStep(Ones(xs), Weighted(k, 1));
  }

  lemma TallyKeyStep(xs: seq<string>, k: string)
    ensures Distinct(xs + [k]) == if k in Accumulate(Ones(xs)) then Distinct(xs) else Distinct(xs) + [k]
  {
    assert (xs + [k])[..|xs|] == xs;
    OnesCount(xs, k);
    AccumulateSpec(Ones(xs));
  }

  /** The inner `forEach`: counts the keys of one record's events. */
  method TallyRecord(keys: seq<string>, counts: map<string, nat>, events: seq<ErrorEvent>,
                     key: ErrorEvent -> string, ghost xs: seq<string>)
    returns (keys': seq<string>, counts': map<string, nat>)
    requires keys == Distinct(xs) && counts == Accumulate(Ones(xs))
    ensures keys' == Distinct(xs + KeysOf(events, key))
    ensures counts' == Accumulate(Ones(xs + KeysOf(events, key)))
  {
    keys', counts' := keys, counts;
    assert xs + KeysOf(events[..0], key) == xs;
    var j := 0;
    while j < |events|
      invariant j <= |events|
      invariant keys' == Distinct(xs + KeysOf(events[..j], key))
      invariant counts' == Accumulate(Ones(xs + KeysOf(events[..j], key)))
    {
      var k := key(events[j]);
      KeysOfStep(xs, events, key, j);
      TallyRecordStep(keys', counts', xs + KeysOf(events[..j], key), k);
      if k in counts' {
        counts' := counts'[k := counts'[k] + 1];
      } else {
        keys' := keys' + [k];
        counts' := counts'[k := 1];
      }
      j := j + 1;
    }
    assert events[..|events|] == events;
  }

  lemma KeysOfStep(xs: seq<string>, events: seq<ErrorEvent>, key: ErrorEvent -> string, j: nat)
    requires j < |events|
    ensures xs + KeysOf(events[..j + 1], key) == (xs + KeysOf(events[..j], key)) + [key(events[j])]
  {
    assert KeysOf(events[..j + 1], key) == KeysOf(events[..j], key) + [key(events[j])];
  }

  /** One turn of the inner loop, on the dictionary and its key list. */
  lemma TallyRecordStep(keys: seq<string>, counts: map<string, nat>, ys: seq<string>, k: string)
    requires keys == Distinct(ys) && counts == Accumulate(Ones(ys))
    ensures k in counts ==>
      Distinct(ys + [k]) == keys && Accumulate(Ones(ys + [k])) == counts[k := counts[k] + 1]
    ensures k !in counts ==>
      Distinct(ys + [k]) == keys + [k] && Accumulate(Ones(ys + [k])) == counts[k := 1]
  {
    TallyStep(ys, k);
  }

  /** The two nested `forEach` over records and events: the dictionary of key counts, with its
      keys in first-insertion order. */
  method TallyEvents(logs: seq<ErrorRecord>, key: ErrorEvent -> string)
    returns (keys: seq<string>, counts: map<string, nat>)
    ensures keys == Distinct(EventKeys(logs, key))
    ensures counts == Accumulate(Ones(EventKeys(logs, key)))
  {
    keys, counts := [], map[];
    var i := 0;
    while i < |logs|
      invariant i <= |logs|
      invariant keys == Distinct(EventKeys(logs[..i], key))
      invariant counts == Accumulate(Ones(EventKeys(logs[..i], key)))
    {
      assert logs[..i + 1][..i] == logs[..i];
      keys, counts := TallyRecord(keys, counts, logs[i].errors, key, EventKeys(logs[..i], key));
      i := i + 1;
    }
    assert logs[..|logs|] == logs;
  }

  /** The key counts: every key listed once, each with its number of occurrences. */
  lemma CountsSpec(xs: seq<string>)
    ensures forall k :: k in Distinct(xs) <==> k in xs
    ensures forall i, j :: 0 <= i < j < |Distinct(xs)| ==> Distinct(xs)[i] != Distinct(xs)[j]
    ensures forall k :: Lookup(Accumulate(Ones(xs)), k) == multiset(xs)[k]
  {
    DistinctSpec(xs);
    AccumulateSpec(Ones(xs));
    forall k
      ensures Lookup(Accumulate(Ones(xs)), k) == multiset(xs)[k]
    {
      OnesCount(xs, k);
    }
  }

  // ---------------------------------------------------------------------------
  // Top ten errors
  // ---------------------------------------------------------------------------

  datatype TopError = TopError(name: string, count: nat, desc: string)

  function CodeKey(e: ErrorEvent): string {
    e.code
  }

  /** The description of the first matrix entry with this code (`matrixData.find`). */
  function Describe(matrix: seq<MatrixEntry>, code: string): string
  {
    if matrix == [] then NO_DESCRIPTION
    else if matrix[0].code == code then matrix[0].description
    else Describe(matrix[1..], code)
  }

  /** A code the matrix lacks reads 'Sin descripción'; otherwise the first entry with it decides. */
  lemma {:induction false} DescribeSpec(matrix: seq<MatrixEntry>, code: string) returns (j: nat)
    ensures j <= |matrix| && forall k :: 0 <= k < j ==> matrix[k].code != code
    ensures j == |matrix| ==> Describe(matrix, code) == NO_DESCRIPTION
    ensures j < |matrix| ==> matrix[j].code == code && Describe(matrix, code) == matrix[j].description
  {
    if matrix == [] {
      j := 0;
    } else if matrix[0].code == code {
      j := 0;
    } else {
      var j' := DescribeSpec(matrix[1..], code);
      j := j' + 1;
      forall k | 0 < k < j
        ensures matrix[k].code != code
      {
        assert matrix[k] == matrix[1..][k - 1];
      }
    }
  }

  function CountKey(e: TopError): Option<int> {
    Some(e.count)
  }

  function TopEntries(keys: seq<string>, counts: map<string, nat>, matrix: seq<MatrixEntry>): (es: seq<TopError>)
    ensures |es| == |keys|
  {
    seq(|keys|, k requires 0 <= k < |keys| => TopError(keys[k], Lookup(counts, keys[k]), Describe(matrix, keys[k])))
  }

  /** `topErrorsData`: the code counts by descending count, at most ten. */
  function TopErrors(logs: seq<ErrorRecord>, matrix: seq<MatrixEntry>): seq<TopError>
  {
    var xs := EventKeys(logs, CodeKey);
    Top(TopEntries(Distinct(xs), Accumulate(Ones(xs)), matrix))
  }

  method TopErrorsData(logs: seq<ErrorRecord>, matrix: seq<MatrixEntry>) returns (top: seq<TopError>)
    ensures top == TopErrors(logs, matrix)
  {
    var keys, counts := TallyEvents(logs, CodeKey);
    var sorted := SortDesc(TopEntries(keys, counts, matrix), CountKey);
    top := sorted[..Min(TOP_LIMIT, |sorted|)];
  }

  /** At most ten codes, by non-increasing count, each listed once with its number of events and
      its description; a code left out of a full list occurs no more often than any listed one. */
  lemma TopErrorsSpec(logs: seq<ErrorRecord>, matrix: seq<MatrixEntry>)
    ensures var xs := EventKeys(logs, CodeKey); var top := TopErrors(logs, matrix);
      && |top| == Min(TOP_LIMIT, |Distinct(xs)|)
      && (forall i, j :: 0 <= i < j < |top| ==> top[i].count >= top[j].count)
      && (forall i, j :: 0 <= i < j < |top| ==> top[i].name != top[j].name)
      && (forall k :: 0 <= k < |top| ==>
            top[k].name in xs && top[k].count == multiset(xs)[top[k].name]
            && top[k].desc == Describe(matrix, top[k].name))
      && (forall c :: c in xs && (forall k :: 0 <= k < |top| ==> top[k].name != c) ==>
            forall k :: 0 <= k < |top| ==> multiset(xs)[c] <= top[k].count)
  {
    var xs := EventKeys(logs, CodeKey);
    var entries := TopEntries(Distinct(xs), Accumulate(Ones(xs)), matrix);
    CountsSpec(xs);
    TopOrdered(entries);
    TopNames(xs, entries, matrix);
    TopCutoff(xs, entries, matrix);
  }

  /** The cut list: the first entries by non-increasing count. */
  function Top(entries: seq<TopError>): seq<TopError> {
    var sorted := SortDesc(entries, CountKey);
    sorted[..Min(TOP_LIMIT, |sorted|)]
  }

  lemma TopOrdered(entries: seq<TopError>)
    ensures |Top(entries)| == Min(TOP_LIMIT, |entries|)
    ensures forall i, j :: 0 <= i < j < |Top(entries)| ==> Top(entries)[i].count >= Top(entries)[j].count
  {
    SortDescSpec(entries, CountKey);
    var sorted := SortDesc(entries, CountKey);
    forall i, j | 0 <= i < j < |Top(entries)|
      ensures Top(entries)[i].count >= Top(entries)[j].count
    {
      assert Ranks(CountKey(sorted[i]), CountKey(sorted[j]));
    }
  }

  /** The entries built from the distinct codes carry distinct names, counts and descriptions. */
  lemma TopNames(xs: seq<string>, entries: seq<TopError>, matrix: seq<MatrixEntry>)
    requires entries == TopEntries(Distinct(xs), Accumulate(Ones(xs)), matrix)
    requires forall i, j :: 0 <= i < j < |Distinct(xs)| ==> Distinct(xs)[i] != Distinct(xs)[j]
    requires forall k :: k in Distinct(xs) <==> k in xs
    requires forall k :: Lookup(Accumulate(Ones(xs)), k) == multiset(xs)[k]
    ensures var top := Top(entries);
      && (forall i, j :: 0 <= i < j < |top| ==> top[i].name != top[j].name)
      && (forall k :: 0 <= k < |top| ==>
            top[k].name in xs && top[k].count == multiset(xs)[top[k].name]
            && top[k].desc == Describe(matrix, top[k].name))
  {
    var keys := Distinct(xs);
    var sorted := SortDesc(entries, CountKey);
    var top := Top(entries);
    assert NoDuplicates(entries) by {
      forall i, j | 0 <= i < j < |entries|
        ensures entries[i] != entries[j]
      {
        assert entries[i].name == keys[i];
      }
    }
    SortDescNoDuplicates(entries, CountKey);
    forall i, j | 0 <= i < j < |top|
      ensures top[i].name != top[j].name
    {
      var a := SortedFrom(entries, CountKey, i);
      var b := SortedFrom(entries, CountKey, j);
      assert sorted[i] != sorted[j];
      assert entries[a].name == keys[a] && entries[b].name == keys[b];
    }
    forall k | 0 <= k < |top|
      ensures top[k].name in xs && top[k].count == multiset(xs)[top[k].name]
      ensures top[k].desc == Describe(matrix, top[k].name)
    {
      var a := SortedFrom(entries, CountKey, k);
      assert keys[a] in keys;
    }
  }

  /** A code that missed the cut occurs no more often than any code that made it. */
  lemma TopCutoff(xs: seq<string>, entries: seq<TopError>, matrix: seq<MatrixEntry>)
    requires entries == TopEntries(Distinct(xs), Accumulate(Ones(xs)), matrix)
    requires forall k :: k in Distinct(xs) <==> k in xs
    requires forall k :: Lookup(Accumulate(Ones(xs)), k) == multiset(xs)[k]
    ensures var top := Top(entries);
      forall c :: c in xs && (forall k :: 0 <= k < |top| ==> top[k].name != c) ==>
        forall k :: 0 <= k < |top| ==> multiset(xs)[c] <= top[k].count
  {
    var keys := Distinct(xs);
    var top := Top(entries);
    assert forall k :: 0 <= k < |top| ==> top[k] == SortDesc(entries, CountKey)[k];
    forall c | c in xs && (forall k :: 0 <= k < |top| ==> top[k].name != c)
      ensures forall k :: 0 <= k < |top| ==> multiset(xs)[c] <= top[k].count
    {
      var a :| 0 <= a < |keys| && keys[a] == c;
      var p := SortedHas(entries, CountKey, a);
      assert SortDesc(entries, CountKey)[p].name == c;
      assert p >= |top|;
      TopBelow(entries, p);
    }
  }

  /** Whatever sorts below the cut counts no more than anything above it. */
  lemma TopBelow(entries: seq<TopError>, p: nat)
    requires |Top(entries)| <= p < |entries|
    ensures forall k :: 0 <= k < |Top(entries)| ==> SortDesc(entries, CountKey)[p].count <= Top(entries)[k].count
  {
    var sorted := SortDesc(entries, CountKey);
    SortDescSpec(entries, CountKey);
    forall k | 0 <= k < |Top(entries)|
      ensures sorted[p].count <= Top(entries)[k].count
    {
      assert Ranks(CountKey(sorted[k]), CountKey(sorted[p]));
    }
  }

  // ---------------------------------------------------------------------------
  // Events per category
  // ---------------------------------------------------------------------------

  datatype CategoryCount = CategoryCount(name: string, value: nat)

  /** `e.category || 'Sin Categoría'`. */
  function CategoryKey(e: ErrorEvent): string {
    if e.category != "" then e.category else NO_CATEGORY
  }

  /** `categoryData`: one entry per category in first-seen order, with its number of events. */
  function CategoryData(logs: seq<ErrorRecord>): seq<CategoryCount>
  {
    var xs := EventKeys(logs, CategoryKey);
    var keys := Distinct(xs);
    seq(|keys|, k requires 0 <= k < |keys| => CategoryCount(keys[k], Lookup(Accumulate(Ones(xs)), keys[k])))
  }

  method CategoryCounts(logs: seq<ErrorRecord>) returns (data: seq<CategoryCount>)
    ensures data == CategoryData(logs)
  {
    var keys, counts := TallyEvents(logs, CategoryKey);
    data := seq(|keys|, k requires 0 <= k < |keys| => CategoryCount(keys[k], Lookup(counts, keys[k])));
  }

  /** Each category appears once with its number of events, and the values add up to the number
      of events. */
  lemma CategoryDataSpec(logs: seq<ErrorRecord>)
    ensures var xs := EventKeys(logs, CategoryKey); var data := CategoryData(logs);
      && (forall c :: c in xs <==> exists k :: 0 <= k < |data| && data[k].name == c)
      && (forall i, j :: 0 <= i < j < |data| ==> data[i].name != data[j].name)
      && (forall k :: 0 <= k < |data| ==> data[k].value == multiset(xs)[data[k].name])
      && SumValues(data) == |xs|
  {
    CategoryNames(logs);
    CategoryValues(logs);
  }

  lemma CategoryNames(logs: seq<ErrorRecord>)
    ensures var xs := EventKeys(logs, CategoryKey); var data := CategoryData(logs);
      && (forall c :: c in xs <==> exists k :: 0 <= k < |data| && data[k].name == c)
      && (forall i, j :: 0 <= i < j < |data| ==> data[i].name != data[j].name)
  {
    var xs := EventKeys(logs, CategoryKey);
    var data := CategoryData(logs);
    CountsSpec(xs);
    forall c | c in xs
      ensures exists k :: 0 <= k < |data| && data[k].name == c
    {
      var k :| 0 <= k < |Distinct(xs)| && Distinct(xs)[k] == c;
      assert data[k].name == c;
    }
  }

  lemma CategoryValues(logs: seq<ErrorRecord>)
    ensures var xs := EventKeys(logs, CategoryKey); var data := CategoryData(logs);
      && (forall k :: 0 <= k < |data| ==> data[k].value == multiset(xs)[data[k].name])
      && SumValues(data) == |xs|
  {
    var xs := EventKeys(logs, CategoryKey);
    var data := CategoryData(logs);
    CountsSpec(xs);
    DistinctCountsAdd(xs);
    SumValuesOf(data, Distinct(xs), multiset(xs));
  }

  function SumValues(data: seq<CategoryCount>): nat {
    if data == [] then 0 else SumValues(data[..|data| - 1]) + data[|data| - 1].value
  }

  /** The sum of the occurrence counts of `keys` in `m`. */
  function SumCounts(keys: seq<string>, m: multiset<string>): nat {
    if keys == [] then 0 else SumCounts(keys[..|keys| - 1], m) + m[keys[|keys| - 1]]
  }

  lemma {:induction false} SumValuesOf(data: seq<CategoryCount>, keys: seq<string>, m: multiset<string>)
    requires |data| == |keys|
    requires forall k :: 0 <= k < |data| ==> data[k].value == m[keys[k]]
    ensures SumValues(data) == SumCounts(keys, m)
  {
    if data != [] {
      SumValuesOf(data[..|data| - 1], keys[..|keys| - 1], m);
    }
  }

  /** Over the distinct keys, the counts add up to the length of the list. */
  lemma {:induction false} DistinctCountsAdd(xs: seq<string>)
    ensures SumCounts(Distinct(xs), multiset(xs)) == |xs|
  {
    if xs != [] {
      var init := xs[..|xs| - 1];
      var x := xs[|xs| - 1];
      DistinctCountsAdd(init);
      assert xs == init + [x];
      DistinctSpec(init);
      if x in init {
        CountsOneMore(Distinct(init), multiset(init), x);
      } else {
        CountsOneMore(Distinct(init), multiset(init), x);
        assert multiset(xs)[x] == 1;
      }
    }
  }

  /** One more occurrence of `x` adds one to the sum when `x` is listed once, nothing when it is not listed. */
  lemma {:induction false} CountsOneMore(keys: seq<string>, m: multiset<string>, x: string)
    requires forall i, j :: 0 <= i < j < |keys| ==> keys[i] != keys[j]
    ensures SumCounts(keys, m + multiset{x}) == SumCounts(keys, m) + (if x in keys then 1 else 0)
  {
    if keys != [] {
      var init := keys[..|keys| - 1];
      CountsOneMore(init, m, x);
      assert keys == init + [keys[|keys| - 1]];
      if keys[|keys| - 1] == x {
        assert x !in init;
      }
    }
  }

  // ---------------------------------------------------------------------------
  // Errors per day
  // ---------------------------------------------------------------------------

  datatype TrendPoint = TrendPoint(day: int, count: nat)

  /** A record enters the trend when it has errors and its time is a valid date. */
  predicate Dated(log: ErrorRecord) {
    log.errorCount > 0 && DateValue(log.timestamp).Some?
  }

  /** The updates `dataByDate[dateKey] += errorCount`, one per dated record, in order. */
  function TrendUpdates(logs: seq<ErrorRecord>): seq<Weighted<int>>
  {
    if logs == [] then []
    else
      var log := logs[|logs| - 1];
      TrendUpdates(logs[..|logs| - 1])
      + (if Dated(log) then [Weighted(DayNumber(log.timestamp), log.errorCount)] else [])
  }

  /** Days read back in ascending order. */
  function Earlier(p: TrendPoint): Option<int> {
    Some(-p.day)
  }

  function TrendPoints(days: seq<int>, sums: map<int, nat>): (ps: seq<TrendPoint>)
    ensures |ps| == |days|
  {
    seq(|days|, k requires 0 <= k < |days| => TrendPoint(days[k], Lookup(sums, days[k])))
  }

  /** `errorTrendData`: the error counts of the dated records summed per day, by ascending day. */
  function ErrorTrend(logs: seq<ErrorRecord>): seq<TrendPoint>
  {
    var ps := TrendUpdates(logs);
    SortDesc(TrendPoints(Distinct(Keys(ps)), Accumulate(ps)), Earlier)
  }

  method ErrorTrendData(logs: seq<ErrorRecord>) returns (trend: seq<TrendPoint>)
    ensures trend == ErrorTrend(logs)
  {
    var days: seq<int> := [];
    var sums: map<int, nat> := map[];
    var i := 0;
    while i < |logs|
      invariant i <= |logs|
      invariant days == Distinct(Keys(TrendUpdates(logs[..i])))
      invariant sums == Accumulate(TrendUpdates(logs[..i]))
    {
      var log := logs[i];
      TrendStep(logs, i, days, sums);
      if log.errorCount > 0 && DateValue(log.timestamp).Some? {
        var day := DayNumber(log.timestamp);
        if day in sums {
          sums := sums[day := sums[day] + log.errorCount];
        } else {
          days := days + [day];
          sums := sums[day := log.errorCount];
        }
      }
      i := i + 1;
    }
    assert logs[..|logs|] == logs;
    trend := SortDesc(TrendPoints(days, sums), Earlier);
  }

  /** One turn of the trend loop: a dated record adds its count to its day, listing the day if it
      is new; any other record changes nothing. */
  lemma TrendStep(logs: seq<ErrorRecord>, i: nat, days: seq<int>, sums: map<int, nat>)
    requires i < |logs|
    requires days == Distinct(Keys(TrendUpdates(logs[..i]))) && sums == Accumulate(TrendUpdates(logs[..i]))
    ensures var log := logs[i]; var day := DayNumber(log.timestamp);
      Dated(log) && day in sums ==>
        Distinct(Keys(TrendUpdates(logs[..i + 1]))) == days
        && Accumulate(TrendUpdates(logs[..i + 1])) == sums[day := sums[day] + log.errorCount]
    ensures var log := logs[i]; var day := DayNumber(log.timestamp);
      Dated(log) && day !in sums ==>
        Distinct(Keys(TrendUpdates(logs[..i + 1]))) == days + [day]
        && Accumulate(TrendUpdates(logs[..i + 1])) == sums[day := log.errorCount]
    ensures !Dated(logs[i]) ==>
      Distinct(Keys(TrendUpdates(logs[..i + 1]))) == days
      && Accumulate(TrendUpdates(logs[..i + 1])) == sums
  {
    assert logs[..i + 1][..i] == logs[..i];
    var log := logs[i];
    if Dated(log) {
      var day := DayNumber(log.timestamp);
      UpdateStep(TrendUpdates(logs[..i]), Weighted(day, log.errorCount));
      assert TrendUpdates(logs[..i + 1]) == TrendUpdates(logs[..i]) + [Weighted(day, log.errorCount)];
    } else {
      assert TrendUpdates(logs[..i + 1]) == TrendUpdates(logs[..i]);
    }
  }

  /** The summed error count of the dated records on `day`. */
  function DaySum(logs: seq<ErrorRecord>, day: int): nat {
    if logs == [] then 0
    else
      var log := logs[|logs| - 1];
      DaySum(logs[..|logs| - 1], day) + (if Dated(log) && DayNumber(log.timestamp) == day then log.errorCount else 0)
  }

  predicate HasDay(logs: seq<ErrorRecord>, day: int) {
    exists k :: 0 <= k < |logs| && Dated(logs[k]) && DayNumber(logs[k].timestamp) == day
  }

  /** The updates give each day the sum of its records' counts, and list exactly the days of the
      dated records. */
  lemma {:induction false} TrendUpdatesSpec(logs: seq<ErrorRecord>)
    ensures forall day :: Total(TrendUpdates(logs), day) == DaySum(logs, day)
    ensures forall day :: day in Keys(TrendUpdates(logs)) <==> HasDay(logs, day)
  {
    if logs != [] {
      var init := logs[..|logs| - 1];
      var log := logs[|logs| - 1];
      TrendUpdatesSpec(init);
      var ps := TrendUpdates(init);
      var tail := if Dated(log) then [Weighted(DayNumber(log.timestamp), log.errorCount)] else [];
      assert TrendUpdates(logs) == ps + tail;
      TotalAppend(ps, tail);
      assert Keys(ps + tail) == Keys(ps) + Keys(tail);
      if Dated(log) {
        assert Keys(tail) == [DayNumber(log.timestamp)];
      } else {
        assert Keys(tail) == [];
      }
      forall day
        ensures HasDay(logs, day) <==> HasDay(init, day) || (Dated(log) && DayNumber(log.timestamp) == day)
      {
        if HasDay(init, day) {
          var k :| 0 <= k < |init| && Dated(init[k]) && DayNumber(init[k].timestamp) == day;
          assert logs[k] == init[k];
        }
        if HasDay(logs, day) {
          var k :| 0 <= k < |logs| && Dated(logs[k]) && DayNumber(logs[k].timestamp) == day;
          if k < |init| { assert init[k] == logs[k]; }
        }
      }
    }
  }

  lemma TotalAppend(ps: seq<Weighted<int>>, tail: seq<Weighted<int>>)
    requires |tail| <= 1
    ensures forall day :: Total(ps + tail, day) == Total(ps, day) + Total(tail, day)
  {
    if tail != [] {
      assert (ps + tail)[..|ps|] == ps;
      assert tail[..0] == [];
    } else {
      assert ps + tail == ps;
    }
  }

  /** One point per day that has dated errors, by strictly ascending day, each with that day's sum. */
  lemma ErrorTrendSpec(logs: seq<ErrorRecord>)
    ensures var trend := ErrorTrend(logs);
      && (forall i, j :: 0 <= i < j < |trend| ==> trend[i].day < trend[j].day)
      && (forall k :: 0 <= k < |trend| ==> HasDay(logs, trend[k].day) && trend[k].count == DaySum(logs, trend[k].day))
      && (forall day :: HasDay(logs, day) ==> exists k :: 0 <= k < |trend| && trend[k].day == day)
  {
    var ps := TrendUpdates(logs);
    TrendUpdatesSpec(logs);
    DistinctSpec(Keys(ps));
    AccumulateSpec(ps);
    TrendAscending(Distinct(Keys(ps)), Accumulate(ps));
    assert ErrorTrend(logs) == SortDesc(TrendPoints(Distinct(Keys(ps)), Accumulate(ps)), Earlier);
    TrendContents(logs, ps);
  }

  /** A record without errors, or whose time is no valid date, leaves the trend as it was. */
  lemma TrendSkipsUndated(logs: seq<ErrorRecord>, log: ErrorRecord)
    requires log.errorCount == 0 || !(-MAX_TIME <= log.timestamp <= MAX_TIME)
    ensures ErrorTrend(logs + [log]) == ErrorTrend(logs)
  {
    assert (logs + [log])[..|logs|] == logs;
    assert TrendUpdates(logs + [log]) == TrendUpdates(logs);
  }

  lemma TrendAscending(days: seq<int>, sums: map<int, nat>)
    requires forall i, j :: 0 <= i < j < |days| ==> days[i] != days[j]
    ensures var trend := SortDesc(TrendPoints(days, sums), Earlier);
      forall i, j :: 0 <= i < j < |trend| ==> trend[i].day < trend[j].day
  {
    var points := TrendPoints(days, sums);
    var trend := SortDesc(points, Earlier);
    SortDescSpec(points, Earlier);
    assert NoDuplicates(points) by {
      forall i, j | 0 <= i < j < |points|
        ensures points[i] != points[j]
      {
        assert points[i].day == days[i];
      }
    }
    SortDescNoDuplicates(points, Earlier);
    forall i, j | 0 <= i < j < |trend|
      ensures trend[i].day < trend[j].day
    {
      var a := SortedFrom(points, Earlier, i);
      var b := SortedFrom(points, Earlier, j);
      assert trend[i] != trend[j];
      assert points[a].day == days[a] && points[b].day == days[b];
      assert Ranks(Earlier(trend[i]), Earlier(trend[j]));
    }
  }

  lemma TrendContents(logs: seq<ErrorRecord>, ps: seq<Weighted<int>>)
    requires ps == TrendUpdates(logs)
    requires forall day :: Total(ps, day) == DaySum(logs, day)
    requires forall day :: day in Keys(ps) <==> HasDay(logs, day)
    requires forall x :: x in Distinct(Keys(ps)) <==> x in Keys(ps)
    requires forall key :: key in Accumulate(ps) ==> Accumulate(ps)[key] == Total(ps, key)
    requires forall key :: key in Accumulate(ps) <==> key in Keys(ps)
    ensures var trend := ErrorTrend(logs);
      && (forall k :: 0 <= k < |trend| ==> HasDay(logs, trend[k].day) && trend[k].count == DaySum(logs, trend[k].day))
      && (forall day :: HasDay(logs, day) ==> exists k :: 0 <= k < |trend| && trend[k].day == day)
  {
    var days := Distinct(Keys(ps));
    var points := TrendPoints(days, Accumulate(ps));
    var trend := ErrorTrend(logs);
    forall k | 0 <= k < |trend|
      ensures HasDay(logs, trend[k].day) && trend[k].count == DaySum(logs, trend[k].day)
    {
      var a := SortedFrom(points, Earlier, k);
      assert days[a] in days;
    }
    forall day | HasDay(logs, day)
      ensures exists k :: 0 <= k < |trend| && trend[k].day == day
    {
      var a :| 0 <= a < |days| && days[a] == day;
      var k := SortedHas(points, Earlier, a);
      assert trend[k].day == day;
    }
  }

  // ---------------------------------------------------------------------------
  // Money and success rate
  // ---------------------------------------------------------------------------

  /** `reduce((acc, curr) => acc + curr.amount, 0)`. */
  function SumAmounts(records: seq<CashRecord>): real {
    if records == [] then 0.0 else SumAmounts(records[..|records| - 1]) + records[|records| - 1].amount
  }

  datatype Amounts = Amounts(unverified: real, collected: real, deposited: real)

  function AmountsOf(batch: Batch): Amounts {
    Amounts(SumAmounts(batch.unverified), SumAmounts(batch.collect), SumAmounts(batch.deposit))
  }

  lemma {:induction false} SumAmountsAppend(a: seq<CashRecord>, b: seq<CashRecord>)
    ensures SumAmounts(a + b) == SumAmounts(a) + SumAmounts(b)
  {
    if b != [] {
      SumAmountsAppend(a, b[..|b| - 1]);
      assert (a + b)[..|a + b| - 1] == a + b[..|b| - 1];
    } else {
      assert a + b == a;
    }
  }

  /** A total does not depend on the order of the records: sorting the cash lists keeps it. */
  lemma {:induction false} SumAmountsPermutation(a: seq<CashRecord>, b: seq<CashRecord>)
    requires multiset(a) == multiset(b)
    ensures SumAmounts(a) == SumAmounts(b)
    decreases |a|
  {
    if a != [] {
      var x := a[|a| - 1];
      var init := a[..|a| - 1];
      assert a == init + [x];
      assert multiset(a) == multiset(init) + multiset{x};
      var p := PositionOf(b, x);
      var rest := b[..p] + b[p + 1..];
      WithoutOne(b, p);
      assert multiset(init) == multiset(rest);
      SumAmountsPermutation(init, rest);
      SumAmountsRemove(b, p);
    }
  }

  lemma PositionOf(s: seq<CashRecord>, x: CashRecord) returns (p: nat)
    requires x in multiset(s)
    ensures p < |s| && s[p] == x
  {
    p :| 0 <= p < |s| && s[p] == x;
  }

  /** Taking one record out of a list takes its amount out of the total. */
  lemma SumAmountsRemove(s: seq<CashRecord>, p: nat)
    requires p < |s|
    ensures SumAmounts(s) == SumAmounts(s[..p] + s[p + 1..]) + s[p].amount
  {
    var x := s[p];
    assert s == s[..p] + [x] + s[p + 1..];
    SumAmountsAppend(s[..p] + [x], s[p + 1..]);
    SumAmountsAppend(s[..p], [x]);
    SumAmountsAppend(s[..p], s[p + 1..]);
    assert SumAmounts([x]) == x.amount by { assert [x][..0] == []; }
  }

  lemma WithoutOne(s: seq<CashRecord>, p: nat)
    requires p < |s|
    ensures multiset(s[..p] + s[p + 1..]) == multiset(s) - multiset{s[p]}
  {
    assert s == s[..p] + [s[p]] + s[p + 1..];
  }

  /** The totals of the batch are those of its records before sorting. */
  lemma AmountsSpec(files: seq<LogFile>, matrix: seq<MatrixEntry>, timeOf: string -> Option<int>)
    requires AllReadable(files) && files != []
    ensures var rs := Results(files, MatrixMap(matrix)); var m := AmountsOf(BatchOf(files, matrix, timeOf));
      && m.collected == SumAmounts(CashOfKind(rs, Collect))
      && m.deposited == SumAmounts(CashOfKind(rs, Deposit))
      && m.unverified == SumAmounts(CashOfKind(rs, Unverified))
  {
    var rs := Results(files, MatrixMap(matrix));
    BatchSpec(files, matrix, timeOf);
    var b := BatchOf(files, matrix, timeOf);
    SumAmountsPermutation(b.collect, CashOfKind(rs, Collect));
    SumAmountsPermutation(b.deposit, CashOfKind(rs, Deposit));
  }

  datatype RateSlice = RateSlice(name: string, value: nat)

  /** `successRateData`: nothing without operations, else the deposit and unverified counts. */
  function SuccessRateData(deposits: nat, unverified: nat): (r: seq<RateSlice>)
    ensures deposits + unverified == 0 <==> r == []
    ensures r != [] ==> |r| == 2 && r[0].name == DEPOSITS_LABEL && r[1].name == UNVERIFIED_LABEL
    ensures r != [] ==> r[0].value + r[1].value == deposits + unverified
    ensures r != [] ==>
      100.0 * r[0].value as real == SuccessPercentage(deposits, unverified) * (deposits + unverified) as real
  {
    if deposits + unverified == 0 then []
    else [RateSlice(DEPOSITS_LABEL, deposits), RateSlice(UNVERIFIED_LABEL, unverified)]
  }

  /** `successPercentage`, before rounding to one decimal: the share of deposits among the
      deposits and unverified operations, or 0 when there are none. */
  function SuccessPercentage(deposits: nat, unverified: nat): (p: real)
    ensures deposits + unverified == 0 ==> p == 0.0
    ensures deposits + unverified > 0 ==> p * (deposits + unverified) as real == 100.0 * deposits as real
    ensures 0.0 <= p <= 100.0
    ensures p == 0.0 <==> deposits == 0
    ensures p == 100.0 <==> deposits > 0 && unverified == 0
  {
    var total := deposits + unverified;
    if total > 0 then (deposits as real / total as real) * 100.0 else 0.0
  }
}
