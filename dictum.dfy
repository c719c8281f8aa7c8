/**
 * The discrepancy report: the cross-validation of one claimed difference against the processed
 * logs, and the list of claims the technician builds up with its totals.
 */
module Dictum {
  import opened Wrappers
  import opened Text
  import opened LogAnalysis

  /** Tolerance, in pesos, of the match against an unverified deposit. */
  const AMOUNT_TOLERANCE: real := 2.0
  /** One hour and thirty minutes, in ms: the windows of the error and deposit searches. */
  const ERROR_WINDOW: int := 3600000
  const ACTIVITY_WINDOW: int := 1800000

  const MATCHES_UNVERIFIED: string := "Coincide con Unverified"
  /** The error rule reads a `name` field that error records do not have, so it shows `undefined`. */
  const TECHNICAL_FAILURE: string := "Falla técnica (undefined)"
  const ACTIVITY_ONLY: string := "Actividad sin coincidencia de monto"
  const NO_EVIDENCE: string := "Sin evidencia en logs"
  const NOT_FOUND_BY_AMOUNT: string := "No encontrado por Monto"
  const PENDING: string := "Pendiente"
  const NO_FOLIO: string := "S/N"
  const NO_SHORT_CONCLUSION: string := "N/A"

  /** The manual form; `date` is the raw text of the date input, `""` when empty. */
  datatype ManualData = ManualData(folio: string, diffAmount: string, collectAmount: string,
                                   date: string, hasPdf: bool, rawText: string)

  /** One line of the validation's findings, with the log it cites. */
  datatype Finding =
    | UnverifiedMatch(unverified: CashRecord)
    | TechnicalFailure(error: ErrorRecord)
    | ActivityNearby(deposit: CashRecord)
    | NoEvidenceAtTime
    | NotFoundByAmount

  datatype ValidationResult = ValidationResult(isJustified: bool, findings: seq<Finding>, shortConclusion: string)

  function Abs(x: int): nat {
    if x < 0 then -x else x
  }

  function AbsReal(x: real): real {
    if x < 0.0 then -x else x
  }

  /** The claimed difference as a number: `parseFloat(diffAmount) || 0`. */
  function DiffValue(m: ManualData): real {
    ParseFloatOrZero(m.diffAmount)
  }

  /** `new Date(date)`, or no target at all for an empty date. An unparsable date is still a
      target (an object), but one whose time is NaN and so lies near nothing. */
  function Target(m: ManualData, timeOf: string -> Option<int>): Option<Option<int>> {
    if m.date == "" then None else Some(timeOf(m.date))
  }

  predicate AmountNear(log: CashRecord, diff: real) {
    AbsReal(log.amount - diff) < AMOUNT_TOLERANCE
  }

  /** `new Date(l.timestamp)` of an error record lies less than an hour from the target. */
  predicate ErrorNear(log: ErrorRecord, target: Option<int>) {
    var t := DateValue(log.timestamp);
    t.Some? && target.Some? && Abs(t.value - target.value) < ERROR_WINDOW
  }

  predicate ActivityNear(log: CashRecord, target: Option<int>, timeOf: string -> Option<int>) {
    var t := timeOf(log.timestamp);
    t.Some? && target.Some? && Abs(t.value - target.value) < ACTIVITY_WINDOW
  }

  /** `x` is the first element of `logs` within the tolerance of `diff`. */
  ghost predicate FirstAmountMatch(logs: seq<CashRecord>, diff: real, x: CashRecord) {
    exists i :: 0 <= i < |logs| && logs[i] == x && AmountNear(x, diff)
      && forall k :: 0 <= k < i ==> !AmountNear(logs[k], diff)
  }

  ghost predicate FirstErrorMatch(logs: seq<ErrorRecord>, target: Option<int>, x: ErrorRecord) {
    exists i :: 0 <= i < |logs| && logs[i] == x && ErrorNear(x, target)
      && forall k :: 0 <= k < i ==> !ErrorNear(logs[k], target)
  }

  ghost predicate FirstActivityMatch(logs: seq<CashRecord>, target: Option<int>,
                                     timeOf: string -> Option<int>, x: CashRecord) {
    exists i :: 0 <= i < |logs| && logs[i] == x && ActivityNear(x, target, timeOf)
      && forall k :: 0 <= k < i ==> !ActivityNear(logs[k], target, timeOf)
  }

  /** `unverifiedLogs.find(l => |l.amount - diffVal| < 2)`. */
  method FindUnverified(logs: seq<CashRecord>, diff: real) returns (r: Option<CashRecord>)
    ensures r.None? <==> forall k :: 0 <= k < |logs| ==> !AmountNear(logs[k], diff)
    ensures r.Some? ==> FirstAmountMatch(logs, diff, r.value)
  {
    var i := 0;
    while i < |logs|
      invariant i <= |logs|
      invariant forall k :: 0 <= k < i ==> !AmountNear(logs[k], diff)
    {
      if AbsReal(logs[i].amount - diff) < AMOUNT_TOLERANCE {
        return Some(logs[i]);
      }
      i := i + 1;
    }
    return None;
  }

  /** `processedLogs.find(...)`: the first error record less than an hour from the target. */
  method FindErrorNear(logs: seq<ErrorRecord>, target: Option<int>) returns (r: Option<ErrorRecord>)
    ensures r.None? <==> forall k :: 0 <= k < |logs| ==> !ErrorNear(logs[k], target)
    ensures r.Some? ==> FirstErrorMatch(logs, target, r.value)
    ensures r.Some? ==>
      -MAX_TIME <= r.value.timestamp <= MAX_TIME && target.Some? && Abs(r.value.timestamp - target.value) < ERROR_WINDOW
    ensures target.None? || (forall k :: 0 <= k < |logs| ==> !(-MAX_TIME <= logs[k].timestamp <= MAX_TIME)) ==> r.None?
  {
    var i := 0;
    while i < |logs|
      invariant i <= |logs|
      invariant forall k :: 0 <= k < i ==> !ErrorNear(logs[k], target)
    {
      var t := DateValue(logs[i].timestamp);
      if t.Some? && target.Some? && Abs(t.value - target.value) < ERROR_WINDOW {
        return Some(logs[i]);
      }
      i := i + 1;
    }
    return None;
  }

  /** `depositLogs.find(...)`: the first deposit less than thirty minutes from the target. */
  method FindActivityNear(logs: seq<CashRecord>, target: Option<int>, timeOf: string -> Option<int>)
    returns (r: Option<CashRecord>)
    ensures r.None? <==> forall k :: 0 <= k < |logs| ==> !ActivityNear(logs[k], target, timeOf)
    ensures r.Some? ==> FirstActivityMatch(logs, target, timeOf, r.value)
  {
    var i := 0;
    while i < |logs|
      invariant i <= |logs|
      invariant forall k :: 0 <= k < i ==> !ActivityNear(logs[k], target, timeOf)
    {
      var t := timeOf(logs[i].timestamp);
      if t.Some? && target.Some? && Abs(t.value - target.value) < ACTIVITY_WINDOW {
        return Some(logs[i]);
      }
      i := i + 1;
    }
    return None;
  }

  /** Some unverified deposit matches the claimed amount, which must be positive. */
  ghost predicate ByAmount(m: ManualData, unverified: seq<CashRecord>) {
    DiffValue(m) > 0.0 && exists k :: 0 <= k < |unverified| && AmountNear(unverified[k], DiffValue(m))
  }

  /** Some error record lies within the hour of the claimed date. */
  ghost predicate ByError(m: ManualData, errors: seq<ErrorRecord>, timeOf: string -> Option<int>) {
    m.date != "" && exists k :: 0 <= k < |errors| && ErrorNear(errors[k], timeOf(m.date))
  }

  ghost predicate ByActivity(m: ManualData, deposits: seq<CashRecord>, timeOf: string -> Option<int>) {
    m.date != "" && exists k :: 0 <= k < |deposits| && ActivityNear(deposits[k], timeOf(m.date), timeOf)
  }

  /** `runCrossValidation`: the amount rule first, then the date rules, each taking the first
      matching log; the claim is justified exactly through the amount rule or the error rule. */
  method RunCrossValidation(m: ManualData, unverified: seq<CashRecord>, errors: seq<ErrorRecord>,
                            deposits: seq<CashRecord>, timeOf: string -> Option<int>)
    returns (r: ValidationResult)
    ensures |r.findings| <= 1
    ensures r.isJustified <==> ByAmount(m, unverified) || ByError(m, errors, timeOf)
    ensures ByAmount(m, unverified) ==>
      |r.findings| == 1 && r.findings[0].UnverifiedMatch?
      && FirstAmountMatch(unverified, DiffValue(m), r.findings[0].unverified)
      && r.shortConclusion == MATCHES_UNVERIFIED
    ensures !ByAmount(m, unverified) && ByError(m, errors, timeOf) ==>
      |r.findings| == 1 && r.findings[0].TechnicalFailure?
      && FirstErrorMatch(errors, timeOf(m.date), r.findings[0].error)
      && r.shortConclusion == TECHNICAL_FAILURE
    ensures !ByAmount(m, unverified) && !ByError(m, errors, timeOf) && ByActivity(m, deposits, timeOf) ==>
      |r.findings| == 1 && r.findings[0].ActivityNearby?
      && FirstActivityMatch(deposits, timeOf(m.date), timeOf, r.findings[0].deposit)
      && r.shortConclusion == ACTIVITY_ONLY
    ensures !ByAmount(m, unverified) && m.date != "" && !ByError(m, errors, timeOf)
            && !ByActivity(m, deposits, timeOf) ==>
      r.findings == [NoEvidenceAtTime] && r.shortConclusion == NO_EVIDENCE
    ensures !ByAmount(m, unverified) && m.date == "" && DiffValue(m) > 0.0 ==>
      r.findings == [NotFoundByAmount] && r.shortConclusion == NOT_FOUND_BY_AMOUNT
    ensures m.date == "" && DiffValue(m) <= 0.0 ==> r.findings == [] && r.shortConclusion == PENDING
  {
    var target := Target(m, timeOf);
    var diffVal := DiffValue(m);
    var findings: seq<Finding> := [];
    var isJustified := false;
    var shortConclusion := "";

    if diffVal > 0.0 {
      var unverifiedMatch := FindUnverified(unverified, diffVal);
      if unverifiedMatch.Some? {
        isJustified := true;
        findings := findings + [UnverifiedMatch(unverifiedMatch.value)];
        shortConclusion := MATCHES_UNVERIFIED;
      }
    }

    if !isJustified && target.Some? {
      var errorMatch := FindErrorNear(errors, target.value);
      if errorMatch.Some? {
        isJustified := true;
        findings := findings + [TechnicalFailure(errorMatch.value)];
        shortConclusion := TECHNICAL_FAILURE;
      } else {
        var activityMatch := FindActivityNear(deposits, target.value, timeOf);
        if activityMatch.Some? {
          findings := findings + [ActivityNearby(activityMatch.value)];
          shortConclusion := ACTIVITY_ONLY;
        } else {
          findings := findings + [NoEvidenceAtTime];
          shortConclusion := NO_EVIDENCE;
        }
      }
    } else if !isJustified && target.None? && diffVal > 0.0 {
      findings := findings + [NotFoundByAmount];
      shortConclusion := NOT_FOUND_BY_AMOUNT;
    }

    r := ValidationResult(isJustified, findings, if shortConclusion == "" then PENDING else shortConclusion);
  }

  /** The validation effect: with neither a date nor an amount there is no result. */
  method Validate(m: ManualData, unverified: seq<CashRecord>, errors: seq<ErrorRecord>,
                  deposits: seq<CashRecord>, timeOf: string -> Option<int>)
    returns (r: Option<ValidationResult>)
    ensures r.None? <==> m.date == "" && m.diffAmount == ""
    ensures r.Some? ==> (r.value.isJustified <==> ByAmount(m, unverified) || ByError(m, errors, timeOf))
  {
    if m.date == "" && m.diffAmount == "" {
      return None;
    }
    var result := RunCrossValidation(m, unverified, errors, deposits, timeOf);
    return Some(result);
  }

  // ---------------------------------------------------------------------------
  // The list of claims
  // ---------------------------------------------------------------------------

  /** The stored amount: the text entered, or the number 0 when the field was empty. */
  datatype ClaimAmount = Entered(text: string) | NoAmount

  /** The stored analysis text: the findings of the validation, or 'Sin análisis' when there were none. */
  datatype Conclusion = Findings(findings: seq<Finding>) | NotAnalysed

  datatype Incidence = Incidence(id: int, folio: string, diffAmount: ClaimAmount, date: string,
                                 isJustified: bool, conclusion: Conclusion, shortConclusion: string)

  datatype DictumState = DictumState(manual: ManualData, result: Option<ValidationResult>,
                                     incidences: seq<Incidence>)

  /** The claim `handleAddToList` records; `now` stands for `Date.now()`. */
  function NewIncidence(st: DictumState, now: int): Incidence {
    var m := st.manual;
    Incidence(now,
              if m.folio == "" then NO_FOLIO else m.folio,
              if m.diffAmount == "" then NoAmount else Entered(m.diffAmount),
              m.date,
              st.result.Some? && st.result.value.isJustified,
              if st.result.Some? && st.result.value.findings != [] then Findings(st.result.value.findings)
              else NotAnalysed,
              if st.result.Some? && st.result.value.shortConclusion != "" then st.result.value.shortConclusion
              else NO_SHORT_CONCLUSION)
  }

  /** `handleAddToList`: nothing happens without a folio or an amount; otherwise the claim goes at
      the end of the list and the form is cleared except for its date. */
  function AddToList(st: DictumState, now: int): DictumState {
    var m := st.manual;
    if m.folio == "" && m.diffAmount == "" then st
    else DictumState(m.(folio := "", diffAmount := "", hasPdf := false, rawText := ""), None,
                     st.incidences + [NewIncidence(st, now)])
  }

  lemma AddToListSpec(st: DictumState, now: int)
    ensures var st' := AddToList(st, now);
      && (st' == st <==> st.manual.folio == "" && st.manual.diffAmount == "")
      && (st' != st ==>
            && |st'.incidences| == |st.incidences| + 1
            && st'.incidences[..|st.incidences|] == st.incidences
            && st'.result.None?
            && st'.manual.date == st.manual.date
            && st'.manual.collectAmount == st.manual.collectAmount
            && st'.manual.folio == "" && st'.manual.diffAmount == "")
  {
    var st' := AddToList(st, now);
    if !(st.manual.folio == "" && st.manual.diffAmount == "") {
      assert st'.incidences[..|st.incidences|] == st.incidences;
      if st.manual.folio != "" {
        assert st'.manual.folio != st.manual.folio;
      } else {
        assert st'.manual.diffAmount != st.manual.diffAmount;
      }
    }
  }

  /** The new claim: 'S/N' for a missing folio, no amount for a missing one, and the current
      result's verdict, which is "not justified" when there is none. */
  lemma NewIncidenceSpec(st: DictumState, now: int)
    requires st.manual.folio != "" || st.manual.diffAmount != ""
    ensures var x := AddToList(st, now).incidences[|st.incidences|];
      && x.id == now && x.date == st.manual.date
      && x.folio != "" && (st.manual.folio != "" ==> x.folio == st.manual.folio)
      && (x.diffAmount.NoAmount? <==> st.manual.diffAmount == "")
      && (x.isJustified <==> st.result.Some? && st.result.value.isJustified)
      && (st.result.None? ==> x.conclusion == NotAnalysed && x.shortConclusion == NO_SHORT_CONCLUSION)
      && x.shortConclusion != ""
  {
  }

  /** The items kept by `incidencesList.filter(item => item.id !== id)`. */
  function Without(xs: seq<Incidence>, id: int): (ys: seq<Incidence>)
    ensures |ys| <= |xs|
  {
    if xs == [] then []
    else Without(xs[..|xs| - 1], id) + (if xs[|xs| - 1].id == id then [] else [xs[|xs| - 1]])
  }

  function RemoveFromList(st: DictumState, id: int): DictumState {
    st.(incidences := Without(st.incidences, id))
  }

  /** Removing keeps exactly the items with another id: none with the id is left, every other one
      stays, and a list without the id is left as it was. */
  lemma {:induction false} WithoutSpec(xs: seq<Incidence>, id: int)
    ensures forall x :: x in Without(xs, id) <==> x in xs && x.id != id
    ensures (forall k :: 0 <= k < |xs| ==> xs[k].id != id) ==> Without(xs, id) == xs
  {
    WithoutMembers(xs, id);
    WithoutNone(xs, id);
  }

  lemma {:induction false} WithoutMembers(xs: seq<Incidence>, id: int)
    ensures forall x :: x in Without(xs, id) <==> x in xs && x.id != id
  {
    if xs != [] {
      WithoutMembers(xs[..|xs| - 1], id);
      assert xs == xs[..|xs| - 1] + [xs[|xs| - 1]];
    }
  }

  lemma {:induction false} WithoutNone(xs: seq<Incidence>, id: int)
    ensures (forall k :: 0 <= k < |xs| ==> xs[k].id != id) ==> Without(xs, id) == xs
  {
    if xs != [] && forall k :: 0 <= k < |xs| ==> xs[k].id != id {
      var init := xs[..|xs| - 1];
      assert forall k :: 0 <= k < |init| ==> init[k] == xs[k];
      WithoutNone(init, id);
      assert xs == init + [xs[|xs| - 1]];
    }
  }

  lemma {:induction false} WithoutAppend(xs: seq<Incidence>, ys: seq<Incidence>, id: int)
    ensures Without(xs + ys, id) == Without(xs, id) + Without(ys, id)
  {
    if ys == [] {
      assert xs + ys == xs;
    } else {
      WithoutAppend(xs, ys[..|ys| - 1], id);
      assert (xs + ys)[..|xs + ys| - 1] == xs + ys[..|ys| - 1];
    }
  }

  /** Adding a claim and then removing it by its id gives back the list as it was, when no earlier
      claim carries that id. */
  lemma AddThenRemove(st: DictumState, now: int)
    requires st.manual.folio != "" || st.manual.diffAmount != ""
    requires forall k :: 0 <= k < |st.incidences| ==> st.incidences[k].id != now
    ensures RemoveFromList(AddToList(st, now), now).incidences == st.incidences
  {
    WithoutAppend(st.incidences, [NewIncidence(st, now)], now);
    WithoutSpec(st.incidences, now);
    assert Without([NewIncidence(st, now)], now) == [] by {
      assert [NewIncidence(st, now)][..0] == [];
    }
  }

  // ---------------------------------------------------------------------------
  // Totals of the list
  // ---------------------------------------------------------------------------

  /** `parseFloat(c.diffAmount) || 0`; a stored 0 reads as 0. */
  function ClaimValue(c: ClaimAmount): real {
    match c
    case Entered(text) => ParseFloatOrZero(text)
    case NoAmount => 0.0
  }

  function TotalClaimed(xs: seq<Incidence>): real {
    if xs == [] then 0.0 else TotalClaimed(xs[..|xs| - 1]) + ClaimValue(xs[|xs| - 1].diffAmount)
  }

  function TotalJustified(xs: seq<Incidence>): real {
    if xs == [] then 0.0
    else TotalJustified(xs[..|xs| - 1]) + (if xs[|xs| - 1].isJustified then ClaimValue(xs[|xs| - 1].diffAmount) else 0.0)
  }

  /** With no negative amounts, the justified total is between zero and the claimed one. */
  lemma {:induction false} JustifiedAtMostClaimed(xs: seq<Incidence>)
    requires forall k :: 0 <= k < |xs| ==> ClaimValue(xs[k].diffAmount) >= 0.0
    ensures 0.0 <= TotalJustified(xs) <= TotalClaimed(xs)
  {
    if xs != [] {
      JustifiedAtMostClaimed(xs[..|xs| - 1]);
    }
  }

  /** Only justified claims count towards the justified total; if every claim is justified the
      totals agree. */
  lemma {:induction false} AllJustified(xs: seq<Incidence>)
    requires forall k :: 0 <= k < |xs| ==> xs[k].isJustified
    ensures TotalJustified(xs) == TotalClaimed(xs)
  {
    if xs != [] {
      AllJustified(xs[..|xs| - 1]);
    }
  }

  /** Adding a claim adds its amount to the claimed total, and to the justified total only when
      the claim is justified. */
  lemma AddToListTotals(st: DictumState, now: int)
    requires st.manual.folio != "" || st.manual.diffAmount != ""
    ensures var xs := AddToList(st, now).incidences; var x := NewIncidence(st, now);
      && TotalClaimed(xs) == TotalClaimed(st.incidences) + ClaimValue(x.diffAmount)
      && TotalJustified(xs) == TotalJustified(st.incidences) + (if x.isJustified then ClaimValue(x.diffAmount) else 0.0)
  {
    var xs := AddToList(st, now).incidences;
    assert xs[..|xs| - 1] == st.incidences;
  }
}
