/**
 * The equipment inventory: the asset list the application keeps, the service sheets added to an
 * asset's history, the edits of its technical record, and the indicators the detail view shows.
 */
module Inventory {
  import opened Wrappers
  import opened Text
  import opened LogAnalysis

  // ---------------------------------------------------------------------------
  // Records
  // ---------------------------------------------------------------------------

  datatype FileType = Pdf | Image

  /** A file attached to a service sheet. */
  datatype Attachment = Attachment(name: string, fileType: FileType)

  /** A service sheet. `duration` is None where the sheet has none or it reads as NaN. */
  datatype Service = Service(id: int, date: string, kind: string, tech: string, notes: string,
                             description: string, parts: string, duration: Option<real>,
                             status: string, files: seq<Attachment>)

  datatype Contract = Contract(kind: string, renovationDate: string, visitsPerYear: int, visitsCompleted: int)

  datatype Asset = Asset(id: string, serial: string, model: string, client: string, branch: string,
                         location: string, etv: string, status: string, installDate: string,
                         contract: Contract, history: seq<Service>)

  const PREVENTIVE: string := "Preventivo"
  const CORRECTIVE: string := "Correctivo"
  const COMPLETED: string := "Completado"

  /** The ids of the assets, in list order. */
  function Ids(assets: seq<Asset>): (ids: seq<string>)
    ensures |ids| == |assets|
  {
    seq(|assets|, i requires 0 <= i < |assets| => assets[i].id)
  }

  // ---------------------------------------------------------------------------
  // Adding a service sheet (handleAddService)
  // ---------------------------------------------------------------------------

  /** The asset with the service sheet first in its history, and one visit more on a copy of its
      contract when the service is preventive. */
  function AddServiceTo(asset: Asset, s: Service): Asset {
    var visits := if s.kind == PREVENTIVE then asset.contract.visitsCompleted + 1 else asset.contract.visitsCompleted;
    asset.(contract := asset.contract.(visitsCompleted := visits), history := [s] + asset.history)
  }

  /** `handleAddService`: the asset with the given id gets the sheet. */
  function AddService(assets: seq<Asset>, assetId: string, s: Service): (r: seq<Asset>)
    ensures |r| == |assets|
  {
    seq(|assets|, i requires 0 <= i < |assets| => if assets[i].id == assetId then AddServiceTo(assets[i], s) else assets[i])
  }

  /** Adding a sheet keeps the list's length and ids; every other asset is unchanged; the asset
      with the id has the sheet first, then its old history in order, one visit more exactly when
      the service is preventive, and nothing else changed. */
  lemma AddServiceSpec(assets: seq<Asset>, assetId: string, s: Service)
    ensures |AddService(assets, assetId, s)| == |assets|
    ensures Ids(AddService(assets, assetId, s)) == Ids(assets)
    ensures forall i :: 0 <= i < |assets| && assets[i].id != assetId ==> AddService(assets, assetId, s)[i] == assets[i]
    ensures forall i :: 0 <= i < |assets| && assets[i].id == assetId ==>
      var a, b := assets[i], AddService(assets, assetId, s)[i];
      && b.history == [s] + a.history
      && |b.history| == |a.history| + 1 && b.history[0] == s && b.history[1..] == a.history
      && (b.contract.visitsCompleted == a.contract.visitsCompleted + 1 <==> s.kind == PREVENTIVE)
      && (s.kind != PREVENTIVE ==> b.contract.visitsCompleted == a.contract.visitsCompleted)
      && b.contract.(visitsCompleted := a.contract.visitsCompleted) == a.contract
      && b.(contract := a.contract, history := a.history) == a
  {
    var r := AddService(assets, assetId, s);
    forall i | 0 <= i < |assets| && assets[i].id == assetId
      ensures r[i].history[1..] == assets[i].history
    {
      assert r[i].history == [s] + assets[i].history;
    }
  }

  // ---------------------------------------------------------------------------
  // Replacing an asset (handleUpdateAsset) and finding one (selectedAsset)
  // ---------------------------------------------------------------------------

  /** `handleUpdateAsset`: every asset with the updated asset's id is replaced by it. */
  function UpdateAsset(assets: seq<Asset>, updated: Asset): (r: seq<Asset>)
    ensures |r| == |assets|
  {
    seq(|assets|, i requires 0 <= i < |assets| => if assets[i].id == updated.id then updated else assets[i])
  }

  /** Exactly the assets with the updated id are replaced, in place; so the ids stay as they were. */
  lemma UpdateAssetSpec(assets: seq<Asset>, updated: Asset)
    ensures |UpdateAsset(assets, updated)| == |assets|
    ensures Ids(UpdateAsset(assets, updated)) == Ids(assets)
    ensures forall i :: 0 <= i < |assets| ==>
      (assets[i].id == updated.id ==> UpdateAsset(assets, updated)[i] == updated)
      && (assets[i].id != updated.id ==> UpdateAsset(assets, updated)[i] == assets[i])
    ensures (forall i :: 0 <= i < |assets| ==> assets[i].id != updated.id) ==> UpdateAsset(assets, updated) == assets
  {
  }

  /** `assets.find(a => a.id === selectedAssetId)`; no selection finds nothing. */
  function SelectedAsset(assets: seq<Asset>, selected: Option<string>): (r: Option<Asset>)
    ensures r.Some? ==> r.value in assets
  {
    if assets == [] || selected.None? then None
    else if assets[0].id == selected.value then Some(assets[0])
    else SelectedAsset(assets[1..], selected)
  }

  /** The lookup finds nothing exactly when no asset has the selected id; otherwise it finds the
      first asset that has it. */
  lemma {:induction false} SelectedAssetSpec(assets: seq<Asset>, selected: Option<string>)
    ensures SelectedAsset(assets, selected).None? <==>
      selected.None? || forall i :: 0 <= i < |assets| ==> assets[i].id != selected.value
    ensures SelectedAsset(assets, selected).Some? ==>
      exists i :: 0 <= i < |assets| && SelectedAsset(assets, selected) == Some(assets[i])
        && assets[i].id == selected.value && forall k :: 0 <= k < i ==> assets[k].id != selected.value
  {
    if assets != [] && selected.Some? && assets[0].id != selected.value {
      SelectedAssetSpec(assets[1..], selected);
      if SelectedAsset(assets, selected).Some? {
        var j :| 0 <= j < |assets[1..]| && SelectedAsset(assets[1..], selected) == Some(assets[1..][j])
          && assets[1..][j].id == selected.value && forall k :: 0 <= k < j ==> assets[1..][k].id != selected.value;
        assert assets[j + 1] == assets[1..][j];
        forall k | 0 <= k < j + 1
          ensures assets[k].id != selected.value
        {
          if k > 0 { assert assets[k] == assets[1..][k - 1]; }
        }
      } else {
        forall i | 0 <= i < |assets|
          ensures assets[i].id != selected.value
        {
          if i > 0 { assert assets[i] == assets[1..][i - 1]; }
        }
      }
    }
  }

  /** The detail view of the asset a sheet was added to shows the sheet: looking the asset up
      after the update gives the looked-up asset with the sheet added. */
  lemma {:induction false} AddServiceSelected(assets: seq<Asset>, assetId: string, s: Service)
    ensures SelectedAsset(AddService(assets, assetId, s), Some(assetId))
         == match SelectedAsset(assets, Some(assetId))
            case Some(a) => Some(AddServiceTo(a, s))
            case None => None
  {
    if assets != [] {
      var r := AddService(assets, assetId, s);
      assert r[1..] == AddService(assets[1..], assetId, s);
      AddServiceSelected(assets[1..], assetId, s);
    }
  }

  /** After an update, looking up the updated id finds the updated asset, if the list had that id. */
  lemma {:induction false} UpdateAssetSelected(assets: seq<Asset>, updated: Asset)
    ensures SelectedAsset(UpdateAsset(assets, updated), Some(updated.id))
         == if SelectedAsset(assets, Some(updated.id)).Some? then Some(updated) else None
  {
    if assets != [] {
      var r := UpdateAsset(assets, updated);
      assert r[1..] == UpdateAsset(assets[1..], updated);
      UpdateAssetSelected(assets[1..], updated);
    }
  }

  // ---------------------------------------------------------------------------
  // The combined log list and the tab change
  // ---------------------------------------------------------------------------

  /** A row of the log table: a cash record or an error log. */
  datatype LogRow = CashRow(cash: CashRecord) | ErrorRow(log: ErrorRecord)

  function CashRows(rs: seq<CashRecord>): (rows: seq<LogRow>)
    ensures |rows| == |rs|
  {
    seq(|rs|, i requires 0 <= i < |rs| => CashRow(rs[i]))
  }

  function ErrorRows(logs: seq<ErrorRecord>): (rows: seq<LogRow>)
    ensures |rows| == |logs|
  {
    seq(|logs|, i requires 0 <= i < |logs| => ErrorRow(logs[i]))
  }

  /** `allLogs`: collect, deposit, unverified and processed records, in that order. */
  function AllLogs(b: Batch): seq<LogRow> {
    CashRows(b.collect) + CashRows(b.deposit) + CashRows(b.unverified) + ErrorRows(b.logs)
  }

  /** The combined list holds the four lists one after the other, each in its own order. */
  lemma AllLogsSpec(b: Batch)
    ensures |AllLogs(b)| == |b.collect| + |b.deposit| + |b.unverified| + |b.logs|
    ensures forall i :: 0 <= i < |b.collect| ==> AllLogs(b)[i] == CashRow(b.collect[i])
    ensures forall i :: 0 <= i < |b.deposit| ==> AllLogs(b)[|b.collect| + i] == CashRow(b.deposit[i])
    ensures forall i :: 0 <= i < |b.unverified| ==>
      AllLogs(b)[|b.collect| + |b.deposit| + i] == CashRow(b.unverified[i])
    ensures forall i :: 0 <= i < |b.logs| ==>
      AllLogs(b)[|b.collect| + |b.deposit| + |b.unverified| + i] == ErrorRow(b.logs[i])
  {
  }

  /** The tab shown and the asset open in the detail view. */
  datatype View = View(activeTab: string, selectedAssetId: Option<string>)

  /** `handleTabChange`. */
  function TabChange(v: View, tab: string): (r: View)
  {
    View(tab, None)
  }

  /** Changing tab shows the new tab and closes any asset detail: the lookup then finds nothing,
      whatever the list holds. */
  lemma TabChangeSpec(v: View, tab: string, assets: seq<Asset>)
    ensures TabChange(v, tab).activeTab == tab
    ensures TabChange(v, tab).selectedAssetId.None?
    ensures SelectedAsset(assets, TabChange(v, tab).selectedAssetId).None?
  {
  }

  // ---------------------------------------------------------------------------
  // Indicators of the detail view
  // ---------------------------------------------------------------------------

  /** `history.filter(h => h.type === 'Correctivo').length`. */
  function CorrectiveCount(history: seq<Service>): nat
  {
    if history == [] then 0
    else CorrectiveCount(history[..|history| - 1]) + (if history[|history| - 1].kind == CORRECTIVE then 1 else 0)
  }

  /** There are no more corrective services than services, and none exactly when no service of
      the history is corrective. */
  lemma {:induction false} CorrectiveCountSpec(history: seq<Service>)
    ensures CorrectiveCount(history) <= |history|
    ensures CorrectiveCount(history) == 0 <==> forall i :: 0 <= i < |history| ==> history[i].kind != CORRECTIVE
    ensures CorrectiveCount(history) == |history| <==> forall i :: 0 <= i < |history| ==> history[i].kind == CORRECTIVE
  {
    if history != [] {
      var init := history[..|history| - 1];
      CorrectiveCountSpec(init);
      assert forall i :: 0 <= i < |init| ==> init[i] == history[i];
    }
  }

  lemma {:induction false} CorrectiveCountAppend(a: seq<Service>, b: seq<Service>)
    ensures CorrectiveCount(a + b) == CorrectiveCount(a) + CorrectiveCount(b)
    decreases |b|
  {
    if b == [] {
      assert a + b == a;
    } else {
      assert (a + b)[..|a + b| - 1] == a + b[..|b| - 1];
      CorrectiveCountAppend(a, b[..|b| - 1]);
    }
  }

  /** The hours of a sheet: its duration, or 0 when it has none (`curr.duration || 0`). */
  function Hours(s: Service): real {
    s.duration.GetOr(0.0)
  }

  /** `history.reduce((acc, curr) => acc + (curr.duration || 0), 0)`. */
  function TotalHours(history: seq<Service>): real
  {
    if history == [] then 0.0 else TotalHours(history[..|history| - 1]) + Hours(history[|history| - 1])
  }

  /** The total of two histories is the sum of their totals. */
  lemma {:induction false} TotalHoursAppend(a: seq<Service>, b: seq<Service>)
    ensures TotalHours(a + b) == TotalHours(a) + TotalHours(b)
    decreases |b|
  {
    if b == [] {
      assert a + b == a;
    } else {
      assert (a + b)[..|a + b| - 1] == a + b[..|b| - 1];
      TotalHoursAppend(a, b[..|b| - 1]);
    }
  }

  /** Sheets without a duration add nothing, and with no negative durations the total is never
      negative and at least the hours of any one sheet. */
  lemma {:induction false} TotalHoursBounds(history: seq<Service>)
    requires forall i :: 0 <= i < |history| ==> Hours(history[i]) >= 0.0
    ensures TotalHours(history) >= 0.0
    ensures forall i :: 0 <= i < |history| ==> Hours(history[i]) <= TotalHours(history)
  {
    if history != [] {
      var init := history[..|history| - 1];
      assert forall i :: 0 <= i < |init| ==> init[i] == history[i];
      TotalHoursBounds(init);
    }
  }

  /** `Math.floor((today - installDate) / 86400000)`, with None for an install date that does not
      parse. */
  function DaysActive(today: int, installDate: Option<int>): (r: Option<int>)
  {
    match installDate
    case None => None
    case Some(t) => Some((today - t) / 86400000)
  }

  /** The whole days from the install date to today, rounded down. */
  lemma DaysActiveSpec(today: int, install: int)
    ensures DaysActive(today, Some(install)).Some?
    ensures var d := DaysActive(today, Some(install)).value;
      d * 86400000 <= today - install < (d + 1) * 86400000
    ensures DaysActive(today, None).None?
  {
  }

  /** `correctiveCount > 0 ? Math.floor(daysActive / correctiveCount) : daysActive`. */
  function Mtbf(daysActive: Option<int>, correctives: nat): (r: Option<int>)
  {
    match daysActive
    case None => None
    case Some(d) => if correctives > 0 then Some(d / correctives) else Some(d)
  }

  /** With no corrective service the mean time between failures is the days active; otherwise it
      is those days shared among the correctives, rounded down. */
  lemma MtbfSpec(days: int, correctives: nat)
    ensures correctives == 0 ==> Mtbf(Some(days), correctives) == Some(days)
    ensures correctives > 0 ==>
      var m := Mtbf(Some(days), correctives).value;
      m * correctives <= days < (m + 1) * correctives
    ensures Mtbf(None, correctives).None?
  {
    if correctives > 0 {
      var m := days / correctives;
      assert days == m * correctives + days % correctives;
    }
  }

  /** `Math.max(0, 100 - correctiveCount * 10)`. */
  function HealthScore(correctives: nat): (r: int)
  {
    if 100 - correctives * 10 > 0 then 100 - correctives * 10 else 0
  }

  /** The score lies between 0 and 100; it is 100 exactly when there is no corrective service
      and 0 exactly when there are ten or more; each corrective below ten costs ten points. */
  lemma HealthScoreSpec(correctives: nat)
    ensures 0 <= HealthScore(correctives) <= 100
    ensures HealthScore(correctives) == 100 <==> correctives == 0
    ensures HealthScore(correctives) == 0 <==> correctives >= 10
    ensures correctives < 10 ==> HealthScore(correctives + 1) == HealthScore(correctives) - 10
    ensures correctives >= 10 ==> HealthScore(correctives + 1) == 0
  {
  }

  /** What the detail view shows for an asset. */
  datatype Kpis = Kpis(totalServices: nat, correctiveCount: nat, totalHours: real,
                       daysActive: Option<int>, mtbf: Option<int>, healthScore: int)

  /** The indicators of the detail view, with today and the parsed install date as inputs. */
  function KpisOf(asset: Asset, today: int, installDate: Option<int>): Kpis {
    var c := CorrectiveCount(asset.history);
    var days := DaysActive(today, installDate);
    Kpis(|asset.history|, c, TotalHours(asset.history), days, Mtbf(days, c), HealthScore(c))
  }

  /** A new sheet counts as one service more and adds its hours; a corrective one counts as one
      corrective more and costs ten points of health unless there is none left. */
  lemma {:induction false} AddServiceKpis(asset: Asset, s: Service, today: int, installDate: Option<int>)
    ensures var before, after := KpisOf(asset, today, installDate), KpisOf(AddServiceTo(asset, s), today, installDate);
      && after.totalServices == before.totalServices + 1
      && after.totalHours == before.totalHours + Hours(s)
      && after.correctiveCount == before.correctiveCount + (if s.kind == CORRECTIVE then 1 else 0)
      && (s.kind == CORRECTIVE ==> after.healthScore == if before.healthScore >= 10 then before.healthScore - 10 else 0)
      && (s.kind != CORRECTIVE ==> after.healthScore == before.healthScore && after.mtbf == before.mtbf)
  {
    var h := AddServiceTo(asset, s).history;
    assert h == [s] + asset.history;
    CorrectiveCountAppend([s], asset.history);
    TotalHoursAppend([s], asset.history);
    assert [s][..0] == [];
    assert CorrectiveCount([s]) == (if s.kind == CORRECTIVE then 1 else 0);
    assert TotalHours([s]) == Hours(s);
  }

  // ---------------------------------------------------------------------------
  // The service form (ServiceModal.handleSubmit)
  // ---------------------------------------------------------------------------

  /** The fields of the service form, as `formData.get` reads them. */
  datatype ServiceForm = ServiceForm(date: string, kind: string, tech: string, notes: string,
                                     description: string, parts: string, duration: string)

  predicate EndsWith(s: string, suffix: string) {
    |suffix| <= |s| && s[|s| - |suffix|..] == suffix
  }

  /** `name.endsWith('.pdf') ? 'pdf' : 'image'`, case-sensitive. */
  function FileTypeOf(name: string): FileType {
    if EndsWith(name, ".pdf") then Pdf else Image
  }

  /** The form's submit: a completed sheet with the form's fields, the duration read by `Number`,
      and only the first chosen file attached, typed by its name. `id` is the clock reading the
      sheet takes as its id. */
  method BuildService(id: int, form: ServiceForm, chosen: seq<string>) returns (s: Service)
    ensures s.status == COMPLETED
    ensures s.id == id && s.date == form.date && s.kind == form.kind && s.tech == form.tech
    ensures s.notes == form.notes && s.description == form.description && s.parts == form.parts
    ensures s.duration == ToNumber(form.duration)
    ensures |s.files| <= 1
    ensures |s.files| == 1 <==> |chosen| > 0
    ensures |s.files| == 1 ==>
      s.files[0].name == chosen[0] && (s.files[0].fileType == Pdf <==> EndsWith(chosen[0], ".pdf"))
  {
    var simulatedFiles: seq<Attachment> := [];
    if |chosen| > 0 {
      simulatedFiles := simulatedFiles + [Attachment(chosen[0], FileTypeOf(chosen[0]))];
    }
    s := Service(id, form.date, form.kind, form.tech, form.notes, form.description, form.parts,
                 ToNumber(form.duration), COMPLETED, simulatedFiles);
  }

  // ---------------------------------------------------------------------------
  // The edit form (EditAssetModal.handleSubmit)
  // ---------------------------------------------------------------------------

  datatype EditForm = EditForm(model: string, serial: string, branch: string, location: string, etv: string)

  /** `{ ...asset, status, model, serial, branch, location, etv }`. */
  function EditAsset(asset: Asset, status: string, form: EditForm): Asset {
    asset.(status := status, model := form.model, serial := form.serial, branch := form.branch,
           location := form.location, etv := form.etv)
  }

  /** An edit sets the six fields of the form and keeps every other field, id, contract and
      history included; saving it replaces the asset in place, so the ids and the indicators stay
      what they were. */
  lemma EditAssetSpec(assets: seq<Asset>, i: nat, status: string, form: EditForm, today: int, installDate: Option<int>)
    requires i < |assets|
    ensures var e := EditAsset(assets[i], status, form);
      && e.status == status && e.model == form.model && e.serial == form.serial
      && e.branch == form.branch && e.location == form.location && e.etv == form.etv
      && e.(status := assets[i].status, model := assets[i].model, serial := assets[i].serial,
            branch := assets[i].branch, location := assets[i].location, etv := assets[i].etv) == assets[i]
      && Ids(UpdateAsset(assets, e)) == Ids(assets)
      && UpdateAsset(assets, e)[i] == e
      && KpisOf(e, today, installDate) == KpisOf(assets[i], today, installDate)
  {
    UpdateAssetSpec(assets, EditAsset(assets[i], status, form));
  }
}
