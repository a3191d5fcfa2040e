/**
 * The downloads API: a table from download id (the project id) to the progress records
 * the running download has reported, the summary the status endpoint computes from it,
 * and cancellation. Starting the background task itself is not part of this module.
 */
module DownloadsRouter {
  import opened Wrappers
  import opened Models
  import ProjectService

  /** An `HTTPException`: status 404 with its detail text. */
  datatype HttpError = NotFound(detail: string)

  /** The body `start_download` answers with. */
  datatype StartResponse = StartResponse(message: string, downloadId: Id, projectName: string)

  function RecordUrlId(p: DownloadProgress): Id { p.urlId }

  /** Position of the first record for that URL, or |records| when there is none. */
  function IndexOfUrl(records: seq<DownloadProgress>, urlId: Id): nat {
    ProjectService.FirstIndex(records, RecordUrlId, urlId)
  }

  /** The records after one progress report: the first record of that URL replaced in place, else appended. */
  function Upsert(records: seq<DownloadProgress>, p: DownloadProgress): (r: seq<DownloadProgress>)
    ensures p in r && |records| <= |r| <= |records| + 1
  {
    var i := IndexOfUrl(records, p.urlId);
    if i < |records| then assert records[i := p][i] == p; records[i := p]
    else assert (records + [p])[|records|] == p; records + [p]
  }

  predicate UniqueUrlIds(records: seq<DownloadProgress>) {
    forall i, j :: 0 <= i < j < |records| ==> records[i].urlId != records[j].urlId
  }

  /**
   * A report grows the list by at most one, lands in it, leaves every other URL's record
   * where it was, and keeps one record per URL.
   */
  lemma UpsertProperties(records: seq<DownloadProgress>, p: DownloadProgress)
    ensures var r := Upsert(records, p);
      |records| <= |r| <= |records| + 1
      && p in r
      && (|r| == |records| + 1 <==> forall k :: 0 <= k < |records| ==> records[k].urlId != p.urlId)
      && (forall k :: 0 <= k < |records| && records[k].urlId != p.urlId ==> r[k] == records[k])
      && (UniqueUrlIds(records) ==> UniqueUrlIds(r))
  {
    var i := IndexOfUrl(records, p.urlId);
    var r := Upsert(records, p);
    if i == |records| {
      assert r[|records|] == p;
    } else {
      assert r[i] == p;
    }
  }

  /** The records after a whole sequence of reports. */
  function UpsertAll(records: seq<DownloadProgress>, reports: seq<DownloadProgress>): seq<DownloadProgress>
    decreases reports
  {
    if reports == [] then records else UpsertAll(Upsert(records, reports[0]), reports[1..])
  }

  /** However many reports arrive, there is one record per URL and the list grows by at most one per report. */
  lemma {:induction false} UpsertAllProperties(records: seq<DownloadProgress>, reports: seq<DownloadProgress>)
    requires UniqueUrlIds(records)
    ensures UniqueUrlIds(UpsertAll(records, reports))
    ensures |records| <= |UpsertAll(records, reports)| <= |records| + |reports|
    decreases reports
  {
    if reports != [] {
      UpsertProperties(records, reports[0]);
      UpsertAllProperties(Upsert(records, reports[0]), reports[1..]);
    }
  }

  /** Number of records in the given status (`sum(1 for p in ... if p.status == ...)`). */
  function Count(records: seq<DownloadProgress>, s: DownloadStatus): nat {
    if records == [] then 0
    else Count(records[..|records| - 1], s) + (if records[|records| - 1].status == s then 1 else 0)
  }

  /** Every record is in exactly one of the five statuses, so the five counts add up to the total. */
  lemma {:induction false} CountsPartition(records: seq<DownloadProgress>)
    ensures Count(records, Pending) + Count(records, Downloading) + Count(records, Completed)
            + Count(records, Failed) + Count(records, Paused) == |records|
  {
    if records != [] {
      CountsPartition(records[..|records| - 1]);
    }
  }

  /** The three counts the endpoint reports never exceed the total. */
  lemma CountsBounded(records: seq<DownloadProgress>)
    ensures Count(records, Completed) + Count(records, Failed) + Count(records, Downloading) <= |records|
  {
    CountsPartition(records);
  }

  lemma {:induction false} CountAll(records: seq<DownloadProgress>, s: DownloadStatus)
    ensures Count(records, s) <= |records|
    ensures Count(records, s) == |records| <==> forall k :: 0 <= k < |records| ==> records[k].status == s
  {
    if records != [] {
      var init := records[..|records| - 1];
      CountAll(init, s);
      assert forall k :: 0 <= k < |init| ==> init[k] == records[k];
    }
  }

  lemma {:induction false} CountNone(records: seq<DownloadProgress>, s: DownloadStatus)
    ensures Count(records, s) == 0 <==> forall k :: 0 <= k < |records| ==> records[k].status != s
  {
    if records != [] {
      var init := records[..|records| - 1];
      CountNone(init, s);
      assert forall k :: 0 <= k < |init| ==> init[k] == records[k];
    }
  }

  /** The overall status the endpoint reports. */
  datatype OverallStatus = OverallPending | OverallDownloading | OverallCompleted | OverallFailed | Partial {
    function Value(): string {
      match this
      case OverallPending => "pending"
      case OverallDownloading => "downloading"
      case OverallCompleted => "completed"
      case OverallFailed => "failed"
      case Partial => "partial"
    }
  }

  /** The body `get_download_status` answers with. */
  datatype StatusReport = StatusReport(
    downloadId: Id,
    status: OverallStatus,
    total: nat,
    completed: nat,
    failed: nat,
    downloading: nat,
    progress: seq<DownloadProgress>)

  /** The aggregation of `get_download_status`, with its precedence of overall statuses. */
  function Summarize(downloadId: Id, records: seq<DownloadProgress>): (r: StatusReport)
    ensures r.downloadId == downloadId && r.progress == records && r.total == |records|
    ensures r.completed + r.failed + r.downloading <= r.total
    ensures r.status == OverallPending <==> records == []
  {
    CountsBounded(records);
    var total := |records|;
    var completed := Count(records, Completed);
    var failed := Count(records, Failed);
    var downloading := Count(records, Downloading);
    var status :=
      if total == 0 then OverallPending
      else if downloading > 0 then OverallDownloading
      else if completed == total then OverallCompleted
      else if failed == total then OverallFailed
      else Partial;
    StatusReport(downloadId, status, total, completed, failed, downloading, records)
  }

  ghost predicate AllIn(records: seq<DownloadProgress>, s: DownloadStatus) {
    forall k :: 0 <= k < |records| ==> records[k].status == s
  }

  ghost predicate SomeIn(records: seq<DownloadProgress>, s: DownloadStatus) {
    exists k :: 0 <= k < |records| && records[k].status == s
  }

  /** What each overall status means in terms of the records, in both directions. */
  lemma SummarizeMeaning(downloadId: Id, records: seq<DownloadProgress>)
    ensures var r := Summarize(downloadId, records);
      (r.status == OverallPending <==> records == [])
      && (r.status == OverallDownloading <==> SomeIn(records, Downloading))
      && (r.status == OverallCompleted <==> records != [] && AllIn(records, Completed))
      && (r.status == OverallFailed <==> records != [] && AllIn(records, Failed))
      && (r.status == Partial <==>
            records != [] && !SomeIn(records, Downloading)
            && !AllIn(records, Completed) && !AllIn(records, Failed))
      && r.completed + r.failed + r.downloading <= r.total == |records|
  {
    CountAll(records, Completed);
    CountAll(records, Failed);
    CountNone(records, Downloading);
    CountsBounded(records);
  }

  class DownloadTracker {
    /** `active_downloads`: the reported progress records of each running download. */
    var activeDownloads: map<Id, seq<DownloadProgress>>

    /** Each download holds at most one record per URL. */
    ghost predicate Valid()
      reads this
    {
      forall id :: id in activeDownloads ==> UniqueUrlIds(activeDownloads[id])
    }

    constructor ()
      ensures Valid() && activeDownloads == map[]
    {
      activeDownloads := map[];
    }

    /** `start_download`: 404 for an unknown project, else the project id becomes the download id with no records. */
    method StartDownload(data: DownloadRequest, store: ProjectService.ProjectStore) returns (r: Result<StartResponse, HttpError>)
      requires Valid()
      modifies this
      ensures Valid()
      ensures data.projectId !in store.projects ==>
        r == Err(NotFound("Project not found")) && activeDownloads == old(activeDownloads)
      ensures data.projectId in store.projects ==>
        r == Ok(StartResponse("Download started", data.projectId, store.projects[data.projectId].name))
        && activeDownloads == old(activeDownloads)[data.projectId := []]
    {
      var project := store.GetProject(data.projectId);
      if project.None? {
        return Err(NotFound("Project not found"));
      }
      var downloadId := data.projectId;
      activeDownloads := activeDownloads[downloadId := []];
      r := Ok(StartResponse("Download started", downloadId, project.value.name));
    }

    /**
     * `progress_callback`: replaces the first record of the same URL, else appends. For a
     * download that is no longer tracked the append raises KeyError (`ok == false`) and
     * nothing changes.
     */
    method ProgressCallback(downloadId: Id, progress: DownloadProgress) returns (ok: bool)
      requires Valid()
      modifies this
      ensures Valid()
      ensures ok == (downloadId in old(activeDownloads))
      ensures activeDownloads ==
        if ok then old(activeDownloads)[downloadId := Upsert(old(activeDownloads)[downloadId], progress)]
        else old(activeDownloads)
    {
      var records := if downloadId in activeDownloads then activeDownloads[downloadId] else [];
      var i := 0;
      while i < |records|
        invariant i <= |records|
        invariant forall k :: 0 <= k < i ==> records[k].urlId != progress.urlId
      {
        if records[i].urlId == progress.urlId {
          ProjectService.FirstIndexIsFirstMatch(records, RecordUrlId, progress.urlId, i);
          UpsertProperties(records, progress);
          activeDownloads := activeDownloads[downloadId := records[i := progress]];
          return true;
        }
        i := i + 1;
      }
      if downloadId !in activeDownloads {
        return false;
      }
      ProjectService.FirstIndexIsFirstMatch(records, RecordUrlId, progress.urlId, i);
      UpsertProperties(records, progress);
      activeDownloads := activeDownloads[downloadId := records + [progress]];
      return true;
    }

    /** `get_download_status`: 404 for an unknown download, else the summary of its records. */
    function GetDownloadStatus(downloadId: Id): (r: Result<StatusReport, HttpError>)
      reads this
      ensures r.Err? <==> downloadId !in activeDownloads
      ensures r.Ok? ==> r.value.downloadId == downloadId && r.value.progress == activeDownloads[downloadId]
                        && r.value.total == |activeDownloads[downloadId]|
    {
      if downloadId !in activeDownloads then Err(NotFound("Download not found"))
      else Ok(Summarize(downloadId, activeDownloads[downloadId]))
    }

    /** `cancel_download`: forgets the download if it is tracked and always succeeds. */
    method CancelDownload(downloadId: Id) returns (message: string)
      requires Valid()
      modifies this
      ensures Valid()
      ensures activeDownloads == old(activeDownloads) - {downloadId}
      ensures message == "Download cancelled"
    {
      if downloadId in activeDownloads {
        activeDownloads := activeDownloads - {downloadId};
      }
      message := "Download cancelled";
    }
  }

}
