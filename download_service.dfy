/**
 * Download planning and the life of one URL's download. yt-dlp itself is opaque: what it
 * does for a job is a `Transfer`, the progress-hook calls it makes followed by either a
 * normal return or an exception. The progress callback is recorded as the sequence of
 * records it is handed (`reported`).
 */
module DownloadService {
  import opened Wrappers
  import opened Strings
  import opened Models
  import ProjectService

  /** `settings.default_format`. */
  const DefaultFormat: string := "bestvideo[ext=mp4]+bestaudio[ext=m4a]/best[ext=mp4]/best"

  /** A callable handed to yt-dlp, by identity. */
  type HookRef = nat

  /** A value in the yt-dlp options dict. */
  datatype OptValue = Text(s: string) | Flag(b: bool) | Hooks(hooks: seq<HookRef>)

  /** `_create_yt_dlp_opts`: the fixed options, the output template, and the hook when there is one. */
  method CreateYtDlpOpts(outputPath: string, progressHook: Option<HookRef>) returns (opts: map<string, OptValue>)
    ensures opts.Keys == {"format", "outtmpl", "quiet", "no_warnings", "extract_flat"}
                         + (if progressHook.Some? then {"progress_hooks"} else {})
    ensures opts["outtmpl"] == Text(outputPath) && opts["format"] == Text(DefaultFormat)
    ensures opts["quiet"] == Flag(true) && opts["no_warnings"] == Flag(true) && opts["extract_flat"] == Flag(false)
    ensures "progress_hooks" in opts <==> progressHook.Some?
    ensures progressHook.Some? ==> opts["progress_hooks"] == Hooks([progressHook.value])
  {
    opts := map[
      "format" := Text(DefaultFormat),
      "outtmpl" := Text(outputPath),
      "quiet" := Flag(true),
      "no_warnings" := Flag(true),
      "extract_flat" := Flag(false)];
    if progressHook.Some? {
      opts := opts["progress_hooks" := Hooks([progressHook.value])];
    }
  }

  /** One call of the progress hook: yt-dlp's `d["status"]` and `d.get("filename", "")`. */
  datatype HookEvent = HookEvent(status: string, filename: string)

  /** How yt-dlp's `download` call ends. */
  datatype Outcome = Returned | Raised(message: string)

  /** What yt-dlp does for one job: the hook calls it makes, then how it ends. */
  datatype Transfer = Transfer(events: seq<HookEvent>, outcome: Outcome)

  /** The hook reacts to "downloading" and "finished" and ignores every other status. */
  predicate Handled(e: HookEvent) {
    e.status == "downloading" || e.status == "finished"
  }

  /** The number of hook calls the hook reacts to. */
  function CountHandled(events: seq<HookEvent>): (n: nat)
    ensures n <= |events|
    ensures n == 0 <==> forall i :: 0 <= i < |events| ==> !Handled(events[i])
  {
    if events == [] then 0
    else
      var n := CountHandled(events[..|events| - 1]) + (if Handled(events[|events| - 1]) then 1 else 0);
      assert forall i :: 0 <= i < |events| - 1 ==> events[..|events| - 1][i] == events[i];
      n
  }

  /** The filename of the last handled hook call, if any. */
  function LastHandledFilename(events: seq<HookEvent>): Option<string> {
    if events == [] then None
    else if Handled(events[|events| - 1]) then Some(events[|events| - 1].filename)
    else LastHandledFilename(events[..|events| - 1])
  }

  /** What one call of `progress_hook` does to the record. */
  function HookStep(progress: DownloadProgress, e: HookEvent): DownloadProgress {
    if e.status == "downloading" then progress.(filename := Some(e.filename))
    else if e.status == "finished" then progress.(status := Completed, filename := Some(e.filename))
    else progress
  }

  /** The record after the hook has seen `events`, starting from the DOWNLOADING record. */
  function HookState(events: seq<HookEvent>, urlId: Id, lessonId: Id): DownloadProgress {
    if events == [] then DownloadProgress(lessonId, urlId, Downloading)
    else HookStep(HookState(events[..|events| - 1], urlId, lessonId), events[|events| - 1])
  }

  /** The records the hook hands to the callback: the record after each handled call. */
  function HookReports(events: seq<HookEvent>, urlId: Id, lessonId: Id): seq<DownloadProgress> {
    if events == [] then []
    else
      HookReports(events[..|events| - 1], urlId, lessonId)
      + (if Handled(events[|events| - 1]) then [HookState(events, urlId, lessonId)] else [])
  }

  predicate SomeFinished(events: seq<HookEvent>) {
    exists j :: 0 <= j < |events| && events[j].status == "finished"
  }

  /**
   * The hook's record keeps its ids and has no error; it is COMPLETED exactly when some
   * call said "finished", DOWNLOADING otherwise, and its filename is the last handled call's.
   */
  lemma {:induction false} HookStateMeaning(events: seq<HookEvent>, urlId: Id, lessonId: Id)
    ensures HookState(events, urlId, lessonId).urlId == urlId
    ensures HookState(events, urlId, lessonId).lessonId == lessonId
    ensures HookState(events, urlId, lessonId).error == None
    ensures HookState(events, urlId, lessonId).status == (if SomeFinished(events) then Completed else Downloading)
    ensures HookState(events, urlId, lessonId).filename == LastHandledFilename(events)
  {
    if events != [] {
      var prev := events[..|events| - 1];
      HookStateMeaning(prev, urlId, lessonId);
      var e := events[|events| - 1];
      if SomeFinished(prev) {
        var j :| 0 <= j < |prev| && prev[j].status == "finished";
        assert events[j] == prev[j];
      }
      if SomeFinished(events) && e.status != "finished" {
        var j :| 0 <= j < |events| && events[j].status == "finished";
        assert prev[j] == events[j];
      }
    }
  }

  /** One report per handled hook call. */
  lemma {:induction false} HookReportsLength(events: seq<HookEvent>, urlId: Id, lessonId: Id)
    ensures |HookReports(events, urlId, lessonId)| == CountHandled(events)
  {
    if events != [] {
      HookReportsLength(events[..|events| - 1], urlId, lessonId);
    }
  }

  /** Every handled call `i` hands over the record as it stands after `events[..i + 1]`. */
  lemma {:induction false} HookReportsComplete(events: seq<HookEvent>, urlId: Id, lessonId: Id)
    ensures forall i :: 0 <= i < |events| && Handled(events[i]) ==>
      HookState(events[..i + 1], urlId, lessonId) in HookReports(events, urlId, lessonId)
  {
    if events != [] {
      var n := |events| - 1;
      var prev := events[..n];
      HookReportsComplete(prev, urlId, lessonId);
      var r := HookReports(events, urlId, lessonId);
      assert r == HookReports(prev, urlId, lessonId) + (if Handled(events[n]) then [HookState(events, urlId, lessonId)] else []);
      forall i | 0 <= i < |events| && Handled(events[i])
        ensures HookState(events[..i + 1], urlId, lessonId) in r
      {
        if i < n {
          assert prev[i] == events[i] && prev[..i + 1] == events[..i + 1];
        } else {
          assert events[..i + 1] == events;
        }
      }
    }
  }

  /** Nothing but the records after handled calls is reported. */
  lemma {:induction false} HookReportsSound(events: seq<HookEvent>, urlId: Id, lessonId: Id)
    ensures forall q :: q in HookReports(events, urlId, lessonId) ==>
      exists i :: 0 <= i < |events| && Handled(events[i]) && q == HookState(events[..i + 1], urlId, lessonId)
  {
    if events != [] {
      var n := |events| - 1;
      var prev := events[..n];
      HookReportsSound(prev, urlId, lessonId);
      var r := HookReports(events, urlId, lessonId);
      assert r == HookReports(prev, urlId, lessonId) + (if Handled(events[n]) then [HookState(events, urlId, lessonId)] else []);
      forall q | q in r
        ensures exists i :: 0 <= i < |events| && Handled(events[i]) && q == HookState(events[..i + 1], urlId, lessonId)
      {
        if q in HookReports(prev, urlId, lessonId) {
          var i :| 0 <= i < |prev| && Handled(prev[i]) && q == HookState(prev[..i + 1], urlId, lessonId);
          assert prev[i] == events[i] && prev[..i + 1] == events[..i + 1];
        } else {
          assert events[..n + 1] == events;
          assert Handled(events[n]) && q == HookState(events[..n + 1], urlId, lessonId);
        }
      }
    }
  }

  /**
   * What each report says: DOWNLOADING or COMPLETED, never an error, the filename of the
   * call that made it; COMPLETED exactly when a "finished" call came at or before it.
   */
  lemma HookReportMeaning(events: seq<HookEvent>, urlId: Id, lessonId: Id, i: nat)
    requires i < |events| && Handled(events[i])
    ensures HookState(events[..i + 1], urlId, lessonId) in HookReports(events, urlId, lessonId)
    ensures var q := HookState(events[..i + 1], urlId, lessonId);
      q.urlId == urlId && q.lessonId == lessonId && q.error == None
      && q.filename == Some(events[i].filename)
      && q.status == (if SomeFinished(events[..i + 1]) then Completed else Downloading)
      && (events[i].status == "finished" ==> q.status == Completed)
  {
    HookReportsComplete(events, urlId, lessonId);
    var pre := events[..i + 1];
    HookStateMeaning(pre, urlId, lessonId);
    assert pre[|pre| - 1] == events[i];
    if events[i].status == "finished" {
      assert pre[i].status == "finished";
    }
  }

  /** Once a report is COMPLETED, every later report is COMPLETED too. */
  lemma {:induction false} HookReportsStayCompleted(events: seq<HookEvent>, urlId: Id, lessonId: Id)
    ensures forall a, b ::
      (0 <= a < b < |HookReports(events, urlId, lessonId)| && HookReports(events, urlId, lessonId)[a].status == Completed)
      ==> HookReports(events, urlId, lessonId)[b].status == Completed
    ensures forall q ::
      (q in HookReports(events, urlId, lessonId) && q.status == Completed)
      ==> HookState(events, urlId, lessonId).status == Completed
  {
    if events != [] {
      var prev := events[..|events| - 1];
      HookReportsStayCompleted(prev, urlId, lessonId);
      var earlier := HookReports(prev, urlId, lessonId);
      var r := HookReports(events, urlId, lessonId);
      var e := events[|events| - 1];
      assert HookState(events, urlId, lessonId) == HookStep(HookState(prev, urlId, lessonId), e);
      forall a, b | 0 <= a < b < |r| && r[a].status == Completed
        ensures r[b].status == Completed
      {
        assert r[a] == earlier[a];
        if b >= |earlier| {
          assert r[a] in earlier;
        }
      }
      forall q | q in r && q.status == Completed
        ensures HookState(events, urlId, lessonId).status == Completed
      {
      }
    }
  }

  /** The final status `download_url` reports for a transfer. */
  function FinalStatus(t: Transfer): (s: DownloadStatus)
    ensures s == Completed || s == Failed
  {
    if t.outcome.Returned? then Completed else Failed
  }

  /** The record `download_url` returns: the hook's last record, finished off by how yt-dlp ended. */
  function UrlResult(t: Transfer, urlId: Id, lessonId: Id): DownloadProgress {
    var s := HookState(t.events, urlId, lessonId);
    if t.outcome.Returned? then s.(status := Completed) else s.(status := Failed, error := Some(t.outcome.message))
  }

  /**
   * The returned record carries the URL's ids, COMPLETED or FAILED as yt-dlp returned or raised,
   * the exception's text exactly when it raised, and the filename of the last handled hook call.
   */
  lemma UrlResultMeaning(t: Transfer, urlId: Id, lessonId: Id)
    ensures UrlResult(t, urlId, lessonId).urlId == urlId && UrlResult(t, urlId, lessonId).lessonId == lessonId
    ensures UrlResult(t, urlId, lessonId).status == FinalStatus(t)
    ensures UrlResult(t, urlId, lessonId).error == if t.outcome.Raised? then Some(t.outcome.message) else None
    ensures UrlResult(t, urlId, lessonId).filename == LastHandledFilename(t.events)
  {
    HookStateMeaning(t.events, urlId, lessonId);
  }

  /** What the callback receives during one `download_url`: the hook's reports, then the failed record if yt-dlp raised. */
  function JobReports(j: Job, t: Transfer): seq<DownloadProgress> {
    HookReports(t.events, j.urlId, j.lessonId) + (if t.outcome.Raised? then [UrlResult(t, j.urlId, j.lessonId)] else [])
  }

  /**
   * Every report made while downloading a URL concerns that URL; there is one per handled
   * hook call, plus the returned FAILED record, last, when yt-dlp raised.
   */
  lemma JobReportsMeaning(j: Job, t: Transfer)
    ensures forall q :: q in JobReports(j, t) ==> q.urlId == j.urlId && q.lessonId == j.lessonId
    ensures |JobReports(j, t)| == CountHandled(t.events) + (if t.outcome.Raised? then 1 else 0)
    ensures t.outcome.Raised? ==> JobReports(j, t)[|JobReports(j, t)| - 1] == UrlResult(t, j.urlId, j.lessonId)
  {
    HookReportsLength(t.events, j.urlId, j.lessonId);
    UrlResultMeaning(t, j.urlId, j.lessonId);
    forall q | q in HookReports(t.events, j.urlId, j.lessonId)
      ensures q.urlId == j.urlId && q.lessonId == j.lessonId
    {
      HookReportsSound(t.events, j.urlId, j.lessonId);
      var i :| 0 <= i < |t.events| && Handled(t.events[i]) && q == HookState(t.events[..i + 1], j.urlId, j.lessonId);
      HookStateMeaning(t.events[..i + 1], j.urlId, j.lessonId);
    }
  }

  /**
   * `download_url`: starts at DOWNLOADING, lets the hook update the record and report it,
   * and ends COMPLETED when yt-dlp returns or FAILED with the error when it raises.
   * `transfer` stands for what `YoutubeDL(opts).download([url])` does under the options built
   * here, which register the hook (`HookRef` 0) and write to `outputPath`. What the record
   * and the reports then say is proved in `UrlResultMeaning` and `JobReportsMeaning`.
   */
  method DownloadUrl(url: string, outputPath: string, urlId: Id, lessonId: Id, transfer: Transfer, hasCallback: bool)
    returns (progress: DownloadProgress, reported: seq<DownloadProgress>)
    ensures progress == UrlResult(transfer, urlId, lessonId)
    ensures reported == if hasCallback then JobReports(Job(url, outputPath, urlId, lessonId), transfer) else []
    ensures progress.status == FinalStatus(transfer)
    ensures progress.error == if transfer.outcome.Raised? then Some(transfer.outcome.message) else None
    ensures progress.filename == LastHandledFilename(transfer.events)
  {
    progress := DownloadProgress(lessonId, urlId, Downloading);
    reported := [];
    var opts := CreateYtDlpOpts(outputPath, Some(0));
    var events := transfer.events;
    var i := 0;
    while i < |events|
      invariant i <= |events|
      invariant progress == HookState(events[..i], urlId, lessonId)
      invariant !hasCallback ==> reported == []
      invariant hasCallback ==> reported == HookReports(events[..i], urlId, lessonId)
    {
      var d := events[i];
      if d.status == "downloading" {
        progress := progress.(filename := Some(d.filename));
        if hasCallback {
          reported := reported + [progress];
        }
      } else if d.status == "finished" {
        progress := progress.(status := Completed, filename := Some(d.filename));
        if hasCallback {
          reported := reported + [progress];
        }
      }
      HookPrefixStep(events, i, urlId, lessonId);
      i := i + 1;
    }
    assert events[..i] == events;
    HookStateMeaning(events, urlId, lessonId);
    match transfer.outcome {
      case Returned =>
        progress := progress.(status := Completed);
      case Raised(message) =>
        progress := progress.(status := Failed, error := Some(message));
        if hasCallback {
          reported := reported + [progress];
        }
    }
  }

  /** One more hook call moves the record by `HookStep` and reports it when the call is handled. */
  lemma HookPrefixStep(events: seq<HookEvent>, i: nat, urlId: Id, lessonId: Id)
    requires i < |events|
    ensures HookState(events[..i + 1], urlId, lessonId) == HookStep(HookState(events[..i], urlId, lessonId), events[i])
    ensures HookReports(events[..i + 1], urlId, lessonId)
            == HookReports(events[..i], urlId, lessonId)
               + (if Handled(events[i]) then [HookState(events[..i + 1], urlId, lessonId)] else [])
  {
    assert events[..i + 1][..i] == events[..i];
  }

  /** The name yt-dlp writes a URL to: numbered by part only when the lesson has several URLs. */
  function OutputFilename(title: string, partNumber: int, urlCount: nat): (r: string)
    ensures |r| >= |title| + 8 && r[..|title|] == title && r[|r| - 8..] == ".%(ext)s"
    ensures urlCount > 1 ==> r[|title|..|title| + 6] == " part "
  {
    if urlCount > 1 then title + " part " + IntStr(partNumber) + ".%(ext)s"
    else title + ".%(ext)s"
  }

  /** `Path(directory) / name`, without pathlib's normalisation. */
  function JoinPath(directory: string, name: string): (r: string)
    ensures |r| >= |directory| + |name| && r[..|directory|] == directory && r[|r| - |name|..] == name
  {
    if directory == "" then name
    else if directory[|directory| - 1] == '/' then directory + name
    else directory + "/" + name
  }

  lemma JoinPathInjective(directory: string, a: string, b: string)
    requires JoinPath(directory, a) == JoinPath(directory, b)
    ensures a == b
  {
    var n := |JoinPath(directory, a)| - |a|;
    assert a == JoinPath(directory, a)[n..];
    assert b == JoinPath(directory, b)[n..];
  }

  lemma CancelAffixes(pre: string, x: string, y: string, suf: string)
    requires pre + x + suf == pre + y + suf
    ensures x == y
  {
    var s := pre + x + suf;
    assert |x| == |y|;
    assert x == s[|pre|..|pre| + |x|];
    assert y == (pre + y + suf)[|pre|..|pre| + |y|];
  }

  /** Within a lesson of several URLs, different part numbers never share an output file. */
  lemma DistinctPartsDistinctFiles(directory: string, title: string, a: int, b: int, urlCount: nat)
    requires urlCount > 1 && a != b
    ensures JoinPath(directory, OutputFilename(title, a, urlCount)) != JoinPath(directory, OutputFilename(title, b, urlCount))
  {
    if JoinPath(directory, OutputFilename(title, a, urlCount)) == JoinPath(directory, OutputFilename(title, b, urlCount)) {
      JoinPathInjective(directory, OutputFilename(title, a, urlCount), OutputFilename(title, b, urlCount));
      CancelAffixes(title + " part ", IntStr(a), IntStr(b), ".%(ext)s");
      IntStrInjective(a, b);
    }
  }

  /** One call of `download_url` that `download_lesson` makes. */
  datatype Job = Job(url: string, outputPath: string, urlId: Id, lessonId: Id)

  /** The jobs `download_lesson` runs for a lesson id. */
  function LessonJobs(p: Project, lessonId: Id): (r: seq<Job>)
    ensures r != [] ==> exists k :: 0 <= k < |p.lessons| && p.lessons[k].id == lessonId
    ensures forall j :: 0 <= j < |r| ==> r[j].lessonId == lessonId
  {
    var i := ProjectService.FirstLesson(p.lessons, lessonId);
    if i == |p.lessons| then []
    else
      var l := p.lessons[i];
      seq(|l.urls|, j requires 0 <= j < |l.urls| => UrlJob(p, l, j))
  }

  /** The job for the `j`th URL of lesson `l` of project `p`. */
  function UrlJob(p: Project, l: Lesson, j: nat): Job
    requires j < |l.urls|
  {
    Job(l.urls[j].url, JoinPath(p.saveLocation, OutputFilename(l.title, l.urls[j].partNumber, |l.urls|)),
        l.urls[j].id, l.id)
  }

  /** No jobs for an unknown lesson; otherwise one per URL of the first lesson with that id, in URL order. */
  lemma LessonJobsShape(p: Project, lessonId: Id)
    ensures var i := ProjectService.FirstLesson(p.lessons, lessonId);
      var jobs := LessonJobs(p, lessonId);
      if i == |p.lessons| then jobs == []
      else (|jobs| == |p.lessons[i].urls|
            && forall j :: 0 <= j < |jobs| ==>
                 jobs[j].urlId == p.lessons[i].urls[j].id && jobs[j].lessonId == lessonId
                 && jobs[j].url == p.lessons[i].urls[j].url)
  {
  }

  /** The lessons whose id is listed, in project order (the comprehension in `download_project`). */
  function ListedLessons(lessons: seq<Lesson>, ids: seq<Id>): seq<Lesson> {
    if lessons == [] then []
    else (if lessons[0].id in ids then [lessons[0]] else []) + ListedLessons(lessons[1..], ids)
  }

  /** `download_project`'s selection: every lesson for None or an empty list, else the listed ones. */
  function SelectLessons(lessons: seq<Lesson>, lessonIds: Option<seq<Id>>): (r: seq<Lesson>)
    ensures |r| <= |lessons|
    ensures forall l :: l in r ==> l in lessons && (lessonIds.Some? && lessonIds.value != [] ==> l.id in lessonIds.value)
  {
    ListedLessonsMembers(lessons, lessonIds.GetOr([]));
    if lessonIds.None? || lessonIds.value == [] then lessons else ListedLessons(lessons, lessonIds.value)
  }

  /** The selection keeps the project order: it distributes over concatenation. */
  lemma {:induction false} ListedLessonsAppend(a: seq<Lesson>, b: seq<Lesson>, ids: seq<Id>)
    ensures ListedLessons(a + b, ids) == ListedLessons(a, ids) + ListedLessons(b, ids)
  {
    if a == [] {
      assert a + b == b;
    } else {
      ListedLessonsAppend(a[1..], b, ids);
      var head := if a[0].id in ids then [a[0]] else [];
      calc {
        ListedLessons(a + b, ids);
      ==  { assert (a + b)[0] == a[0]; assert (a + b)[1..] == a[1..] + b; }
        head + ListedLessons(a[1..] + b, ids);
      ==
        head + (ListedLessons(a[1..], ids) + ListedLessons(b, ids));
      }
    }
  }

  /** The selection keeps exactly the listed lessons, and never more lessons than the project has. */
  lemma {:induction false} ListedLessonsMembers(a: seq<Lesson>, ids: seq<Id>)
    ensures forall l :: l in ListedLessons(a, ids) <==> l in a && l.id in ids
    ensures |ListedLessons(a, ids)| <= |a|
  {
    if a != [] {
      ListedLessonsMembers(a[1..], ids);
      assert a == [a[0]] + a[1..];
    }
  }

  /** Only which ids are listed matters: repeating an id does not repeat its lesson. */
  lemma {:induction false} ListedLessonsIdSet(lessons: seq<Lesson>, ids1: seq<Id>, ids2: seq<Id>)
    requires forall x :: x in ids1 <==> x in ids2
    ensures ListedLessons(lessons, ids1) == ListedLessons(lessons, ids2)
  {
    if lessons != [] {
      ListedLessonsIdSet(lessons[1..], ids1, ids2);
    }
  }

  /** `f` applied to each element, the results concatenated in order. */
  function FlatMap<A, B>(xs: seq<A>, f: A -> seq<B>): seq<B> {
    if xs == [] then [] else f(xs[0]) + FlatMap(xs[1..], f)
  }

  lemma {:induction false} FlatMapAppend<A, B>(a: seq<A>, b: seq<A>, f: A -> seq<B>)
    ensures FlatMap(a + b, f) == FlatMap(a, f) + FlatMap(b, f)
  {
    if a == [] {
      assert a + b == b;
      assert FlatMap(a, f) == [];
    } else {
      var ab := a + b;
      assert ab[0] == a[0];
      assert ab[1..] == a[1..] + b;
      FlatMapAppend(a[1..], b, f);
      assert FlatMap(ab, f) == f(a[0]) + FlatMap(a[1..] + b, f);
      assert FlatMap(a, f) == f(a[0]) + FlatMap(a[1..], f);
    }
  }

  /** Mapping one element more appends its image. */
  lemma FlatMapPrefix<A, B>(xs: seq<A>, i: nat, f: A -> seq<B>)
    requires i < |xs|
    ensures FlatMap(xs[..i + 1], f) == FlatMap(xs[..i], f) + f(xs[i])
  {
    assert xs[..i + 1] == xs[..i] + [xs[i]];
    FlatMapAppend(xs[..i], [xs[i]], f);
    assert FlatMap([xs[i]], f) == f(xs[i]) + FlatMap([xs[i]][1..], f);
    assert [xs[i]][1..] == [];
  }

  /** `download_lesson` as `download_project` calls it: the lesson is looked up again by its id. */
  function JobsOfLesson(p: Project): Lesson -> seq<Job> {
    (l: Lesson) => LessonJobs(p, l.id)
  }

  /** The jobs `download_project` runs, lesson by lesson. */
  function ProjectJobs(p: Project, lessonIds: Option<seq<Id>>): seq<Job> {
    FlatMap(SelectLessons(p.lessons, lessonIds), JobsOfLesson(p))
  }

  function TotalUrls(ls: seq<Lesson>): nat {
    if ls == [] then 0 else |ls[0].urls| + TotalUrls(ls[1..])
  }

  predicate DistinctLessonIds(ls: seq<Lesson>) {
    forall i, j :: 0 <= i < j < |ls| ==> ls[i].id != ls[j].id
  }

  /** With distinct lesson ids, downloading every lesson runs one job per URL of the project. */
  lemma {:induction false} AllLessonsJobCount(p: Project)
    requires DistinctLessonIds(p.lessons)
    ensures |ProjectJobs(p, None)| == TotalUrls(p.lessons)
  {
    SuffixJobCount(p, 0);
  }

  lemma {:induction false} SuffixJobCount(p: Project, k: nat)
    requires DistinctLessonIds(p.lessons) && k <= |p.lessons|
    ensures |FlatMap(p.lessons[k..], JobsOfLesson(p))| == TotalUrls(p.lessons[k..])
    decreases |p.lessons| - k
  {
    if k < |p.lessons| {
      SuffixJobCount(p, k + 1);
      assert p.lessons[k..][1..] == p.lessons[k + 1..];
      ProjectService.FirstIndexIsFirstMatch(p.lessons, ProjectService.LessonIdOf, p.lessons[k].id, k);
    } else {
      assert p.lessons[k..] == [];
    }
  }

  /** The results of running `jobs` in order: one per job, the record `download_url` returns for it. */
  ghost predicate ResultsMatch(results: seq<DownloadProgress>, jobs: seq<Job>, transfers: Job -> Transfer) {
    |results| == |jobs|
    && forall i :: 0 <= i < |jobs| ==> results[i] == UrlResult(transfers(jobs[i]), jobs[i].urlId, jobs[i].lessonId)
  }

  /** The record returned for each job, as a function for `FlatMap`. */
  function ResultOf(transfers: Job -> Transfer): Job -> seq<DownloadProgress> {
    (j: Job) => [UrlResult(transfers(j), j.urlId, j.lessonId)]
  }

  /** What running `jobs` one after the other returns. */
  function AllResults(jobs: seq<Job>, transfers: Job -> Transfer): seq<DownloadProgress> {
    FlatMap(jobs, ResultOf(transfers))
  }

  /** The returned list holds one record per job, in job order, each `UrlResult` of that job. */
  lemma {:induction false} AllResultsMatch(jobs: seq<Job>, transfers: Job -> Transfer)
    ensures ResultsMatch(AllResults(jobs, transfers), jobs, transfers)
  {
    if jobs != [] {
      var rest := jobs[1..];
      AllResultsMatch(rest, transfers);
      var r := AllResults(jobs, transfers);
      assert r == [UrlResult(transfers(jobs[0]), jobs[0].urlId, jobs[0].lessonId)] + AllResults(rest, transfers);
      forall i | 0 <= i < |jobs|
        ensures r[i] == UrlResult(transfers(jobs[i]), jobs[i].urlId, jobs[i].lessonId)
      {
        if i > 0 {
          assert r[i] == AllResults(rest, transfers)[i - 1] && rest[i - 1] == jobs[i];
        }
      }
    }
  }

  /** The reports of each job, as a function for `FlatMap`. */
  function ReportsOf(transfers: Job -> Transfer): Job -> seq<DownloadProgress> {
    (j: Job) => JobReports(j, transfers(j))
  }

  /** Everything the callback receives while `jobs` run one after the other. */
  function AllReports(jobs: seq<Job>, transfers: Job -> Transfer): seq<DownloadProgress> {
    FlatMap(jobs, ReportsOf(transfers))
  }

  /** Everything handed to the callback concerns one of the jobs. */
  ghost predicate ReportsFrom(reported: seq<DownloadProgress>, jobs: seq<Job>) {
    forall q :: q in reported ==> exists j :: 0 <= j < |jobs| && q.urlId == jobs[j].urlId && q.lessonId == jobs[j].lessonId
  }

  /** No report made while `jobs` run names a URL outside them. */
  lemma {:induction false} AllReportsFrom(jobs: seq<Job>, transfers: Job -> Transfer)
    ensures ReportsFrom(AllReports(jobs, transfers), jobs)
  {
    if jobs != [] {
      var rest := jobs[1..];
      AllReportsFrom(rest, transfers);
      JobReportsMeaning(jobs[0], transfers(jobs[0]));
      assert AllReports(jobs, transfers) == JobReports(jobs[0], transfers(jobs[0])) + AllReports(rest, transfers);
      forall q | q in AllReports(jobs, transfers)
        ensures exists j :: 0 <= j < |jobs| && q.urlId == jobs[j].urlId && q.lessonId == jobs[j].lessonId
      {
        if q in AllReports(rest, transfers) {
          var j :| 0 <= j < |rest| && q.urlId == rest[j].urlId && q.lessonId == rest[j].lessonId;
          assert rest[j] == jobs[j + 1];
        } else {
          assert q.urlId == jobs[0].urlId && q.lessonId == jobs[0].lessonId;
        }
      }
    }
  }

  /** `download_lesson`: one `download_url` per URL of the lesson, in order. */
  method DownloadLesson(project: Project, lessonId: Id, transfers: Job -> Transfer, hasCallback: bool)
    returns (results: seq<DownloadProgress>, reported: seq<DownloadProgress>)
    ensures results == AllResults(LessonJobs(project, lessonId), transfers)
    ensures ResultsMatch(results, LessonJobs(project, lessonId), transfers)
    ensures reported == if hasCallback then AllReports(LessonJobs(project, lessonId), transfers) else []
  {
    results := [];
    reported := [];
    ghost var jobs := LessonJobs(project, lessonId);
    var li := ProjectService.ProjectStore.IndexOfLesson(project.lessons, lessonId);
    if li == |project.lessons| {
      AllResultsMatch(jobs, transfers);
      return;
    }
    var lesson := project.lessons[li];
    LessonJobAt(project, lessonId, li, 0);
    var i := 0;
    while i < |lesson.urls|
      invariant i <= |lesson.urls|
      invariant results == AllResults(jobs[..i], transfers)
      invariant !hasCallback ==> reported == []
      invariant hasCallback ==> reported == AllReports(jobs[..i], transfers)
    {
      var urlObj := lesson.urls[i];
      var filename := OutputFilename(lesson.title, urlObj.partNumber, |lesson.urls|);
      var outputPath := JoinPath(project.saveLocation, filename);
      var job := Job(urlObj.url, outputPath, urlObj.id, lessonId);
      assert job == jobs[i] by {
        LessonJobAt(project, lessonId, li, i);
      }
      var result, urlReports := DownloadUrl(urlObj.url, outputPath, urlObj.id, lessonId, transfers(job), hasCallback);
      LessonStep(results, reported, jobs, i, result, urlReports, transfers, hasCallback);
      results := results + [result];
      reported := reported + urlReports;
      i := i + 1;
    }
    assert jobs[..i] == jobs;
    AllResultsMatch(jobs, transfers);
  }

  /** The `k`th job of a lesson that is found is its `k`th URL's job. */
  lemma LessonJobAt(p: Project, lessonId: Id, li: nat, k: nat)
    requires li == ProjectService.FirstLesson(p.lessons, lessonId) && li < |p.lessons|
    ensures |LessonJobs(p, lessonId)| == |p.lessons[li].urls|
    ensures k < |p.lessons[li].urls| ==> LessonJobs(p, lessonId)[k] == UrlJob(p, p.lessons[li], k)
  {
  }

  /** One more `download_url` call extends the results and the reports by the next job's. */
  lemma LessonStep(results: seq<DownloadProgress>, reported: seq<DownloadProgress>, jobs: seq<Job>, i: nat,
                   result: DownloadProgress, urlReports: seq<DownloadProgress>, transfers: Job -> Transfer, hasCallback: bool)
    requires i < |jobs|
    requires results == AllResults(jobs[..i], transfers)
    requires reported == if hasCallback then AllReports(jobs[..i], transfers) else []
    requires result == UrlResult(transfers(jobs[i]), jobs[i].urlId, jobs[i].lessonId)
    requires urlReports == if hasCallback then JobReports(jobs[i], transfers(jobs[i])) else []
    ensures results + [result] == AllResults(jobs[..i + 1], transfers)
    ensures reported + urlReports == if hasCallback then AllReports(jobs[..i + 1], transfers) else []
  {
    FlatMapPrefix(jobs, i, ResultOf(transfers));
    if hasCallback {
      FlatMapPrefix(jobs, i, ReportsOf(transfers));
    }
  }

  /** `download_project`: the selected lessons in project order, their results concatenated. */
  method DownloadProject(project: Project, lessonIds: Option<seq<Id>>, transfers: Job -> Transfer, hasCallback: bool)
    returns (results: seq<DownloadProgress>, reported: seq<DownloadProgress>)
    ensures results == AllResults(ProjectJobs(project, lessonIds), transfers)
    ensures ResultsMatch(results, ProjectJobs(project, lessonIds), transfers)
    ensures reported == if hasCallback then AllReports(ProjectJobs(project, lessonIds), transfers) else []
  {
    results := [];
    reported := [];
    var lessonsToDownload := project.lessons;
    if lessonIds.Some? && lessonIds.value != [] {
      lessonsToDownload := ListedLessons(project.lessons, lessonIds.value);
    }
    var i := 0;
    while i < |lessonsToDownload|
      invariant i <= |lessonsToDownload|
      invariant results == AllResults(FlatMap(lessonsToDownload[..i], JobsOfLesson(project)), transfers)
      invariant reported == if hasCallback then AllReports(FlatMap(lessonsToDownload[..i], JobsOfLesson(project)), transfers) else []
    {
      var lessonResults, lessonReports := DownloadLesson(project, lessonsToDownload[i].id, transfers, hasCallback);
      ProjectStep(project, lessonsToDownload, i, results, reported, lessonResults, lessonReports, transfers, hasCallback);
      results := results + lessonResults;
      reported := reported + lessonReports;
      i := i + 1;
    }
    assert lessonsToDownload[..i] == lessonsToDownload;
    AllResultsMatch(ProjectJobs(project, lessonIds), transfers);
  }

  /** One more lesson's results and reports extend those of the lessons before it. */
  lemma ProjectStep(p: Project, ls: seq<Lesson>, i: nat, results: seq<DownloadProgress>, reported: seq<DownloadProgress>,
                    lessonResults: seq<DownloadProgress>, lessonReports: seq<DownloadProgress>,
                    transfers: Job -> Transfer, hasCallback: bool)
    requires i < |ls|
    requires results == AllResults(FlatMap(ls[..i], JobsOfLesson(p)), transfers)
    requires reported == if hasCallback then AllReports(FlatMap(ls[..i], JobsOfLesson(p)), transfers) else []
    requires lessonResults == AllResults(LessonJobs(p, ls[i].id), transfers)
    requires lessonReports == if hasCallback then AllReports(LessonJobs(p, ls[i].id), transfers) else []
    ensures results + lessonResults == AllResults(FlatMap(ls[..i + 1], JobsOfLesson(p)), transfers)
    ensures reported + lessonReports == if hasCallback then AllReports(FlatMap(ls[..i + 1], JobsOfLesson(p)), transfers) else []
  {
    var done := FlatMap(ls[..i], JobsOfLesson(p));
    var next := LessonJobs(p, ls[i].id);
    FlatMapPrefix(ls, i, JobsOfLesson(p));
    FlatMapAppend(done, next, ResultOf(transfers));
    if hasCallback {
      FlatMapAppend(done, next, ReportsOf(transfers));
    }
  }
}
